/**
 `extractPrices`: reads the text each configured locator selects, applies the
 price pattern to it, and assembles the three quantity-tier prices by a chain
 of object spreads. A missing tier inherits the price of the next lower
 configured tier (100 -> 150 -> 200).
 */
module Extractor {
  import opened Wrappers
  import opened PriceToken

  /** An opaque markup locator (a CSS selector string). */
  type Locator = string

  /**
   The loaded page `$`: `$(loc).text()` is the text of every element the locator
   selects, or the message of the error the parser throws for a malformed locator.
   */
  type Query = Locator -> Result<string>

  /** What `text.match(pattern)` gives: the matched token, or `null`. */
  datatype Reading = Matched(token: string) | NoMatch

  /** The price object; each field is an unset key (`None`) or a reading. */
  datatype Prices = Prices(oneHundred: Option<Reading>, oneFifty: Option<Reading>, twoHundred: Option<Reading>)

  /** A site's price selector: one locator for every tier, or an object keyed "100", "150", "200". */
  datatype Selector =
    | Single(locator: Locator)
    | Tiered(loc100: Option<Locator>, loc150: Option<Locator>, loc200: Option<Locator>)

  /** `{}` */
  const Empty := Prices(None, None, None)

  /** The reading of one tier's text: a token when some substring is one, `null` otherwise. */
  function Read(text: string): (r: Reading)
    ensures r.Matched? ==> IsPriceToken(r.token)
    ensures r.NoMatch? <==> NoToken(text)
  {
    FindPriceIsLeftmostLongest(text);
    match FindPrice(text)
    case Some(token) => Matched(token)
    case None => NoMatch
  }

  /** The field of tier `k`: 0 is "100", 1 is "150", 2 is "200". */
  function Tier(p: Prices, k: nat): Option<Reading>
    requires k < 3
  {
    if k == 0 then p.oneHundred else if k == 1 then p.oneFifty else p.twoHundred
  }

  function Override<T>(base: Option<T>, patch: Option<T>): Option<T> {
    if patch.Some? then patch else base
  }

  /** `{ ...base, ...patch }`: keys set in the patch replace those of the base. */
  function Spread(base: Prices, patch: Prices): (r: Prices)
    ensures forall k :: 0 <= k < 3 ==> Tier(r, k) == (if Tier(patch, k).Some? then Tier(patch, k) else Tier(base, k))
    ensures patch == Empty ==> r == base
    ensures base == Empty ==> r == patch
  {
    Prices(
      Override(base.oneHundred, patch.oneHundred),
      Override(base.oneFifty, patch.oneFifty),
      Override(base.twoHundred, patch.twoHundred))
  }

  /** The object literal written after the spread for tier `k`: it sets tier `k` and every tier above it. */
  function FromTier(k: nat, v: Reading): (r: Prices)
    requires k < 3
    ensures forall j :: 0 <= j < 3 ==> Tier(r, j) == (if k <= j then Some(v) else None)
  {
    Prices(
      if k <= 0 then Some(v) else None,
      if k <= 1 then Some(v) else None,
      Some(v))
  }

  /** One `if (selector.hasOwnProperty(key))` block of the object branch. */
  function ApplyTier(q: Query, price: Prices, k: nat, loc: Option<Locator>): (r: Result<Prices>)
    requires k < 3
    ensures loc.None? ==> r == Success(price)
    ensures loc.Some? ==> (r.Failure? <==> q(loc.value).Failure?)
    ensures loc.Some? && r.Failure? ==> r.error == q(loc.value).error
    ensures loc.Some? && r.Success? ==>
      forall j :: 0 <= j < 3 ==> Tier(r.value, j) == (if j < k then Tier(price, j) else Some(Read(q(loc.value).value)))
  {
    match loc
    case None => Success(price)
    case Some(l) =>
      var text :- q(l);
      Success(Spread(price, FromTier(k, Read(text))))
  }

  /** `extractPrices($, selector)`, where a thrown error becomes `Failure` with its message. */
  function Extract(q: Query, sel: Selector): (r: Result<Prices>)
    ensures r.Failure? ==> exists k :: 0 <= k < 3 && Configured(sel)[k].Some? && q(Configured(sel)[k].value) == Failure(r.error)
    ensures r.Success? ==> forall k :: 0 <= k < 2 ==> Tier(r.value, k).Some? ==> Tier(r.value, k + 1).Some?
    ensures r.Success? ==> (Tier(r.value, 2).Some? <==> exists k :: 0 <= k < 3 && Configured(sel)[k].Some?)
  {
    match sel
    case Tiered(h, f, w) =>
      assert Configured(sel)[0] == h && Configured(sel)[1] == f && Configured(sel)[2] == w;
      var p100 :- ApplyTier(q, Empty, 0, h);
      var p150 :- ApplyTier(q, p100, 1, f);
      ApplyTier(q, p150, 2, w)
    case Single(l) =>
      assert Configured(sel)[0] == Some(l);
      var text :- q(l);
      Success(Spread(Empty, FromTier(0, Read(text))))
  }

  // ---------------------------------------------------------------------------
  // The cascade, stated independently of the spreads.
  // ---------------------------------------------------------------------------

  /** The locators of tiers 100, 150 and 200, in that order; a single locator configures tier 100 only. */
  function Configured(sel: Selector): (ts: seq<Option<Locator>>)
    ensures |ts| == 3
  {
    match sel
    case Single(l) => [Some(l), None, None]
    case Tiered(h, f, w) => [h, f, w]
  }

  /** The last configured locator in `ts`: the tier a later, unconfigured tier inherits from. */
  function Governing(ts: seq<Option<Locator>>): Option<Locator>
    decreases |ts|
  {
    if |ts| == 0 then None
    else if ts[|ts| - 1].Some? then ts[|ts| - 1]
    else Governing(ts[..|ts| - 1])
  }

  /** The first configured locator whose lookup throws, if any, in the order the source reads them. */
  function FirstFailure(q: Query, ts: seq<Option<Locator>>): Option<string>
    decreases |ts|
  {
    if |ts| == 0 then None
    else if ts[0].Some? && q(ts[0].value).Failure? then Some(q(ts[0].value).error)
    else FirstFailure(q, ts[1..])
  }

  /** What tier `k` holds when every lookup succeeds: the reading of its governing locator, or unset. */
  function Expected(q: Query, ts: seq<Option<Locator>>, k: nat): Option<Reading>
    requires k < |ts|
  {
    match Governing(ts[..k + 1])
    case None => None
    case Some(l) => if q(l).Success? then Some(Read(q(l).value)) else None
  }

  /**
   Extraction fails exactly when some configured lookup throws, with the message
   of the first one; otherwise every tier holds the reading of the closest
   configured tier at or below it, and is unset when there is none.
   */
  lemma ExtractMatchesCascade(q: Query, sel: Selector)
    ensures Extract(q, sel).Failure? <==> FirstFailure(q, Configured(sel)).Some?
    ensures Extract(q, sel).Failure? ==> Extract(q, sel).error == FirstFailure(q, Configured(sel)).value
    ensures Extract(q, sel).Success? ==>
      forall k :: 0 <= k < 3 ==> Tier(Extract(q, sel).value, k) == Expected(q, Configured(sel), k)
  {
    var ts := Configured(sel);
    GoverningOfThree(ts);
    FirstFailureOfThree(q, ts);
  }

  lemma GoverningOfThree(ts: seq<Option<Locator>>)
    requires |ts| == 3
    ensures Governing(ts[..1]) == ts[0]
    ensures Governing(ts[..2]) == Override(ts[0], ts[1])
    ensures Governing(ts[..3]) == Override(Override(ts[0], ts[1]), ts[2])
  {
    assert ts[..1][..0] == [];
    assert ts[..2][..1] == ts[..1];
    assert ts[..3][..2] == ts[..2];
  }

  lemma FirstFailureOfThree(q: Query, ts: seq<Option<Locator>>)
    requires |ts| == 3
    ensures FirstFailure(q, ts) ==
      if ts[0].Some? && q(ts[0].value).Failure? then Some(q(ts[0].value).error)
      else if ts[1].Some? && q(ts[1].value).Failure? then Some(q(ts[1].value).error)
      else if ts[2].Some? && q(ts[2].value).Failure? then Some(q(ts[2].value).error)
      else None
  {
    var rest := ts[1..];
    assert rest[0] == ts[1] && rest[1..] == [ts[2]];
    assert [ts[2]][1..] == [];
    assert FirstFailure(q, [ts[2]]) ==
      if ts[2].Some? && q(ts[2].value).Failure? then Some(q(ts[2].value).error) else None;
  }

  /** A single locator sets all three tiers, each to the reading of that locator's text. */
  lemma SingleSetsAllTiers(q: Query, l: Locator)
    ensures Extract(q, Single(l)).Success? <==> q(l).Success?
    ensures q(l).Success? ==>
      var p := Extract(q, Single(l)).value;
      && p.oneHundred == Some(Read(q(l).value))
      && p.oneFifty == p.oneHundred
      && p.twoHundred == p.oneHundred
  {
  }

  /** The single-locator form behaves as an object with only the "100" key. */
  lemma SingleIsHundredOnly(q: Query, l: Locator)
    ensures Extract(q, Single(l)) == Extract(q, Tiered(Some(l), None, None))
  {
  }

  /** With only "100", all three tiers carry the "100" reading. */
  lemma HundredOnlyFillsAllTiers(q: Query, h: Locator)
    requires q(h).Success?
    ensures var p := Extract(q, Tiered(Some(h), None, None)).value;
      && p.oneHundred == Some(Read(q(h).value))
      && p.oneFifty == p.oneHundred
      && p.twoHundred == p.oneHundred
  {
  }

  /** "150" replaces the 150 and 200 tiers and leaves the 100 tier as "100" set it. */
  lemma FiftyOverridesUpperTiers(q: Query, h: Option<Locator>, f: Locator)
    requires h.Some? ==> q(h.value).Success?
    requires q(f).Success?
    ensures var p := Extract(q, Tiered(h, Some(f), None)).value;
      && p.oneHundred == (if h.Some? then Some(Read(q(h.value).value)) else None)
      && p.oneFifty == Some(Read(q(f).value))
      && p.twoHundred == p.oneFifty
  {
  }

  /** "200" replaces only the 200 tier. */
  lemma TwoHundredOverridesOnlyItself(q: Query, h: Option<Locator>, f: Option<Locator>, w: Locator)
    requires Extract(q, Tiered(h, f, None)).Success?
    requires q(w).Success?
    ensures var before := Extract(q, Tiered(h, f, None)).value;
      var after := Extract(q, Tiered(h, f, Some(w))).value;
      && after.oneHundred == before.oneHundred
      && after.oneFifty == before.oneFifty
      && after.twoHundred == Some(Read(q(w).value))
  {
  }

  /** An object with none of the three keys yields `{}`: no tier is set. */
  lemma NoKeysNoTiers(q: Query)
    ensures Extract(q, Tiered(None, None, None)) == Success(Empty)
  {
  }

  /** Every set tier is a token the price pattern matched, or the `null` of no match. */
  lemma TiersAreTokens(q: Query, sel: Selector, k: nat)
    requires k < 3 && Extract(q, sel).Success?
    requires Tier(Extract(q, sel).value, k).Some? && Tier(Extract(q, sel).value, k).value.Matched?
    ensures IsPriceToken(Tier(Extract(q, sel).value, k).value.token)
  {
    ExtractMatchesCascade(q, sel);
  }
}
