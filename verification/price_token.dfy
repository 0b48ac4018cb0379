/**
 The price pattern every tier lookup applies to the located text:

     \d{1,3}(?:[.,]\d{3})*(?:[.,]\d{2,3})

 `IsPriceToken` is the language of the pattern, written as a grammar.
 `MatchAt` follows the order in which a backtracking regex engine tries the
 alternatives (greedy `\d{1,3}`, greedy `*`, greedy `\d{2,3}`), and `FindPrice`
 scans start positions left to right as a non-global `String.prototype.match`
 does. The lemmas at the end connect the two: the match begins at the leftmost
 position where any token begins, and it is the longest token there.
 */
module PriceToken {
  import opened Wrappers
  import opened Chars

  /** `[.,]`: either thousands or decimal separator; the pattern does not tell them apart. */
  predicate IsSeparator(c: char) {
    c == '.' || c == ','
  }

  /** `[.,]\d{3}`: one thousands group. */
  predicate IsGroup(s: string) {
    |s| == 4 && IsSeparator(s[0]) && AllDigits(s[1..])
  }

  /** `[.,]\d{2,3}`: the mandatory final group. */
  predicate IsFraction(s: string) {
    (|s| == 3 || |s| == 4) && IsSeparator(s[0]) && AllDigits(s[1..])
  }

  /** `(?:[.,]\d{3})*(?:[.,]\d{2,3})`: any number of groups, then the final one. */
  predicate IsTail(s: string)
    decreases |s|
  {
    || IsFraction(s)
    || (|s| > 4 && IsGroup(s[..4]) && IsTail(s[4..]))
  }

  /** The first `lead` characters are the `\d{1,3}` part and the rest is the tail. */
  predicate IsLeadThenTail(s: string, lead: nat) {
    1 <= lead <= 3 && lead < |s| && AllDigits(s[..lead]) && IsTail(s[lead..])
  }

  /** `s` is, in its entirety, a string the price pattern matches. */
  predicate IsPriceToken(s: string)
    ensures IsPriceToken(s) ==> 4 <= |s| && IsDigit(s[0])
  {
    IsLeadThenTail(s, 1) || IsLeadThenTail(s, 2) || IsLeadThenTail(s, 3)
  }

  // ---------------------------------------------------------------------------
  // The matcher, on positions of the searched text.
  // ---------------------------------------------------------------------------

  predicate DigitsAt(t: string, lo: nat, hi: nat)
    requires lo <= hi <= |t|
  {
    forall k :: lo <= k < hi ==> IsDigit(t[k])
  }

  /** A separator followed by `width` digits starts at `p`. */
  predicate SeparatedAt(t: string, p: nat, width: nat) {
    p + 1 + width <= |t| && IsSeparator(t[p]) && DigitsAt(t, p + 1, p + 1 + width)
  }

  /** `[.,]\d{2,3}` at `p`; the quantifier is greedy, so three digits are tried first. */
  function MatchFraction(t: string, p: nat): (r: Option<nat>)
    requires p <= |t|
    ensures r.Some? ==> p < r.value <= |t| && IsFraction(t[p..r.value])
    ensures r.None? <==> !SeparatedAt(t, p, 2)
  {
    if SeparatedAt(t, p, 3) then Some(p + 4)
    else if SeparatedAt(t, p, 2) then Some(p + 3)
    else None
  }

  /**
   `(?:[.,]\d{3})*(?:[.,]\d{2,3})` at `p`, returning where the match ends. The
   star is greedy: one more group is tried first, and only when the rest of the
   pattern fails after it does the engine fall back to the final group here.
   */
  function MatchTail(t: string, p: nat): (r: Option<nat>)
    requires p <= |t|
    ensures r.Some? ==> p < r.value <= |t| && IsTail(t[p..r.value])
    decreases |t| - p
  {
    if SeparatedAt(t, p, 3) then
      match MatchTail(t, p + 4)
      case Some(e) =>
        GroupThenTail(t, p, e);
        Some(e)
      case None => MatchFraction(t, p)
    else
      MatchFraction(t, p)
  }

  /** A group at `p` followed by a tail up to `e` is a tail from `p`. */
  lemma GroupThenTail(t: string, p: nat, e: nat)
    requires SeparatedAt(t, p, 3) && p + 4 < e <= |t| && IsTail(t[p + 4..e])
    ensures IsTail(t[p..e])
  {
    var s := t[p..e];
    assert s[..4] == t[p..p + 4];
    assert s[4..] == t[p + 4..e];
    assert AllDigits(s[..4][1..]) by {
      assert forall k :: 1 <= k < 4 ==> s[..4][k] == t[p + k];
    }
  }

  /** `\d{lead}` at `i`, then the tail. */
  function MatchLead(t: string, i: nat, lead: nat): (r: Option<nat>)
    requires i <= |t| && 1 <= lead <= 3
    ensures r.Some? ==> i < r.value <= |t| && IsLeadThenTail(t[i..r.value], lead)
  {
    if i + lead <= |t| && DigitsAt(t, i, i + lead) then
      match MatchTail(t, i + lead)
      case Some(e) =>
        assert t[i..e][..lead] == t[i..i + lead];
        assert t[i..e][lead..] == t[i + lead..e];
        Some(e)
      case None => None
    else
      None
  }

  /** The whole pattern anchored at `i`: greedy `\d{1,3}` backtracks from three digits down to one. */
  function MatchAt(t: string, i: nat): (r: Option<nat>)
    requires i <= |t|
    ensures r.Some? ==> i < r.value <= |t| && IsPriceToken(t[i..r.value])
  {
    var three := MatchLead(t, i, 3);
    if three.Some? then three
    else
      var two := MatchLead(t, i, 2);
      if two.Some? then two
      else MatchLead(t, i, 1)
  }

  /** The first start position at or after `i` where the anchored match succeeds, and where it ends. */
  function Search(t: string, i: nat): (r: Option<(nat, nat)>)
    requires i <= |t|
    ensures r.Some? ==> i <= r.value.0 < r.value.1 <= |t| && IsPriceToken(t[r.value.0..r.value.1])
    decreases |t| - i
  {
    match MatchAt(t, i)
    case Some(e) => Some((i, e))
    case None => if i == |t| then None else Search(t, i + 1)
  }

  /** `text.match(pattern)`: the matched substring, or nothing (`null`). */
  function FindPrice(text: string): (r: Option<string>)
    ensures r.Some? ==> IsPriceToken(r.value)
  {
    match Search(text, 0)
    case Some((i, e)) => Some(text[i..e])
    case None => None
  }

  // ---------------------------------------------------------------------------
  // What the matcher finds, stated against the grammar.
  // ---------------------------------------------------------------------------

  /** No substring of `t` is a token. */
  ghost predicate NoToken(t: string) {
    forall i, j :: 0 <= i <= j <= |t| ==> !IsPriceToken(t[i..j])
  }

  /** `t[i..e]` is a token, no token starts before `i`, and none starting at `i` is longer. */
  ghost predicate LeftmostLongest(t: string, i: nat, e: nat) {
    && i <= e <= |t|
    && IsPriceToken(t[i..e])
    && (forall i', j :: 0 <= i' < i && i' <= j <= |t| ==> !IsPriceToken(t[i'..j]))
    && (forall j :: e < j <= |t| ==> !IsPriceToken(t[i..j]))
  }

  /** How many leading digits a token has. */
  function LeadOf(s: string): (lead: nat)
    requires IsPriceToken(s)
    ensures IsLeadThenTail(s, lead)
  {
    if IsLeadThenTail(s, 1) then 1 else if IsLeadThenTail(s, 2) then 2 else 3
  }

  /** A token is made only of digits and separators, begins and ends with a digit, and has a separator. */
  lemma TokenShape(s: string)
    requires IsPriceToken(s)
    ensures forall k :: 0 <= k < |s| ==> IsDigit(s[k]) || IsSeparator(s[k])
    ensures IsDigit(s[0]) && IsDigit(s[|s| - 1])
    ensures exists k :: 0 <= k < |s| && IsSeparator(s[k])
    ensures 4 <= |s|
  {
    var lead := LeadOf(s);
    TailShape(s[lead..]);
    forall k | 0 <= k < |s|
      ensures IsDigit(s[k]) || IsSeparator(s[k])
    {
      if k < lead {
        assert s[k] == s[..lead][k];
      } else {
        assert s[k] == s[lead..][k - lead];
      }
    }
    assert s[lead] == s[lead..][0];
    assert s[|s| - 1] == s[lead..][|s[lead..]| - 1];
    assert s[0] == s[..lead][0];
  }

  lemma {:induction false} TailShape(s: string)
    requires IsTail(s)
    ensures forall k :: 0 <= k < |s| ==> IsDigit(s[k]) || IsSeparator(s[k])
    ensures IsSeparator(s[0]) && IsDigit(s[|s| - 1])
    ensures 3 <= |s|
    decreases |s|
  {
    if IsFraction(s) {
      forall k | 1 <= k < |s|
        ensures IsDigit(s[k])
      {
        assert s[k] == s[1..][k - 1];
      }
    } else {
      TailShape(s[4..]);
      forall k | 0 <= k < |s|
        ensures IsDigit(s[k]) || IsSeparator(s[k])
      {
        if k < 4 {
          assert s[k] == s[..4][k];
          if 1 <= k {
            assert s[k] == s[..4][1..][k - 1];
          }
        } else {
          assert s[k] == s[4..][k - 4];
        }
      }
      assert s[0] == s[..4][0];
      assert s[|s| - 1] == s[4..][|s[4..]| - 1];
    }
  }

  /** A run of digits with no separator is never a token. */
  lemma DigitRunIsNoToken(s: string)
    requires AllDigits(s)
    ensures !IsPriceToken(s)
  {
    if IsPriceToken(s) {
      TokenShape(s);
    }
  }

  /** If the tail pattern matches `t[p..j]`, the greedy matcher succeeds at `p` and reaches at least `j`. */
  lemma {:induction false} MatchTailFindsLongest(t: string, p: nat, j: nat)
    requires p <= j <= |t| && IsTail(t[p..j])
    ensures MatchTail(t, p).Some? && j <= MatchTail(t, p).value
    decreases |t| - p
  {
    var s := t[p..j];
    if IsFraction(s) {
      forall k | p + 1 <= k < j
        ensures IsDigit(t[k])
      {
        assert t[k] == s[1..][k - p - 1];
      }
      assert IsSeparator(t[p]) by { assert t[p] == s[0]; }
      assert SeparatedAt(t, p, 2);
      if SeparatedAt(t, p, 3) {
        var m := MatchTail(t, p + 4);
        if m.Some? {
          assert p + 4 < m.value;
        }
      } else {
        assert |s| == 3;
      }
    } else {
      assert |s| > 4 && IsGroup(s[..4]) && IsTail(s[4..]);
      assert s[4..] == t[p + 4..j];
      forall k | p + 1 <= k < p + 4
        ensures IsDigit(t[k])
      {
        assert t[k] == s[..4][1..][k - p - 1];
      }
      assert IsSeparator(t[p]) by { assert t[p] == s[..4][0]; }
      assert SeparatedAt(t, p, 3);
      MatchTailFindsLongest(t, p + 4, j);
    }
  }

  /** A token at `t[i..j]` read on positions: its leading digits, then a separator that begins the tail. */
  lemma TokenAt(t: string, i: nat, j: nat)
    requires i <= j <= |t| && IsPriceToken(t[i..j])
    ensures var lead := LeadOf(t[i..j]);
      && i + lead < j && DigitsAt(t, i, i + lead) && IsSeparator(t[i + lead]) && IsTail(t[i + lead..j])
  {
    var s := t[i..j];
    var lead := LeadOf(s);
    assert s[lead..] == t[i + lead..j];
    TailShape(s[lead..]);
    assert t[i + lead] == s[lead..][0];
    forall k | i <= k < i + lead
      ensures IsDigit(t[k])
    {
      assert t[k] == s[..lead][k - i];
    }
  }

  /** A separator at `i + lead` rules out every longer run of leading digits. */
  lemma LongerLeadFails(t: string, i: nat, lead: nat, m: nat)
    requires i + lead < |t| && !IsDigit(t[i + lead]) && lead < m <= 3
    ensures MatchLead(t, i, m).None?
  {
    if i + m <= |t| {
      assert !DigitsAt(t, i, i + m);
    }
  }

  /** If a token occupies `t[i..j]`, the anchored matcher succeeds at `i` and reaches at least `j`. */
  lemma MatchAtFindsLongest(t: string, i: nat, j: nat)
    requires i <= j <= |t| && IsPriceToken(t[i..j])
    ensures MatchAt(t, i).Some? && j <= MatchAt(t, i).value
  {
    var lead := LeadOf(t[i..j]);
    TokenAt(t, i, j);
    MatchTailFindsLongest(t, i + lead, j);
    assert MatchLead(t, i, lead) == MatchTail(t, i + lead);
    if lead < 3 {
      LongerLeadFails(t, i, lead, 3);
    }
    if lead < 2 {
      LongerLeadFails(t, i, lead, 2);
    }
  }

  /** The anchored matcher fails exactly where no token starts. */
  lemma MatchAtNoneMeansNoToken(t: string, i: nat)
    requires i <= |t| && MatchAt(t, i).None?
    ensures forall j :: i <= j <= |t| ==> !IsPriceToken(t[i..j])
  {
    forall j | i <= j <= |t| && IsPriceToken(t[i..j])
      ensures false
    {
      MatchAtFindsLongest(t, i, j);
    }
  }

  /** Whatever the anchored matcher returns is the longest token starting there. */
  lemma MatchAtIsLongest(t: string, i: nat)
    requires i <= |t| && MatchAt(t, i).Some?
    ensures forall j :: MatchAt(t, i).value < j <= |t| ==> !IsPriceToken(t[i..j])
  {
    forall j | MatchAt(t, i).value < j <= |t| && IsPriceToken(t[i..j])
      ensures false
    {
      MatchAtFindsLongest(t, i, j);
    }
  }

  /** No token starts at a position in `lo..hi`. */
  ghost predicate NoTokenStarts(t: string, lo: nat, hi: nat) {
    forall i', j :: lo <= i' < hi && i' <= j <= |t| ==> !IsPriceToken(t[i'..j])
  }

  /** Ruling out tokens at `lo` extends a token-free range one position to the left. */
  lemma NoTokenStartsExtend(t: string, lo: nat, hi: nat)
    requires lo < hi && NoTokenStarts(t, lo + 1, hi)
    requires forall j :: lo <= j <= |t| ==> !IsPriceToken(t[lo..j])
    ensures NoTokenStarts(t, lo, hi)
  {
  }

  lemma {:induction false} SearchFindsLeftmostLongest(t: string, i: nat)
    requires i <= |t|
    ensures Search(t, i).None? ==> NoTokenStarts(t, i, |t| + 1)
    ensures Search(t, i).Some? ==> NoTokenStarts(t, i, Search(t, i).value.0)
    ensures Search(t, i).Some? ==>
      (forall j :: Search(t, i).value.1 < j <= |t| ==> !IsPriceToken(t[Search(t, i).value.0..j]))
    decreases |t| - i
  {
    if MatchAt(t, i).Some? {
      MatchAtIsLongest(t, i);
    } else {
      MatchAtNoneMeansNoToken(t, i);
      if i < |t| {
        SearchFindsLeftmostLongest(t, i + 1);
        var r := Search(t, i + 1);
        assert Search(t, i) == r;
        if r.Some? {
          NoTokenStartsExtend(t, i, r.value.0);
        } else {
          NoTokenStartsExtend(t, i, |t| + 1);
        }
      }
    }
  }

  /**
   The match is found exactly when some substring is a token, and then it is the
   leftmost-starting token, the longest one at that start.
   */
  lemma FindPriceIsLeftmostLongest(text: string)
    ensures FindPrice(text).None? <==> NoToken(text)
    ensures FindPrice(text).Some? ==>
      exists i: nat, e: nat :: LeftmostLongest(text, i, e) && FindPrice(text).value == text[i..e]
  {
    SearchFindsLeftmostLongest(text, 0);
    match Search(text, 0)
    case Some((i, e)) =>
      assert LeftmostLongest(text, i, e);
      assert !NoToken(text);
    case None =>
  }

  /** The left-to-right, longest-first choice leaves no room: one span satisfies it. */
  lemma LeftmostLongestIsUnique(t: string, i: nat, e: nat, i': nat, e': nat)
    requires LeftmostLongest(t, i, e) && LeftmostLongest(t, i', e')
    ensures i == i' && e == e'
  {
  }

  /** A span meeting the leftmost-longest description is exactly what the search returns. */
  lemma FindPriceOfLeftmostLongest(t: string, i: nat, e: nat)
    requires LeftmostLongest(t, i, e)
    ensures FindPrice(t) == Some(t[i..e])
  {
    FindPriceIsLeftmostLongest(t);
    var i': nat, e': nat :| LeftmostLongest(t, i', e') && FindPrice(t).value == t[i'..e'];
    LeftmostLongestIsUnique(t, i, e, i', e');
  }

  /** No token starts at a character other than a digit. */
  lemma NoTokenStartsAtNonDigit(t: string, i: nat)
    requires i < |t| && !IsDigit(t[i])
    ensures forall j :: i <= j <= |t| ==> !IsPriceToken(t[i..j])
  {
    forall j | i <= j <= |t| && IsPriceToken(t[i..j])
      ensures false
    {
      TokenShape(t[i..j]);
    }
  }

  /** No token starts among leading characters that are not digits. */
  lemma NoTokenInNonDigitPrefix(t: string, n: nat)
    requires n <= |t| && forall k :: 0 <= k < n ==> !IsDigit(t[k])
    ensures forall i, j :: 0 <= i < n && i <= j <= |t| ==> !IsPriceToken(t[i..j])
  {
    forall i, j | 0 <= i < n && i <= j <= |t| && IsPriceToken(t[i..j])
      ensures false
    {
      TokenShape(t[i..j]);
    }
  }

  /** No token reaches across a character that is neither a digit nor a separator. */
  lemma NoTokenCrossesStop(t: string, i: nat, e: nat)
    requires i <= e < |t| && !IsDigit(t[e]) && !IsSeparator(t[e])
    ensures forall j :: e < j <= |t| ==> !IsPriceToken(t[i..j])
  {
    forall j | e < j <= |t| && IsPriceToken(t[i..j])
      ensures false
    {
      TokenShape(t[i..j]);
    }
  }

  // ---------------------------------------------------------------------------
  // Worked examples.
  // ---------------------------------------------------------------------------

  /** A plain decimal price inside prose is found as written. */
  lemma FindsDecimalPrice()
    ensures FindPrice("Price: $123.45 per gallon") == Some("123.45")
  {
    var t := "Price: $123.45 per gallon";
    var s := "123.45";
    assert t[8..14] == s;
    NoTokenInNonDigitPrefix(t, 8);
    NoTokenCrossesStop(t, 8, 14);
    assert IsLeadThenTail(s, 3) by {
      assert s[..3] == "123";
      assert IsFraction(s[3..]) by { assert s[3..] == ".45" && ".45"[1..] == "45"; }
    }
    FindPriceOfLeftmostLongest(t, 8, 14);
  }

  /** Thousands groups are consumed before the final group. */
  lemma FindsGroupedPrice()
    ensures FindPrice("$1,299.99") == Some("1,299.99")
  {
    var t := "$1,299.99";
    var s := "1,299.99";
    assert t[1..9] == s;
    NoTokenStartsAtNonDigit(t, 0);
    assert IsTail(s[1..]) by {
      var tail := s[1..];
      assert tail == ",299.99";
      assert IsGroup(tail[..4]) by { assert tail[..4][1..] == "299"; }
      assert IsFraction(tail[4..]) by { assert tail[4..] == ".99" && ".99"[1..] == "99"; }
    }
    assert IsLeadThenTail(s, 1) by { assert s[..1] == "1"; }
    FindPriceOfLeftmostLongest(t, 1, 9);
  }

  /** Text without digits has no match. */
  lemma NoDigitsNoPrice()
    ensures FindPrice("Call for pricing") == None
  {
    var t := "Call for pricing";
    NoTokenInNonDigitPrefix(t, |t|);
    assert !IsPriceToken(t[|t|..|t|]);
    FindPriceIsLeftmostLongest(t);
  }

  /** Four digits before the separator cannot all be the lead, so the match starts one digit later. */
  lemma LongLeadIsCut()
    ensures FindPrice("1234.56") == Some("234.56")
  {
    var t := "1234.56";
    var s := "234.56";
    assert t[1..7] == s;
    forall j | 0 <= j <= |t| && IsPriceToken(t[0..j])
      ensures false
    {
      var lead := LeadOf(t[0..j]);
      TailShape(t[0..j][lead..]);
    }
    assert IsLeadThenTail(s, 3) by {
      assert s[..3] == "234";
      assert IsFraction(s[3..]) by { assert s[3..] == ".56" && ".56"[1..] == "56"; }
    }
    FindPriceOfLeftmostLongest(t, 1, 7);
  }
}
