/**
 `scrape(site)` and `updateDatabase(site)`: one site goes through fetch, parse,
 extract and persist, and is appended to exactly one of the two shared outcome
 lists. The HTTP client, the markup parser and the document store are
 parameters (`Services`); only what they return or throw matters here.
 */
module SiteProcessor {
  import opened Wrappers
  import opened Extractor

  /** The configured part of a site: where to fetch, which document to write, how to find the price. */
  datatype Descriptor = Descriptor(url: string, documentId: string, selector: Selector)

  /** A site object: its configuration plus the `error` and `price` keys the processor sets. */
  datatype Site = Site(desc: Descriptor, error: Option<string>, price: Option<Prices>)

  /** The `failed` and `success` arrays, in the order sites were appended. */
  datatype Ledger = Ledger(failed: seq<Site>, success: seq<Site>)

  /** What calling the document write does: throw at once, or return a promise that later settles. */
  datatype Write = Throws(message: string) | Settles(outcome: Outcome)

  /**
   The collaborators: the page fetch (`getHtmlAxios`), the markup loader
   (`cheerio.load`, yielding the `$` query) and the document write (`update`).
   A `Failure` carries the thrown error's `message`.
   */
  datatype Services = Services(
    fetch: string -> Result<string>,
    load: string -> Result<Query>,
    write: Site -> Write)

  const NoOutcomes := Ledger([], [])

  /**
   Which persist step `scrape` ends with: `updateDatabase` as the source has
   it, or with its write awaited (see `UpdateDatabase`).
   */
  datatype WriteMode = AsWritten | Awaited

  /** `ledger'` is `ledger` with `site` appended to exactly one of its lists. */
  predicate AppendedOnce(ledger: Ledger, ledger': Ledger, site: Site) {
    || (ledger'.failed == ledger.failed + [site] && ledger'.success == ledger.success)
    || (ledger'.success == ledger.success + [site] && ledger'.failed == ledger.failed)
  }

  /** Records a failure: the site carries the error's message and goes to the end of `failed`. */
  function Reject(site: Site, message: string, ledger: Ledger): (r: (Site, Ledger))
    ensures r.0 == site.(error := Some(message))
    ensures r.1 == ledger.(failed := ledger.failed + [r.0])
    ensures AppendedOnce(ledger, r.1, r.0) && r.1.success == ledger.success
    ensures r.0.desc == site.desc && r.0.price == site.price && r.0.error == Some(message)
  {
    var s := site.(error := Some(message));
    (s, ledger.(failed := ledger.failed + [s]))
  }

  /**
   `updateDatabase` as the source has it: the write is not awaited, so only a
   synchronous throw reaches the `catch`, and a write whose promise later
   rejects has already been counted a success.
   */
  function UpdateDatabaseAsWritten(site: Site, env: Services, ledger: Ledger): (r: (Site, Ledger))
    ensures AppendedOnce(ledger, r.1, r.0) && r.0.desc == site.desc && r.0.price == site.price
    ensures r.1.success == ledger.success + [site] <==> env.write(site).Settles?
  {
    match env.write(site)
    case Throws(m) => Reject(site, m, ledger)
    case Settles(_) => (site, ledger.(success := ledger.success + [site]))
  }

  /**
   `updateDatabase` with the write awaited, as the surrounding `try`/`catch`
   evidently intends: a rejected write lands in `failed` with its message.
   */
  function UpdateDatabase(site: Site, env: Services, ledger: Ledger): (r: (Site, Ledger))
    ensures AppendedOnce(ledger, r.1, r.0) && r.0.desc == site.desc && r.0.price == site.price
    ensures r.1.success == ledger.success + [site] <==> env.write(site) == Settles(Pass)
    ensures r.1.failed == ledger.failed + [r.0] ==> r.0.error.Some?
  {
    match env.write(site)
    case Throws(m) => Reject(site, m, ledger)
    case Settles(Fail(m)) => Reject(site, m, ledger)
    case Settles(Pass) => (site, ledger.(success := ledger.success + [site]))
  }

  /** A write that throws at once is caught by both versions. */
  lemma ThrowingWriteFails(site: Site, env: Services, ledger: Ledger)
    requires env.write(site).Throws?
    ensures UpdateDatabaseAsWritten(site, env, ledger) == UpdateDatabase(site, env, ledger)
    ensures UpdateDatabase(site, env, ledger).0.error == Some(env.write(site).message)
  {
  }

  /** As written, a write that later rejects is still recorded as a success, with no error. */
  lemma RejectedWriteCountsAsSuccess(site: Site, env: Services, ledger: Ledger, m: string)
    requires env.write(site) == Settles(Fail(m))
    ensures UpdateDatabaseAsWritten(site, env, ledger) == (site, ledger.(success := ledger.success + [site]))
  {
  }

  /** Awaited, the same rejected write is recorded as a failure carrying its message. */
  lemma RejectedWriteFailsWhenAwaited(site: Site, env: Services, ledger: Ledger, m: string)
    requires env.write(site) == Settles(Fail(m))
    ensures UpdateDatabase(site, env, ledger).1.failed == ledger.failed + [site.(error := Some(m))]
    ensures UpdateDatabase(site, env, ledger).1.success == ledger.success
  {
  }

  /** The stages before the write: fetch the page, load it, extract the prices. */
  function Prepare(site: Site, env: Services): (r: Result<Prices>)
    ensures env.fetch(site.desc.url).Failure? ==> r == Failure(env.fetch(site.desc.url).error)
    ensures env.fetch(site.desc.url).Success? && env.load(env.fetch(site.desc.url).value).Failure? ==>
      r == Failure(env.load(env.fetch(site.desc.url).value).error)
    ensures env.fetch(site.desc.url).Success? && env.load(env.fetch(site.desc.url).value).Success? ==>
      r == Extract(env.load(env.fetch(site.desc.url).value).value, site.desc.selector)
  {
    var html :- env.fetch(site.desc.url);
    var q :- env.load(html);
    Extract(q, site.desc.selector)
  }

  /** The persist step `mode` selects. */
  function Persist(mode: WriteMode, site: Site, env: Services, ledger: Ledger): (r: (Site, Ledger))
    ensures AppendedOnce(ledger, r.1, r.0) && r.0.desc == site.desc && r.0.price == site.price
    ensures r.1.success == ledger.success + [site] ==> r.0 == site
    ensures r.1.failed == ledger.failed + [r.0] ==> r.0.error.Some?
  {
    match mode
    case AsWritten => UpdateDatabaseAsWritten(site, env, ledger)
    case Awaited => UpdateDatabase(site, env, ledger)
  }

  /**
   `scrape(site)`: every call appends the site, updated, to exactly one list;
   a success carries the extracted price and no new error, a failure carries
   the message of the stage that failed.
   */
  function Scrape(mode: WriteMode, site: Site, env: Services, ledger: Ledger): (r: (Site, Ledger))
    ensures AppendedOnce(ledger, r.1, r.0)
    ensures r.0.desc == site.desc
    ensures r.1.success == ledger.success + [r.0] ==> r.0.price.Some? && r.0.error == site.error
    ensures r.1.failed == ledger.failed + [r.0] ==> r.0.error.Some?
  {
    match Prepare(site, env)
    case Failure(m) => Reject(site, m, ledger)
    case Success(prices) => Persist(mode, site.(price := Some(prices)), env, ledger)
  }

  /**
   A failure to fetch, parse or extract records the message, keeps the old
   price, and never reaches the write: any other write collaborator, and either
   write mode, gives the same result.
   */
  lemma EarlyFailureSkipsWrite(mode: WriteMode, site: Site, env: Services, ledger: Ledger,
                               write: Site -> Write, mode': WriteMode)
    requires Prepare(site, env).Failure?
    ensures Scrape(mode, site, env, ledger).0 == site.(error := Some(Prepare(site, env).error))
    ensures Scrape(mode, site, env, ledger).1 == ledger.(failed := ledger.failed + [Scrape(mode, site, env, ledger).0])
    ensures Scrape(mode', site, env.(write := write), ledger) == Scrape(mode, site, env, ledger)
  {
    assert Prepare(site, env.(write := write)) == Prepare(site, env);
  }

  /** Each stage's failure is the one recorded: fetch, then load, then extraction. */
  lemma FailingStageIsRecorded(mode: WriteMode, site: Site, env: Services, ledger: Ledger)
    ensures var fetched := env.fetch(site.desc.url);
      var error := Scrape(mode, site, env, ledger).0.error;
      && (fetched.Failure? ==> error == Some(fetched.error))
      && (fetched.Success? && env.load(fetched.value).Failure? ==> error == Some(env.load(fetched.value).error))
      && (fetched.Success? && env.load(fetched.value).Success?
          && Extract(env.load(fetched.value).value, site.desc.selector).Failure? ==>
          error == Some(Extract(env.load(fetched.value).value, site.desc.selector).error))
  {
  }

  /**
   When extraction succeeds, the price is set on the site before the write
   sees it. As written, the site then ends in `success` exactly when the write
   call does not throw at once; awaited, exactly when the write succeeds.
   */
  lemma PriceSetBeforePersist(mode: WriteMode, site: Site, env: Services, ledger: Ledger)
    requires Prepare(site, env).Success?
    ensures var written := site.(price := Some(Prepare(site, env).value));
      && Scrape(mode, site, env, ledger) == Persist(mode, written, env, ledger)
      && Scrape(mode, site, env, ledger).0.price == Some(Prepare(site, env).value)
      && (mode == AsWritten ==>
          (Scrape(mode, site, env, ledger).1.success == ledger.success + [written] <==> env.write(written).Settles?))
      && (mode == Awaited ==>
          (Scrape(mode, site, env, ledger).1.success == ledger.success + [written] <==> env.write(written) == Settles(Pass)))
  {
  }
}
