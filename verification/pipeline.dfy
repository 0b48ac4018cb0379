/**
 The program run: every configured site is enqueued as a `scrapeTask` on a
 fresh `queue()`, each task fulfils after `scrape` has appended its site to
 `failed` or `success`, and when the queue goes idle `emailFailed` composes the
 report from the two lists. The report's date comes from a clock reading
 supplied as a parameter; the mail transport is not modelled.
 */
module Pipeline {
  import opened Wrappers
  import opened SiteProcessor
  import TaskQueue
  import DateFormat

  /** A reading of `new Date()`: full year, zero-based month, day of the month. */
  datatype Clock = Clock(year: int, month0: int, day: int)

  /** The template `context` of the report email. */
  datatype Report = Report(date: string, year: int, total: nat, successful: nat, hasFailed: bool, failed: seq<Site>)

  /** The queue, the shared outcome lists, the reports sent so far, and `sites.length`. */
  datatype Run = Run(queue: TaskQueue.Queue<Site>, ledger: Ledger, reports: seq<Report>, total: nat)

  /** The configured part of each site, in order. */
  function Descs(s: seq<Site>): (d: seq<Descriptor>)
    ensures |d| == |s| && forall k :: 0 <= k < |s| ==> d[k] == s[k].desc
  {
    seq(|s|, k requires 0 <= k < |s| => s[k].desc)
  }

  /** The configured parts of a list of sites, counted with multiplicity. */
  function DescBag(s: seq<Site>): multiset<Descriptor> {
    multiset(Descs(s))
  }

  lemma DescBagConcat(a: seq<Site>, b: seq<Site>)
    ensures DescBag(a + b) == DescBag(a) + DescBag(b)
  {
    assert Descs(a + b) == Descs(a) + Descs(b);
  }

  lemma DescBagSnoc(a: seq<Site>, x: Site)
    ensures DescBag(a + [x]) == DescBag(a) + multiset{x.desc}
  {
    DescBagConcat(a, [x]);
    assert Descs([x]) == [x.desc];
  }

  lemma DescBagWithout(s: seq<Site>, i: nat)
    requires i < |s|
    ensures DescBag(s) == DescBag(TaskQueue.Without(s, i)) + multiset{s[i].desc}
  {
    var d := Descs(s);
    assert Descs(TaskQueue.Without(s, i)) == d[..i] + d[i + 1..];
    assert d == d[..i] + [d[i]] + d[i + 1..];
  }

  /** The email context `emailFailed(failed)` builds from the outcome lists. */
  function Compose(ledger: Ledger, total: nat, now: Clock): (report: Report)
    ensures report.total == total
    ensures report.successful == |ledger.success| && report.failed == ledger.failed
    ensures report.hasFailed <==> |ledger.failed| > 0
    ensures report.date == DateFormat.FormattedDate(now.year, now.month0, now.day) && report.year == now.year
  {
    Report(
      DateFormat.FormattedDate(now.year, now.month0, now.day), now.year,
      total, |ledger.success|, |ledger.failed| > 0, ledger.failed)
  }

  /** Load the site list and enqueue every site, before any task fulfils. */
  function Launch(sites: seq<Site>, concurrency: nat): (r: Run)
    ensures TaskQueue.Valid(r.queue) && r.queue.enqueued == sites && TaskQueue.Outstanding(r.queue) == |sites|
    ensures r.queue.finished == [] && r.queue.fired == 0 && r.queue.concurrency == concurrency
    ensures r.ledger == NoOutcomes && r.reports == [] && r.total == |sites|
  {
    Run(TaskQueue.EnqueueAll(TaskQueue.Create(concurrency), sites), NoOutcomes, [], |sites|)
  }

  /**
   The `i`-th task in flight fulfils: `scrape`, ending with the persist step
   `mode` selects, has recorded its site, and the worker loop resumes, sending
   the report if the queue has just gone idle.
   */
  function Complete(r: Run, i: nat, mode: WriteMode, env: Services, now: Clock): (r': Run)
    requires i < |r.queue.inFlight|
    ensures r'.total == r.total
    ensures r'.queue == TaskQueue.Finish(r.queue, i)
    ensures AppendedOnce(r.ledger, r'.ledger, Scrape(mode, r.queue.inFlight[i], env, r.ledger).0)
    ensures r'.queue.fired > r.queue.fired ==> r'.reports == r.reports + [Compose(r'.ledger, r.total, now)]
    ensures r'.queue.fired <= r.queue.fired ==> r'.reports == r.reports
  {
    var (_, ledger) := Scrape(mode, r.queue.inFlight[i], env, r.ledger);
    var q := TaskQueue.Finish(r.queue, i);
    var reports := if q.fired > r.queue.fired then r.reports + [Compose(ledger, r.total, now)] else r.reports;
    Run(q, ledger, reports, r.total)
  }

  /** Tasks fulfil in the order `schedule` picks until none is in flight or the schedule runs out. */
  function Drain(r: Run, schedule: seq<nat>, mode: WriteMode, env: Services, now: Clock): (r': Run)
    ensures r'.total == r.total && r'.queue.enqueued == r.queue.enqueued
    ensures |r.reports| <= |r'.reports| && r'.reports[..|r.reports|] == r.reports
    ensures |r'.queue.finished| - |r.queue.finished| == Recorded(r'.ledger) - Recorded(r.ledger)
    decreases |schedule|
  {
    if |schedule| == 0 || |r.queue.inFlight| == 0 then r
    else
      var next := Complete(r, schedule[0] % |r.queue.inFlight|, mode, env, now);
      var r' := Drain(next, schedule[1..], mode, env, now);
      assert r'.reports[..|r.reports|] == r'.reports[..|next.reports|][..|r.reports|];
      r'
  }

  /** How many sites the outcome lists hold. */
  function Recorded(ledger: Ledger): nat {
    |ledger.failed| + |ledger.success|
  }

  /**
   Every reachable run: the queue invariant holds, every enqueued site is
   pending, in flight or recorded in exactly one list, and one report was sent
   per time the queue went idle.
   */
  ghost predicate Valid(r: Run) {
    && TaskQueue.Valid(r.queue)
    && DescBag(r.queue.enqueued)
       == (DescBag(r.queue.pending) + DescBag(r.queue.inFlight)) + (DescBag(r.ledger.failed) + DescBag(r.ledger.success))
    && |r.queue.enqueued| == |r.queue.pending| + |r.queue.inFlight| + |r.ledger.failed| + |r.ledger.success|
    && |r.reports| == r.queue.fired
  }

  lemma LaunchValid(sites: seq<Site>, concurrency: nat)
    requires concurrency >= 1 && |sites| >= 1
    ensures var r := Launch(sites, concurrency);
      && Valid(r) && r.reports == [] && r.queue.enqueued == sites
      && |r.queue.inFlight| > 0 && TaskQueue.Outstanding(r.queue) == |sites|
  {
    var q := TaskQueue.EnqueueAll(TaskQueue.Create<Site>(concurrency), sites);
    TaskQueue.LaunchedQueue(concurrency, sites);
    DescBagConcat(q.started, q.pending);
  }

  /** A fulfilled task leaves the queue: pending and in-flight lose exactly its descriptor. */
  lemma FinishBag(q: TaskQueue.Queue<Site>, i: nat)
    requires i < |q.inFlight|
    ensures var q' := TaskQueue.Finish(q, i);
      DescBag(q'.pending) + DescBag(q'.inFlight) + multiset{q.inFlight[i].desc}
      == DescBag(q.pending) + DescBag(q.inFlight)
  {
    var rest := TaskQueue.Without(q.inFlight, i);
    DescBagWithout(q.inFlight, i);
    if |q.pending| > 0 {
      var next := q.pending[0];
      DescBagSnoc(rest, next);
      assert q.pending == [next] + q.pending[1..];
      DescBagConcat([next], q.pending[1..]);
      DescBagSnoc([], next);
      assert [] + [next] == [next];
    }
  }

  /** A site appended to one list adds its descriptor to the lists' bag. */
  lemma AppendBag(ledger: Ledger, ledger': Ledger, site: Site)
    requires AppendedOnce(ledger, ledger', site)
    ensures DescBag(ledger'.failed) + DescBag(ledger'.success)
      == DescBag(ledger.failed) + DescBag(ledger.success) + multiset{site.desc}
    ensures |ledger'.failed| + |ledger'.success| == |ledger.failed| + |ledger.success| + 1
  {
    if ledger'.failed == ledger.failed + [site] && ledger'.success == ledger.success {
      DescBagSnoc(ledger.failed, site);
    } else {
      DescBagSnoc(ledger.success, site);
    }
  }

  /** One element moving from the queue's part of a bag to the lists' part leaves the whole unchanged. */
  lemma MoveOne(whole: multiset<Descriptor>, queued: multiset<Descriptor>, listed: multiset<Descriptor>,
                queued': multiset<Descriptor>, listed': multiset<Descriptor>, d: Descriptor)
    requires whole == queued + listed
    requires queued' + multiset{d} == queued && listed' == listed + multiset{d}
    ensures whole == queued' + listed'
  {
  }

  /** Letting one task fulfil keeps the run valid. */
  lemma CompleteValid(r: Run, i: nat, mode: WriteMode, env: Services, now: Clock)
    requires Valid(r) && i < |r.queue.inFlight|
    ensures Valid(Complete(r, i, mode, env, now))
  {
    StepValid(r, Complete(r, i, mode, env, now), i, Scrape(mode, r.queue.inFlight[i], env, r.ledger).0);
  }

  /**
   Any step in which the `i`-th task fulfils, a site with the same configuration
   is appended to exactly one list, and a report is sent exactly when the queue
   goes idle keeps the run valid: the finished site moves from the queue to one
   list, so nothing is lost or counted twice.
   */
  lemma StepValid(r: Run, r': Run, i: nat, site: Site)
    requires Valid(r) && i < |r.queue.inFlight|
    requires r'.queue == TaskQueue.Finish(r.queue, i)
    requires AppendedOnce(r.ledger, r'.ledger, site) && site.desc == r.queue.inFlight[i].desc
    requires r'.queue.fired > r.queue.fired ==> |r'.reports| == |r.reports| + 1
    requires r'.queue.fired <= r.queue.fired ==> r'.reports == r.reports
    ensures Valid(r')
  {
    TaskQueue.FinishKeepsValid(r.queue, i);
    FinishBag(r.queue, i);
    AppendBag(r.ledger, r'.ledger, site);
    MoveOne(DescBag(r.queue.enqueued),
      DescBag(r.queue.pending) + DescBag(r.queue.inFlight), DescBag(r.ledger.failed) + DescBag(r.ledger.success),
      DescBag(r'.queue.pending) + DescBag(r'.queue.inFlight), DescBag(r'.ledger.failed) + DescBag(r'.ledger.success),
      site.desc);
  }

  /**
   Once every site is enqueued, letting every task fulfil sends exactly one
   more report, composed from the final outcome lists.
   */
  lemma {:induction false} DrainReportsOnce(r: Run, schedule: seq<nat>, mode: WriteMode, env: Services, now: Clock)
    requires Valid(r) && |r.queue.inFlight| > 0 && |schedule| >= TaskQueue.Outstanding(r.queue)
    ensures Valid(Drain(r, schedule, mode, env, now))
    ensures TaskQueue.Outstanding(Drain(r, schedule, mode, env, now).queue) == 0
    ensures Drain(r, schedule, mode, env, now).queue.enqueued == r.queue.enqueued
    ensures Drain(r, schedule, mode, env, now).total == r.total
    ensures Drain(r, schedule, mode, env, now).reports ==
      r.reports + [Compose(Drain(r, schedule, mode, env, now).ledger, r.total, now)]
    decreases |schedule|
  {
    var i := schedule[0] % |r.queue.inFlight|;
    var r' := Complete(r, i, mode, env, now);
    CompleteValid(r, i, mode, env, now);
    TaskQueue.FinishKeepsValid(r.queue, i);
    assert Drain(r, schedule, mode, env, now) == Drain(r', schedule[1..], mode, env, now);
    if TaskQueue.Outstanding(r.queue) > 1 {
      assert r'.reports == r.reports;
      assert |r'.queue.inFlight| > 0 by {
        if |r.queue.pending| == 0 {
          assert |r'.queue.inFlight| == |r.queue.inFlight| - 1;
        }
      }
      DrainReportsOnce(r', schedule[1..], mode, env, now);
    } else {
      assert |r'.queue.inFlight| == 0;
      assert r'.reports == r.reports + [Compose(r'.ledger, r.total, now)];
    }
  }

  /**
   The whole program on a non-empty site list: one report is sent; it counts
   every configured site; every site ends in exactly one of the two lists,
   once; and the report's successes and failures are those lists.
   */
  lemma RunReportsOnce(sites: seq<Site>, concurrency: nat, schedule: seq<nat>, mode: WriteMode, env: Services, now: Clock)
    requires concurrency >= 1 && |sites| >= 1 && |schedule| >= |sites|
    ensures var r := Drain(Launch(sites, concurrency), schedule, mode, env, now);
      && |r.reports| == 1
      && r.reports[0] == Compose(r.ledger, |sites|, now)
      && r.reports[0].total == |sites|
      && r.reports[0].failed == r.ledger.failed && r.reports[0].successful == |r.ledger.success|
      && r.reports[0].successful + |r.reports[0].failed| == |sites|
      && (r.reports[0].hasFailed <==> |r.ledger.failed| > 0)
      && |r.ledger.failed| + |r.ledger.success| == |sites|
      && DescBag(r.ledger.failed) + DescBag(r.ledger.success) == DescBag(sites)
  {
    var r0 := Launch(sites, concurrency);
    LaunchValid(sites, concurrency);
    DrainReportsOnce(r0, schedule, mode, env, now);
    var r := Drain(r0, schedule, mode, env, now);
    assert r.queue.pending == [] && r.queue.inFlight == [];
  }

  /** With an empty site list nothing runs and no report is sent. */
  lemma EmptySiteListSendsNothing(concurrency: nat, schedule: seq<nat>, mode: WriteMode, env: Services, now: Clock)
    ensures Drain(Launch([], concurrency), schedule, mode, env, now).reports == []
  {
  }
}
