/**
 The `queue(concurrency)` closure as a transition system under JavaScript's
 cooperative scheduling. Between two `await`s a worker loop runs without
 interruption, so each transition below is atomic:

 - `Enqueue(t)`: `enqueue` pushes the new task and, when fewer than `concurrency`
   loops are running, becomes a worker loop itself: it counts itself in
   `running`, shifts the oldest task and starts it, reaching its first `await`.
 - `Finish(i)`: the `i`-th task being awaited fulfils; its worker shifts and
   starts the next pending task, or, finding none, leaves the loop, decrements
   `running` and runs the completion action when nothing is left at all.

 The history fields `enqueued`, `started` and `finished` record the order of
 events; they are observations, not part of the source's state.
 */
module TaskQueue {

  datatype Queue<T> = Queue(
    concurrency: nat,
    pending: seq<T>,   // `tasks`
    inFlight: seq<T>,  // tasks some worker loop is awaiting
    running: int,      // `running`
    enqueued: seq<T>,
    started: seq<T>,
    finished: seq<T>,
    fired: nat)        // how many times `emailFailed` has been called

  /** `queue(concurrency)`: a fresh queue satisfies the invariant, holds no task and has not fired. */
  function Create<T>(concurrency: nat): (r: Queue<T>)
    ensures Valid(r) && Outstanding(r) == 0 && r.enqueued == [] && r.finished == [] && r.fired == 0
    ensures r.concurrency == concurrency
  {
    Queue(concurrency, [], [], 0, [], [], [], 0)
  }

  /**
   The invariant of every reachable state: at most `concurrency` workers, each
   awaiting exactly one task; tasks wait only while every worker is busy; tasks
   leave `pending` in the order they were enqueued; every started task is in
   flight or finished.
   */
  ghost predicate Valid<T>(q: Queue<T>) {
    && 0 <= q.running <= q.concurrency
    && q.running == |q.inFlight|
    && (|q.pending| > 0 ==> q.running == q.concurrency)
    && q.enqueued == q.started + q.pending
    && multiset(q.started) == multiset(q.finished) + multiset(q.inFlight)
  }

  /** Work not yet done: pending tasks plus tasks in flight. */
  function Outstanding<T>(q: Queue<T>): nat {
    |q.pending| + |q.inFlight|
  }

  /** `enqueue(task)` up to its first `await`. */
  function Enqueue<T>(q: Queue<T>, t: T): (r: Queue<T>)
    ensures Valid(q) ==> Valid(r)
    ensures r.enqueued == q.enqueued + [t] && Outstanding(r) == Outstanding(q) + 1
    ensures r.finished == q.finished && r.fired == q.fired && r.concurrency == q.concurrency
    ensures Valid(q) && q.running < q.concurrency ==>
      r.started == q.started + [t] && r.inFlight == q.inFlight + [t] && r.pending == []
    ensures q.running >= q.concurrency ==> r.started == q.started && r.pending == q.pending + [t]
  {
    var tasks := q.pending + [t];
    if q.running >= q.concurrency then
      q.(pending := tasks, enqueued := q.enqueued + [t])
    else
      q.(pending := tasks[1..], inFlight := q.inFlight + [tasks[0]], running := q.running + 1,
         started := q.started + [tasks[0]], enqueued := q.enqueued + [t])
  }

  /** `inFlight` without its `i`-th element. */
  function Without<T>(s: seq<T>, i: nat): (r: seq<T>)
    requires i < |s|
    ensures |r| == |s| - 1
    ensures multiset(s) == multiset(r) + multiset{s[i]}
  {
    assert s == s[..i] + [s[i]] + s[i + 1..];
    s[..i] + s[i + 1..]
  }

  /** The awaited task `inFlight[i]` fulfils and its worker loop resumes (tasks here never reject). */
  function Finish<T>(q: Queue<T>, i: nat): (r: Queue<T>)
    requires i < |q.inFlight|
    ensures r.enqueued == q.enqueued && r.concurrency == q.concurrency
    ensures r.finished == q.finished + [q.inFlight[i]]
    ensures |q.pending| > 0 ==>
      r.pending == q.pending[1..] && r.inFlight == Without(q.inFlight, i) + [q.pending[0]]
      && r.started == q.started + [q.pending[0]]
    ensures |q.pending| == 0 ==> r.pending == [] && r.inFlight == Without(q.inFlight, i) && r.started == q.started
  {
    var rest := Without(q.inFlight, i);
    var resumed := q.(inFlight := rest, finished := q.finished + [q.inFlight[i]]);
    if |resumed.pending| > 0 then
      var next := resumed.pending[0];
      resumed.(pending := resumed.pending[1..], inFlight := rest + [next], started := resumed.started + [next])
    else
      var left := resumed.(running := resumed.running - 1);
      if |left.pending| == 0 && left.running == 0 then left.(fired := left.fired + 1) else left
  }

  /**
   A fulfilment keeps the invariant, removes one unit of outstanding work, and
   runs the completion action exactly when that was the last unit.
   */
  lemma FinishKeepsValid<T>(q: Queue<T>, i: nat)
    requires Valid(q) && i < |q.inFlight|
    ensures Valid(Finish(q, i))
    ensures Outstanding(Finish(q, i)) == Outstanding(q) - 1
    ensures Finish(q, i).fired == q.fired + 1 <==> Outstanding(q) == 1
    ensures Finish(q, i).fired == q.fired <==> Outstanding(q) > 1
  {
    if |q.pending| > 0 {
      FinishStartsNext(q, i);
    } else {
      FinishLeaves(q, i);
    }
  }

  /** With a task waiting, the worker starts it: nothing fires and the worker count stays. */
  lemma FinishStartsNext<T>(q: Queue<T>, i: nat)
    requires Valid(q) && i < |q.inFlight| && |q.pending| > 0
    ensures Valid(Finish(q, i)) && Finish(q, i).fired == q.fired && Outstanding(q) > 1
    ensures Outstanding(Finish(q, i)) == Outstanding(q) - 1
  {
    var r := Finish(q, i);
    var next := q.pending[0];
    var rest := Without(q.inFlight, i);
    assert r.started + r.pending == q.started + q.pending by {
      assert q.pending == [next] + q.pending[1..];
    }
    assert multiset(r.started) == multiset(r.finished) + multiset(r.inFlight) by {
      assert multiset(q.inFlight) == multiset(rest) + multiset{q.inFlight[i]};
      assert multiset(r.started) == multiset(q.started) + multiset{next};
      assert multiset(r.finished) == multiset(q.finished) + multiset{q.inFlight[i]};
      assert multiset(r.inFlight) == multiset(rest) + multiset{next};
    }
    assert r.running == q.running && |r.inFlight| == |q.inFlight|;
  }

  /** With nothing waiting, the worker leaves; the action fires exactly when it was the last one. */
  lemma FinishLeaves<T>(q: Queue<T>, i: nat)
    requires Valid(q) && i < |q.inFlight| && |q.pending| == 0
    ensures Valid(Finish(q, i))
    ensures Outstanding(Finish(q, i)) == Outstanding(q) - 1
    ensures Finish(q, i).fired == q.fired + 1 <==> Outstanding(q) == 1
    ensures Finish(q, i).fired == q.fired <==> Outstanding(q) > 1
  {
    var r := Finish(q, i);
    assert multiset(r.started) == multiset(r.finished) + multiset(r.inFlight) by {
      assert multiset(q.inFlight) == multiset(Without(q.inFlight, i)) + multiset{q.inFlight[i]};
      assert multiset(r.finished) == multiset(q.finished) + multiset{q.inFlight[i]};
    }
    assert r.running == q.running - 1 && |r.inFlight| == |q.inFlight| - 1;
  }

  /** Enqueues every task of `ts`, in order, before any of them fulfils: the program's start-up loop. */
  function EnqueueAll<T>(q: Queue<T>, ts: seq<T>): (r: Queue<T>)
    ensures Valid(q) ==> Valid(r)
    ensures r.enqueued == q.enqueued + ts && Outstanding(r) == Outstanding(q) + |ts|
    ensures r.finished == q.finished && r.fired == q.fired && r.concurrency == q.concurrency
    decreases |ts|
  {
    if |ts| == 0 then q else EnqueueAll(Enqueue(q, ts[0]), ts[1..])
  }

  /**
   Tasks fulfil in the order `schedule` picks (each entry chooses among the
   tasks in flight) until none is in flight or the schedule runs out.
   */
  function Drain<T>(q: Queue<T>, schedule: seq<nat>): (r: Queue<T>)
    ensures r.enqueued == q.enqueued && r.concurrency == q.concurrency
    ensures |q.finished| <= |r.finished| <= |q.finished| + |schedule| && r.finished[..|q.finished|] == q.finished
    ensures |r.finished| < |q.finished| + |schedule| ==> |r.inFlight| == 0
    decreases |schedule|
  {
    if |schedule| == 0 || |q.inFlight| == 0 then q
    else
      var q' := Finish(q, schedule[0] % |q.inFlight|);
      var r := Drain(q', schedule[1..]);
      assert r.finished[..|q.finished|] == r.finished[..|q'.finished|][..|q.finished|];
      r
  }

  // ---------------------------------------------------------------------------
  // Properties of runs.
  // ---------------------------------------------------------------------------

  function Min(a: nat, b: nat): nat {
    if a <= b then a else b
  }

  /**
   Enqueuing `ts` into a fresh queue starts the first `concurrency` tasks at
   once and leaves the rest pending in order; nothing has completed.
   */
  lemma {:induction false} EnqueueAllFromEmpty<T>(q: Queue<T>, ts: seq<T>, done: seq<T>)
    requires Valid(q) && q.concurrency >= 1 && q.finished == [] && q.fired == 0
    requires q.enqueued == done
    requires q.started == done[..Min(q.concurrency, |done|)] && q.inFlight == q.started
    ensures var r := EnqueueAll(q, ts);
      && Valid(r) && r.fired == 0 && r.finished == [] && r.inFlight == r.started
      && r.enqueued == done + ts
      && r.started == (done + ts)[..Min(q.concurrency, |done + ts|)]
      && r.pending == (done + ts)[Min(q.concurrency, |done + ts|)..]
    decreases |ts|
  {
    if |ts| == 0 {
      assert done + ts == done;
      assert q.enqueued == q.started + q.pending;
    } else {
      var q' := Enqueue(q, ts[0]);
      assert done + ts == (done + [ts[0]]) + ts[1..];
      assert |q.started| == |q.inFlight| by {
        assert |multiset(q.started)| == |multiset(q.inFlight)|;
      }
      if q.running < q.concurrency {
        assert q.pending == [];
      }
      EnqueueAllFromEmpty(q', ts[1..], done + [ts[0]]);
    }
  }

  /**
   Once every task is enqueued, letting all of them fulfil (in any order)
   drains the queue, and the completion action runs exactly once, at the last
   fulfilment.
   */
  lemma {:induction false} DrainFiresOnce<T>(q: Queue<T>, schedule: seq<nat>)
    requires Valid(q) && |q.inFlight| > 0 && |schedule| >= Outstanding(q)
    ensures Valid(Drain(q, schedule))
    ensures Outstanding(Drain(q, schedule)) == 0
    ensures Drain(q, schedule).enqueued == q.enqueued
    ensures Drain(q, schedule).fired == q.fired + 1
    decreases |schedule|
  {
    var q' := Finish(q, schedule[0] % |q.inFlight|);
    FinishKeepsValid(q, schedule[0] % |q.inFlight|);
    assert Drain(q, schedule) == Drain(q', schedule[1..]);
    if Outstanding(q) > 1 {
      assert |q'.inFlight| > 0 by {
        if |q.pending| == 0 {
          assert |q'.inFlight| == |q.inFlight| - 1;
        }
      }
      DrainFiresOnce(q', schedule[1..]);
    }
  }

  /**
   A drained queue started every enqueued task once, in the order they were
   enqueued, and every started task finished once.
   */
  lemma DrainedAccountsForAll<T>(q: Queue<T>, r: Queue<T>)
    requires Valid(q) && Valid(r) && Outstanding(r) == 0 && r.enqueued == q.enqueued
    ensures r.started == q.enqueued
    ensures multiset(r.finished) == multiset(q.finished) + multiset(q.pending) + multiset(q.inFlight)
  {
    assert r.pending == [] && r.inFlight == [];
    assert r.started == r.enqueued;
    calc {
      multiset(r.finished);
      multiset(r.started);
      multiset(q.started + q.pending);
      multiset(q.started) + multiset(q.pending);
    }
  }

  /**
   `r` ends a run of `ts`: the completion action ran once, every task was
   started once in enqueue order and finished once, and nothing is left.
   */
  ghost predicate RanToCompletion<T>(r: Queue<T>, ts: seq<T>) {
    && r.fired == 1
    && r.started == ts
    && multiset(r.finished) == multiset(ts)
    && r.pending == [] && r.inFlight == [] && r.running == 0
  }

  /**
   The whole run of the program: a fresh queue, every site enqueued before any
   task fulfils, then every task fulfils. The completion action runs exactly
   once, and every enqueued task was started once, in order, and finished once.
   */
  lemma RunFiresOnce<T>(concurrency: nat, ts: seq<T>, schedule: seq<nat>)
    requires concurrency >= 1 && |ts| >= 1 && |schedule| >= |ts|
    ensures RanToCompletion(Drain(EnqueueAll(Create(concurrency), ts), schedule), ts)
  {
    LaunchedQueue(concurrency, ts);
    DrainFromLaunch(EnqueueAll(Create<T>(concurrency), ts), ts, schedule);
  }

  /** Draining a freshly launched queue runs it to completion. */
  lemma DrainFromLaunch<T>(q: Queue<T>, ts: seq<T>, schedule: seq<nat>)
    requires Valid(q) && q.enqueued == ts && q.finished == [] && q.fired == 0
    requires |q.inFlight| > 0 && Outstanding(q) == |ts| && |schedule| >= |ts|
    ensures RanToCompletion(Drain(q, schedule), ts)
  {
    DrainFiresOnce(q, schedule);
    DrainedFromLaunch(q, Drain(q, schedule), ts);
  }

  /** A queue drained from one that had launched `ts` and finished nothing has run `ts` to completion. */
  lemma DrainedFromLaunch<T>(q: Queue<T>, r: Queue<T>, ts: seq<T>)
    requires Valid(q) && q.enqueued == ts && q.finished == [] && q.fired == 0
    requires Valid(r) && Outstanding(r) == 0 && r.enqueued == ts && r.fired == 1
    ensures RanToCompletion(r, ts)
  {
    DrainedAccountsForAll(q, r);
    assert multiset(r.finished) == multiset(ts) by {
      assert ts == q.started + q.pending;
      assert multiset(q.started) == multiset(q.inFlight);
    }
  }

  /** Right after every task is enqueued: all are accounted for, some are in flight, none finished. */
  lemma LaunchedQueue<T>(concurrency: nat, ts: seq<T>)
    requires concurrency >= 1 && |ts| >= 1
    ensures var q := EnqueueAll(Create<T>(concurrency), ts);
      && Valid(q) && q.enqueued == ts && q.finished == [] && q.fired == 0
      && q.inFlight == q.started && |q.inFlight| > 0 && Outstanding(q) == |ts|
  {
    var q := EnqueueAll(Create<T>(concurrency), ts);
    EnqueueAllFromEmpty(Create<T>(concurrency), ts, []);
    assert [] + ts == ts;
    assert |q.started| == |multiset(q.started)| == |multiset(q.inFlight)| == |q.inFlight|;
  }

  /** With no task ever enqueued no worker runs, so the completion action never runs. */
  lemma EmptyRunNeverFires<T>(concurrency: nat, schedule: seq<nat>)
    ensures Drain(EnqueueAll(Create<T>(concurrency), []), schedule).fired == 0
  {
  }

  /**
   The completion action runs each time the queue goes idle, not once per
   queue: a task enqueued after the queue drained brings it back.
   */
  lemma LateEnqueueFiresAgain<T>(a: T, b: T)
    ensures Finish(Enqueue(Finish(Enqueue(Create<T>(1), a), 0), b), 0).fired == 2
  {
  }
}
