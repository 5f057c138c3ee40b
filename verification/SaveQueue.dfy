/** The latest-only queue of `flow-engine-draft-save-queue.ts`. Each call of `process` is a coroutine frame
    in `workers`, suspended at its `await`; the methods are the code that runs between two awaits. That at
    most one frame lives, and that no pending job is forgotten, are consequences and not assumptions. */
module SaveQueue {
  import opened Common

  /** What the steps of the queue read and write. `workers` maps a live call of `process` to the job it awaits;
      `started` lists the jobs whose `run` was called, in order. */
  datatype Queue<J> =
    Queue(inflight: Option<nat>, pending: Option<J>, workers: map<nat, J>, calls: nat, started: seq<J>)

  function Empty<J>(): Queue<J> {
    Queue(None, None, map[], 0, [])
  }

  /** The loop head of `process`: take the pending job and await it, or return and clear `inflight`. */
  function LoopHead<J>(q: Queue<J>, w: nat): Queue<J> {
    if q.pending.Some? then
      q.(pending := None, workers := q.workers[w := q.pending.value], started := q.started + [q.pending.value])
    else q.(inflight := None, workers := q.workers - {w})
  }

  function Enqueued<J>(q: Queue<J>, job: J): Queue<J> {
    var q1 := q.(pending := Some(job));
    if q1.inflight.Some? then q1
    else LoopHead(q1, q1.calls).(inflight := Some(q1.calls), calls := q1.calls + 1)
  }

  function Cleared<J>(q: Queue<J>): Queue<J> {
    q.(pending := None)
  }

  /** The awaited job of frame `w` fulfils. */
  function Fulfilled<J>(q: Queue<J>, w: nat): Queue<J>
    requires w in q.workers
  {
    LoopHead(q, w)
  }

  /** The awaited job of frame `w` rejects: the pending job is dropped and the frame throws. */
  function Rejected<J>(q: Queue<J>, w: nat): Queue<J>
    requires w in q.workers
  {
    q.(pending := None, inflight := None, workers := q.workers - {w})
  }

  /** One live frame exactly while `inflight` is set, and a pending job only while a frame lives to take it. */
  ghost predicate Sound<J>(q: Queue<J>) {
    && q.workers.Keys == (if q.inflight.Some? then {q.inflight.value} else {})
    && (q.inflight.Some? ==> q.inflight.value < q.calls)
    && (q.pending.Some? ==> q.inflight.Some?)
  }

  class LatestOnlyQueue<J> {
    var inflight: Option<nat>
    var pending: Option<J>
    var workers: map<nat, J>
    var calls: nat
    var started: seq<J>

    ghost function View(): Queue<J>
      reads this
    {
      Queue(inflight, pending, workers, calls, started)
    }

    constructor ()
      ensures View() == Empty() && Sound(View())
    {
      inflight, pending, workers, calls, started := None, None, map[], 0, [];
    }

    /** Runs a frame from the head of its loop to its next suspension or its end. */
    method Loop(w: nat)
      modifies this
      ensures View() == LoopHead(old(View()), w)
    {
      if pending.Some? {
        var current := pending.value;
        pending := None;
        workers := workers[w := current];
        started := started + [current];
      } else {
        workers := workers - {w};
        inflight := None;
      }
    }

    method Enqueue(job: J) returns (promise: nat)
      requires Sound(View())
      modifies this
      ensures View() == Enqueued(old(View()), job) && Sound(View())
      ensures inflight == Some(promise)
    {
      pending := Some(job);
      if inflight.None? {
        var call := calls;
        calls := calls + 1;
        Loop(call);
        inflight := Some(call);
      }
      promise := inflight.value;
    }

    method ClearPending()
      requires Sound(View())
      modifies this
      ensures View() == Cleared(old(View())) && Sound(View())
    {
      pending := None;
    }

    /** `hasPending` is what the success callback is told. */
    method Fulfil(w: nat) returns (done: J, hasPending: bool)
      requires Sound(View()) && w in workers
      modifies this
      ensures View() == Fulfilled(old(View()), w) && Sound(View())
      ensures done == old(workers[w]) && hasPending == old(pending).Some?
    {
      done := workers[w];
      hasPending := pending.Some?;
      Loop(w);
    }

    method Reject(w: nat) returns (failed: J)
      requires Sound(View()) && w in workers
      modifies this
      ensures View() == Rejected(old(View()), w) && Sound(View())
      ensures failed == old(workers[w])
    {
      failed := workers[w];
      pending := None;
      workers := workers - {w};
      inflight := None;
    }
  }

  // Whole runs

  /** A job is named by the position of its enqueue in the run; a settlement names the frame it resumes. */
  datatype Event = Enqueue | Clear | Fulfil(w: nat) | Reject(w: nat)

  ghost predicate Enabled(q: Queue<nat>, e: Event) {
    e.Fulfil? || e.Reject? ==> e.w in q.workers
  }

  ghost function Step(q: Queue<nat>, e: Event, at: nat): Queue<nat>
    requires Enabled(q, e)
  {
    match e
    case Enqueue => Enqueued(q, at)
    case Clear => Cleared(q)
    case Fulfil(w) => Fulfilled(q, w)
    case Reject(w) => Rejected(q, w)
  }

  /** The state a run reaches; none if the run settles a frame that is not suspended. */
  ghost function After(run: seq<Event>): Option<Queue<nat>> {
    if run == [] then Some(Empty())
    else
      var before, e := After(run[..|run| - 1]), run[|run| - 1];
      if before.Some? && Enabled(before.value, e) then Some(Step(before.value, e, |run| - 1)) else None
  }

  ghost predicate Busy(run: seq<Event>) {
    After(run).Some? && After(run).value.inflight.Some?
  }

  ghost function Settlements(run: seq<Event>): nat {
    if run == [] then 0
    else Settlements(run[..|run| - 1]) + if run[|run| - 1].Fulfil? || run[|run| - 1].Reject? then 1 else 0
  }

  /** In every run: at most one job is awaited, a pending job always has a live frame that will take it, jobs
      start in the order they were enqueued and at most once, and the frame is live exactly while one more job
      has started than settled. */
  lemma {:induction false} EveryRunIsOrderly(run: seq<Event>)
    requires After(run).Some?
    ensures
      var q := After(run).value;
      && Sound(q) && |q.workers| <= 1
      && (forall i, j :: 0 <= i < j < |q.started| ==> q.started[i] < q.started[j])
      && (forall i :: 0 <= i < |q.started| ==> q.started[i] < |run| && run[q.started[i]] == Enqueue)
      && (q.pending.Some? ==> q.pending.value < |run| && run[q.pending.value] == Enqueue
                              && forall i :: 0 <= i < |q.started| ==> q.started[i] < q.pending.value)
      && |q.started| == Settlements(run) + if q.inflight.Some? then 1 else 0
  {
    if run != [] {
      var front := run[..|run| - 1];
      EveryRunIsOrderly(front);
      var q, q' := After(front).value, After(run).value;
      assert q'.workers.Keys == if q'.inflight.Some? then {q'.inflight.value} else {};
      assert forall i :: 0 <= i < |front| ==> front[i] == run[i];
    }
    assert |After(run).value.workers| == |After(run).value.workers.Keys|;
  }

  /** Corollary of the definition: a job waits exactly while it was enqueued behind a live frame and nothing has
      happened since. */
  lemma WaitingIsLast(run: seq<Event>, i: nat)
    requires After(run).Some? && i < |run| && run[i] == Enqueue
    ensures After(run).value.pending == Some(i) <==> i == |run| - 1 && Busy(run[..i])
  {
  }

  /** The fate of every job: it runs if the queue was idle when it was enqueued, or if the very next thing to
      happen is that the running job succeeds. Otherwise it still waits, or the next event replaced it, cleared
      it, or dropped it because the running job failed. */
  lemma {:induction false} JobFate(run: seq<Event>, i: nat)
    requires After(run).Some? && i < |run| && run[i] == Enqueue
    ensures i in After(run).value.started <==> !Busy(run[..i]) || (i + 1 < |run| && run[i + 1].Fulfil?)
  {
    var n := |run| - 1;
    var front := run[..n];
    EveryRunIsOrderly(front);
    var q, q' := After(front).value, After(run).value;
    if i == n {
      assert run[..i] == front;
      if !Busy(front) { assert q'.started[|q'.started| - 1] == i; }
    } else {
      assert front[i] == run[i] && front[..i] == run[..i];
      JobFate(front, i);
      WaitingIsLast(front, i);
      if run[n].Fulfil? && q.pending.Some? {
        assert q'.started == q.started + [q.pending.value];
      } else if run[n] == Enqueue && q.inflight.None? {
        assert q'.started == q.started + [n];
      } else {
        assert q'.started == q.started;
      }
    }
  }

  /** If nothing is cleared and nothing fails after the last enqueue, then once the queue is idle that job is
      the last one that ran: the newest draft is what the server was sent last. */
  lemma {:induction false} LatestRunsLast(run: seq<Event>, i: nat)
    requires After(run).Some? && i < |run| && run[i] == Enqueue && !Busy(run)
    requires forall j :: i < j < |run| ==> run[j].Fulfil?
    ensures
      var started := After(run).value.started;
      started != [] && started[|started| - 1] == i
  {
    EveryRunIsOrderly(run);
    JobFate(run, i);
    var q := After(run).value;
    var at :| 0 <= at < |q.started| && q.started[at] == i;
    assert run[q.started[|q.started| - 1]] == Enqueue;
  }
}
