/** `PostgresRepository` as the auto-claim service sees it. The fate of every statement, and the time it takes, is an
    input: any statement may fail, and one that is reported as failed may or may not have taken effect. */
module ClaimRepository {
  import opened Common
  import opened ClaimJobs
  import opened Sorting
  import opened RowOrder

  function DueRows(t: Table, now: int): set<int> {
    set id | id in t && Due(t[id], now)
  }

  function DueRank(t: Table): int -> (int, int) {
    (id: int) => if id in t then (0, t[id].nextAttemptAt) else (0, 0)
  }

  /** `submitted_at ASC NULLS FIRST`. */
  function SubmittedRank(t: Table): int -> (int, int) {
    (id: int) => if id in t && t[id].submittedAt.Some? then (1, t[id].submittedAt.value) else (0, 0)
  }

  /** `WHERE status IN ('pending', 'retry') AND next_attempt_at <= NOW() ORDER BY next_attempt_at ASC, id ASC LIMIT`. */
  ghost predicate FirstWaiting(t: Table, now: int, limit: nat, ids: seq<int>) {
    && |ids| <= limit
    && (forall id :: id in ids ==>
          id in t && (t[id].status == Pending || t[id].status == Retry) && t[id].nextAttemptAt <= now)
    && (forall i, j :: 0 <= i < j < |ids| ==>
          || t[ids[i]].nextAttemptAt < t[ids[j]].nextAttemptAt
          || (t[ids[i]].nextAttemptAt == t[ids[j]].nextAttemptAt && ids[i] < ids[j]))
    && (forall id :: id in t && id !in ids && (t[id].status == Pending || t[id].status == Retry)
                     && t[id].nextAttemptAt <= now ==>
          |ids| == limit && forall x :: x in ids ==>
            || t[x].nextAttemptAt < t[id].nextAttemptAt
            || (t[x].nextAttemptAt == t[id].nextAttemptAt && x < id))
  }

  lemma DueRowsWait(t: Table, now: int, limit: nat, ids: seq<int>)
    requires FirstRows(DueRows(t, now), DueRank(t), limit, ids)
    ensures FirstWaiting(t, now, limit, ids)
  {
    forall id | id in ids ensures id in DueRows(t, now) { }
  }

  /** Without a time of submission a job comes before those with one. */
  predicate SubmittedBefore(t: Table, a: int, b: int)
    requires a in t && b in t
  {
    var x, y := t[a].submittedAt, t[b].submittedAt;
    if x.None? then y.Some? || a < b
    else y.Some? && (x.value < y.value || (x.value == y.value && a < b))
  }

  /** `WHERE status = 'submitted' ORDER BY submitted_at ASC NULLS FIRST, id ASC LIMIT`. */
  ghost predicate FirstSubmitted(t: Table, limit: nat, ids: seq<int>) {
    && |ids| <= limit
    && (forall id :: id in ids ==> id in t && t[id].status == Submitted)
    && (forall i, j :: 0 <= i < j < |ids| ==> SubmittedBefore(t, ids[i], ids[j]))
    && (forall id :: id in t && id !in ids && t[id].status == Submitted ==>
          |ids| == limit && forall x :: x in ids ==> SubmittedBefore(t, x, id))
  }

  lemma InFlightIsSubmitted(t: Table, limit: nat, ids: seq<int>)
    requires FirstRows(InFlight(t), SubmittedRank(t), limit, ids)
    ensures FirstSubmitted(t, limit, ids)
  {
    forall id | id in ids ensures id in InFlight(t) { }
  }

  ghost predicate RowUpserted(before: Table, id: int, j: Job, slug: Option<string>, maxAttempts: nat) {
    if id in before then j == Rediscovered(before[id], slug, maxAttempts, j.updatedAt)
    else j == NewJob(PositionOf(j), slug, maxAttempts, j.updatedAt)
  }

  ghost predicate HasJob(t: Table, p: Position) {
    exists id :: id in t && PositionOf(t[id]) == p
  }

  /** The effect of one upsert: the row of the position is found again, or there is a new one; other rows are as
      before. */
  ghost predicate Upserted(before: Table, after: Table, p: Position, slug: Option<string>, maxAttempts: nat) {
    && (forall id :: id in before ==> id in after)
    && (forall id :: id in after && PositionOf(after[id]) != p ==> id in before && after[id] == before[id])
    && HasJob(after, p)
    && (forall id :: id in after && PositionOf(after[id]) == p ==>
          RowUpserted(before, id, after[id], slug, maxAttempts))
  }

  /** `DO UPDATE`, column by column: claimed jobs and those under way keep what the others start over with. */
  ghost predicate FoundAgain(j: Job, j': Job, slug: Option<string>, maxAttempts: nat, now: int) {
    && j'.owner == j.owner && j'.condition == j.condition && j'.createdAt == j.createdAt
    && j'.txHash == j.txHash && j'.claimedAt == j.claimedAt && j'.submittedAt == j.submittedAt
    && j'.marketSlug == (if slug == None then j.marketSlug else slug)
    && (j'.maxAttempts == j.maxAttempts || j'.maxAttempts == maxAttempts)
    && j'.maxAttempts >= j.maxAttempts && j'.maxAttempts >= maxAttempts
    && j'.lastSeenAt == j'.updatedAt == now
    && match j.status
       case Claimed | Processing | Submitted =>
         && j'.status == j.status && j'.attempts == j.attempts && j'.nextAttemptAt == j.nextAttemptAt
         && j'.lastError == j.lastError
       case Pending | Retry | Failed | Skipped =>
         j'.status == Pending && j'.attempts == 0 && j'.nextAttemptAt == now && j'.lastError == None
  }

  lemma RediscoveryCalms(before: Table, id: int, j: Job, slug: Option<string>, maxAttempts: nat)
    requires RowUpserted(before, id, j, slug, maxAttempts) && maxAttempts > 0
    requires id in before ==> WithinAttempts(before[id])
    ensures WithinAttempts(j) && (j.status == Submitted ==> id in before && before[id].status == Submitted)
    ensures id in before ==>
      && before[id].maxAttempts <= j.maxAttempts && PositionOf(j) == PositionOf(before[id])
      && (before[id].status == Claimed || before[id].status == Processing ==> j.status == before[id].status)
  {
  }

  lemma UpdateUpserts(t: Table, id: int, slug: Option<string>, maxAttempts: nat, now: int)
    requires WellFormed(t) && id in t && maxAttempts > 0
    ensures
      var p, after := PositionOf(t[id]), t[id := Rediscovered(t[id], slug, maxAttempts, now)];
      && Upserted(t, after, p, slug, maxAttempts) && WellFormed(after) && |after| == |t| && HasJob(t, p)
      && (forall x :: x in after && PositionOf(after[x]) == p ==> x == id)
  {
    var after := t[id := Rediscovered(t[id], slug, maxAttempts, now)];
    assert PositionOf(after[id]) == PositionOf(t[id]);
    assert after.Keys == t.Keys && |after| == |after.Keys| && |t| == |t.Keys|;
  }

  lemma InsertUpserts(t: Table, id: int, p: Position, slug: Option<string>, maxAttempts: nat, now: int)
    requires WellFormed(t) && id !in t && !HasJob(t, p) && maxAttempts > 0
    ensures
      var after := t[id := NewJob(p, slug, maxAttempts, now)];
      && Upserted(t, after, p, slug, maxAttempts) && WellFormed(after) && |after| == |t| + 1
      && (forall x :: x in after && PositionOf(after[x]) == p ==> x == id)
  {
    var after := t[id := NewJob(p, slug, maxAttempts, now)];
    assert PositionOf(after[id]) == p;
    assert after.Keys == t.Keys + {id} && |after| == |after.Keys| && |t| == |t.Keys|;
  }

  class Repository {
    var jobs: Table
    var clock: int
    var count: nat

    constructor ()
      ensures jobs == map[] && WellFormed(jobs)
    {
      jobs, clock, count := map[], 0, 0;
    }

    /** One statement has been executed, with this fate. */
    ghost predicate Executed(f: Fate, clockBefore: int, countBefore: nat)
      reads this
    {
      clock == clockBefore + f.waitMs && count == countBefore + 1
    }

    method Execute(db: Weather, s: Statement) returns (f: Fate)
      modifies this`clock, this`count
      ensures f == db(old(count), s) && Executed(f, old(clock), old(count))
    {
      f := db(count, s);
      clock := clock + f.waitMs;
      count := count + 1;
    }

    /** Reading the clock: time does not run backwards. */
    method Now(db: Weather) returns (now: int)
      modifies this`clock, this`count
      ensures now == clock && Executed(db(old(count), ReadClock), old(clock), old(count))
    {
      var f := Execute(db, ReadClock);
      now := clock;
    }

    /** An UPDATE of one row by id. */
    method Put(id: int, j: Job, f: Fate)
      requires id in jobs
      modifies this`jobs
      ensures jobs == if Took(f) then old(jobs)[id := j] else old(jobs)
    {
      if Took(f) { jobs := jobs[id := j]; }
    }

    method MarkProcessing(db: Weather, id: int) returns (ok: bool)
      requires id in jobs
      modifies this
      ensures
        var f := db(old(count), ToProcessing(id));
        && Executed(f, old(clock), old(count)) && ok == f.ok
        && jobs == if Took(f) then old(jobs)[id := MarkedProcessing(old(jobs)[id], clock)] else old(jobs)
      ensures Took(db(old(count), ToProcessing(id))) ==>
        jobs[id] == old(jobs)[id].(status := Processing, updatedAt := clock)
    {
      var f := Execute(db, ToProcessing(id));
      Put(id, MarkedProcessing(jobs[id], clock), f);
      ok := f.ok;
    }

    method MarkSubmitted(db: Weather, id: int, tx: string) returns (ok: bool)
      requires id in jobs
      modifies this
      ensures
        var f := db(old(count), ToSubmitted(id));
        && Executed(f, old(clock), old(count)) && ok == f.ok
        && jobs == if Took(f) then old(jobs)[id := MarkedSubmitted(old(jobs)[id], tx, clock)] else old(jobs)
      ensures Took(db(old(count), ToSubmitted(id))) ==>
        jobs[id] == old(jobs)[id].(status := Submitted, txHash := Some(tx), submittedAt := Some(clock),
                                   lastError := None, updatedAt := clock)
    {
      var f := Execute(db, ToSubmitted(id));
      Put(id, MarkedSubmitted(jobs[id], tx, clock), f);
      ok := f.ok;
    }

    method MarkReceiptConfirmed(db: Weather, id: int) returns (ok: bool)
      requires id in jobs
      modifies this
      ensures
        var f := db(old(count), ToClaimed(id));
        && Executed(f, old(clock), old(count)) && ok == f.ok
        && jobs == if Took(f) then old(jobs)[id := MarkedClaimed(old(jobs)[id], clock)] else old(jobs)
      ensures Took(db(old(count), ToClaimed(id))) ==>
        jobs[id] == old(jobs)[id].(status := Claimed, claimedAt := Some(clock), lastError := None, updatedAt := clock)
    {
      var f := Execute(db, ToClaimed(id));
      Put(id, MarkedClaimed(jobs[id], clock), f);
      ok := f.ok;
    }

    method MarkRetryOrFail(db: Weather, id: int, error: string, backoffMs: nat) returns (ok: bool)
      requires id in jobs
      modifies this
      ensures
        var f := db(old(count), ToRetryOrFailed(id));
        && Executed(f, old(clock), old(count)) && ok == f.ok
        && jobs == if Took(f) then old(jobs)[id := MarkedRetryOrFailed(old(jobs)[id], error, backoffMs, clock)]
                   else old(jobs)
      ensures Took(db(old(count), ToRetryOrFailed(id))) ==>
        var attempts := old(jobs)[id].attempts + 1;
        var j := old(jobs)[id].(attempts := attempts, lastError := Some(error), submittedAt := None,
                                updatedAt := clock);
        jobs[id] == if attempts < j.maxAttempts then j.(status := Retry, nextAttemptAt := clock + backoffMs)
                    else j.(status := Failed, nextAttemptAt := clock)
    {
      var f := Execute(db, ToRetryOrFailed(id));
      Put(id, MarkedRetryOrFailed(jobs[id], error, backoffMs, clock), f);
      ok := f.ok;
    }

    method MarkFailed(db: Weather, id: int, error: string) returns (ok: bool)
      requires id in jobs
      modifies this
      ensures
        var f := db(old(count), ToFailed(id));
        && Executed(f, old(clock), old(count)) && ok == f.ok
        && jobs == if Took(f) then old(jobs)[id := MarkedFailed(old(jobs)[id], error, clock)] else old(jobs)
      ensures Took(db(old(count), ToFailed(id))) ==>
        jobs[id] == old(jobs)[id].(status := Failed, attempts := old(jobs)[id].attempts + 1, nextAttemptAt := clock,
                                   txHash := None, lastError := Some(error), submittedAt := None, updatedAt := clock)
    {
      var f := Execute(db, ToFailed(id));
      Put(id, MarkedFailed(jobs[id], error, clock), f);
      ok := f.ok;
    }

    /** Event rows are written for the record only. */
    method AppendEvent(db: Weather, id: int) returns (ok: bool)
      modifies this`clock, this`count
      ensures
        var f := db(old(count), Statement.AppendEvent(id));
        Executed(f, old(clock), old(count)) && ok == f.ok
    {
      var f := Execute(db, Statement.AppendEvent(id));
      ok := f.ok;
    }

    method ListForProcessing(db: Weather, limit: nat) returns (ok: bool, ids: seq<int>)
      modifies this`clock, this`count
      ensures Executed(db(old(count), ListDue), old(clock), old(count)) && ok == db(old(count), ListDue).ok
      ensures ok ==> FirstRows(DueRows(jobs, clock), DueRank(jobs), limit, ids) && FirstWaiting(jobs, clock, limit, ids)
    {
      var f := Execute(db, ListDue);
      ok := f.ok;
      ids := Select(DueRows(jobs, clock), DueRank(jobs), limit);
      DueRowsWait(jobs, clock, limit, ids);
    }

    method ListForReceiptCheck(db: Weather, limit: nat) returns (ok: bool, ids: seq<int>)
      modifies this`clock, this`count
      ensures Executed(db(old(count), ListSubmitted), old(clock), old(count)) && ok == db(old(count), ListSubmitted).ok
      ensures ok ==> FirstRows(InFlight(jobs), SubmittedRank(jobs), limit, ids) && FirstSubmitted(jobs, limit, ids)
    {
      var f := Execute(db, ListSubmitted);
      ok := f.ok;
      ids := Select(InFlight(jobs), SubmittedRank(jobs), limit);
      InFlightIsSubmitted(jobs, limit, ids);
    }

    method CountSubmitted(db: Weather) returns (ok: bool, submitted: nat)
      modifies this`clock, this`count
      ensures Executed(db(old(count), CountInFlight), old(clock), old(count)) && ok == db(old(count), CountInFlight).ok
      ensures submitted == |InFlight(jobs)| == |set id | id in jobs && jobs[id].status == Submitted|
    {
      var f := Execute(db, CountInFlight);
      ok := f.ok;
      submitted := |InFlight(jobs)|;
    }

    /** Jobs stuck in processing since before `now - staleMs` go back to retry. */
    method RecoverStaleProcessing(db: Weather, staleMs: nat) returns (ok: bool)
      modifies this
      ensures Executed(db(old(count), Recover), old(clock), old(count)) && ok == db(old(count), Recover).ok
      ensures !Took(db(old(count), Recover)) ==> jobs == old(jobs)
      ensures jobs.Keys == old(jobs).Keys
      ensures Took(db(old(count), Recover)) ==> forall id :: id in jobs ==>
        jobs[id] == if old(jobs)[id].status == Processing && old(jobs)[id].updatedAt < clock - staleMs
                    then old(jobs)[id].(status := Retry, nextAttemptAt := clock, updatedAt := clock)
                    else old(jobs)[id]
    {
      var f := Execute(db, Recover);
      ok := f.ok;
      if Took(f) {
        jobs := map id | id in jobs ::
          if jobs[id].status == Processing && jobs[id].updatedAt < clock - staleMs then MarkedRecovered(jobs[id], clock)
          else jobs[id];
      }
    }

    /** INSERT … ON CONFLICT (owner_address, condition_id) DO UPDATE. */
    method UpsertJob(db: Weather, p: Position, slug: Option<string>, maxAttempts: nat)
        returns (ok: bool, inserted: bool)
      requires WellFormed(jobs) && maxAttempts > 0
      modifies this
      ensures Executed(db(old(count), Upsert(p)), old(clock), old(count)) && ok == db(old(count), Upsert(p)).ok
      ensures WellFormed(jobs) && (!Took(db(old(count), Upsert(p))) ==> jobs == old(jobs))
      ensures Took(db(old(count), Upsert(p))) ==> Upserted(old(jobs), jobs, p, slug, maxAttempts)
      ensures Took(db(old(count), Upsert(p))) ==> forall id :: id in jobs && PositionOf(jobs[id]) == p ==>
        jobs[id].updatedAt == clock
      ensures ok ==> |jobs| == |old(jobs)| + (if inserted then 1 else 0) && (inserted <==> !HasJob(old(jobs), p))
      ensures Took(db(old(count), Upsert(p))) ==> forall id :: id in jobs && PositionOf(jobs[id]) == p ==>
        && (id in old(jobs) ==> FoundAgain(old(jobs)[id], jobs[id], slug, maxAttempts, clock))
        && (id !in old(jobs) ==>
              jobs[id] == Job(p.owner, p.condition, slug, Pending, 0, maxAttempts, clock, None, None, None, None,
                              clock, clock, clock))
    {
      var f := Execute(db, Upsert(p));
      ok, inserted := f.ok, false;
      if Took(f) {
        if id :| id in jobs && PositionOf(jobs[id]) == p {
          UpdateUpserts(jobs, id, slug, maxAttempts, clock);
          jobs := jobs[id := Rediscovered(jobs[id], slug, maxAttempts, clock)];
        } else {
          var newId := FreshId(jobs.Keys);
          InsertUpserts(jobs, newId, p, slug, maxAttempts, clock);
          jobs := jobs[newId := NewJob(p, slug, maxAttempts, clock)];
          inserted := true;
        }
      }
    }
  }
}
