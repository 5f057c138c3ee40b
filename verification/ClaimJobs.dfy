/** The rows of `auto_claim_jobs` and the row updates of `db/auto_claim.rs`. Times are milliseconds; every
    update stamps `updatedAt` with the time of its statement. */
module ClaimJobs {
  import opened Common

  datatype Status = Pending | Processing | Submitted | Retry | Claimed | Failed | Skipped

  datatype Job = Job(
    owner: string, condition: string, marketSlug: Option<string>, status: Status, attempts: nat, maxAttempts: nat,
    nextAttemptAt: int, txHash: Option<string>, lastError: Option<string>, claimedAt: Option<int>,
    submittedAt: Option<int>, lastSeenAt: int, createdAt: int, updatedAt: int)

  type Table = map<int, Job>

  predicate Due(j: Job, now: int) {
    (j.status == Pending || j.status == Retry) && j.nextAttemptAt <= now
  }

  function MarkedProcessing(j: Job, now: int): Job {
    j.(status := Processing, updatedAt := now)
  }

  function MarkedSubmitted(j: Job, tx: string, now: int): Job {
    j.(status := Submitted, txHash := Some(tx), submittedAt := Some(now), lastError := None, updatedAt := now)
  }

  function MarkedClaimed(j: Job, now: int): Job {
    j.(status := Claimed, claimedAt := Some(now), lastError := None, updatedAt := now)
  }

  function MarkedRetryOrFailed(j: Job, error: string, backoffMs: nat, now: int): Job {
    var failed := j.attempts + 1 >= j.maxAttempts;
    j.(attempts := j.attempts + 1, status := if failed then Failed else Retry,
       nextAttemptAt := if failed then now else now + backoffMs,
       lastError := Some(error), submittedAt := None, updatedAt := now)
  }

  function MarkedFailed(j: Job, error: string, now: int): Job {
    j.(attempts := j.attempts + 1, status := Failed, nextAttemptAt := now, txHash := None,
       lastError := Some(error), submittedAt := None, updatedAt := now)
  }

  function MarkedRecovered(j: Job, now: int): Job {
    j.(status := Retry, nextAttemptAt := now, updatedAt := now)
  }

  /** What a job is about; the table has a unique index on it. */
  datatype Position = Position(owner: string, condition: string)

  function PositionOf(j: Job): Position {
    Position(j.owner, j.condition)
  }

  function NewJob(p: Position, slug: Option<string>, maxAttempts: nat, now: int): Job {
    Job(p.owner, p.condition, slug, Pending, 0, maxAttempts, now, None, None, None, None, now, now, now)
  }

  /** Rediscovery: a job that is claimed or under way only has its limits refreshed, any other starts over. */
  function Rediscovered(j: Job, slug: Option<string>, maxAttempts: nat, now: int): Job {
    var j1 := j.(marketSlug := if slug.Some? then slug else j.marketSlug,
                 maxAttempts := Max(j.maxAttempts, maxAttempts), lastSeenAt := now, updatedAt := now);
    if j.status == Claimed || j.status == Processing || j.status == Submitted then j1
    else j1.(status := Pending, attempts := 0, nextAttemptAt := now, lastError := None)
  }

  // Statements and their fates

  datatype Statement =
    | ReadClock | Recover | Upsert(position: Position) | ListSubmitted | ListDue | CountInFlight
    | ToProcessing(id: int) | ToSubmitted(id: int) | ToClaimed(id: int) | ToRetryOrFailed(id: int) | ToFailed(id: int)
    | AppendEvent(id: int)

  /** A statement takes some time and succeeds or fails; one reported as failed may have taken effect. */
  datatype Fate = Fate(waitMs: nat, ok: bool, tookEffect: bool)

  predicate Took(f: Fate) {
    f.ok || f.tookEffect
  }

  /** The fate of every statement, which may depend on how many there were before it. */
  type Weather = (nat, Statement) -> Fate

  /** No statement fails, except perhaps those that record a submission. */
  ghost predicate Steady(db: Weather) {
    forall n: nat, s: Statement :: db(n, s).ok || s.ToSubmitted?
  }

  ghost predicate Reliable(db: Weather) {
    forall n: nat, s: Statement :: db(n, s).ok
  }

  /** Exactly the statements that record a submission fail, without effect. */
  ghost predicate LosesRecords(db: Weather) {
    forall n: nat, s: Statement :: if s.ToSubmitted? then !Took(db(n, s)) else db(n, s).ok
  }

  // What holds of the table at all times

  /** A job that may still be submitted has an attempt left. */
  predicate WithinAttempts(j: Job) {
    && 0 < j.maxAttempts && j.attempts <= j.maxAttempts
    && (j.status == Pending || j.status == Retry || j.status == Processing || j.status == Submitted
        ==> j.attempts < j.maxAttempts)
  }

  ghost predicate WellFormed(t: Table) {
    && (forall id :: id in t ==> WithinAttempts(t[id]))
    && (forall a, b :: a in t && b in t && a != b ==> PositionOf(t[a]) != PositionOf(t[b]))
  }

  function InFlight(t: Table): set<int> {
    set id | id in t && t[id].status == Submitted
  }

  /** No row disappears, a claimed job stays claimed, and a job left in processing is not touched. */
  ghost predicate Settles(before: Table, after: Table) {
    && (forall id :: id in before ==> id in after)
    && (forall id :: id in before && before[id].status == Claimed ==> after[id].status == Claimed)
    && (forall id :: id in before && before[id].status == Processing ==> after[id].status == Processing)
  }

  // Submissions

  /** How often a job can still be submitted if it is neither found again nor recovered. */
  function Left(j: Job): nat {
    match j.status
    case Pending => Max(j.maxAttempts - j.attempts, 0)
    case Retry => Max(j.maxAttempts - j.attempts, 0)
    case Submitted => Max(j.maxAttempts - j.attempts - 1, 0)
    case Processing => 0
    case Claimed => 0
    case Failed => 0
    case Skipped => 0
  }

  /** `n` submissions were paid for, no limit was moved, and a failed job was left alone. */
  predicate RowSpends(j: Job, j': Job, n: nat) {
    Left(j') + n <= Left(j) && j'.maxAttempts == j.maxAttempts && (j.status == Failed ==> j' == j)
  }

  ghost predicate Spends(before: Table, after: Table, sent: multiset<int>) {
    forall id :: id in before ==> id in after && RowSpends(before[id], after[id], sent[id])
  }

  lemma SpendsCompose(before: Table, mid: Table, after: Table, sent: multiset<int>, more: multiset<int>)
    requires Spends(before, mid, sent) && Spends(mid, after, more)
    ensures Spends(before, after, sent + more)
  {
    forall id | id in before ensures id in after && RowSpends(before[id], after[id], (sent + more)[id]) {
      assert id in mid;
    }
  }

  /** `renewals` times `limit`, by repeated addition. */
  ghost function Worth(renewals: nat, limit: nat): nat {
    if renewals == 0 then 0 else Worth(renewals - 1, limit) + limit
  }

  lemma {:induction false} WorthIsProduct(renewals: nat, limit: nat)
    ensures Worth(renewals, limit) == renewals * limit
  {
    if renewals > 0 { WorthIsProduct(renewals - 1, limit); }
  }

  lemma {:induction false} WorthGrows(renewals: nat, a: nat, b: nat)
    requires a <= b
    ensures Worth(renewals, a) <= Worth(renewals, b)
  {
    if renewals > 0 { WorthGrows(renewals - 1, a, b); }
  }

  predicate Submittable(j: Job) {
    (j.status == Pending || j.status == Retry) && j.attempts < j.maxAttempts
  }

  ghost predicate OnlyChanges(before: Table, after: Table, ids: seq<int>) {
    && before.Keys == after.Keys
    && (forall id :: id in before && id !in ids ==> after[id] == before[id])
  }

  lemma {:induction false} SetOfSize(ids: seq<int>)
    ensures |set id | id in ids| <= |ids|
  {
    if ids != [] {
      var front, last := ids[..|ids| - 1], ids[|ids| - 1];
      SetOfSize(front);
      assert (set id | id in ids) == (set id | id in front) + {last} by { assert ids == front + [last]; }
    }
  }

  lemma {:induction false} SubsetSize<T>(a: set<T>, b: set<T>)
    requires a <= b
    ensures |a| <= |b|
  {
    if a != {} {
      var x :| x in a;
      SubsetSize(a - {x}, b - {x});
    }
  }

  /** A pass over `n` jobs puts at most `n` more in flight. */
  lemma PassBoundsInFlight(before: Table, after: Table, ids: seq<int>)
    requires OnlyChanges(before, after, ids)
    ensures |InFlight(after)| <= |InFlight(before)| + |ids|
  {
    var touched := set id | id in ids;
    SetOfSize(ids);
    forall id | id in InFlight(after) ensures id in InFlight(before) + touched {
      if id !in ids { assert id in before && after[id] == before[id]; }
    }
    SubsetSize(InFlight(after), InFlight(before) + touched);
  }
}
