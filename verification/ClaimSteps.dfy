/** What the parts of an auto-claim tick leave in the table, and how those parts compose. */
module ClaimSteps {
  import opened Common
  import opened Sorting
  import opened ClaimJobs
  import opened ClaimPlan
  import opened RowOrder
  import opened ClaimRepository

  ghost predicate Rows(t: Table, ids: seq<int>) {
    Distinct(ids) && forall k :: 0 <= k < |ids| ==> ids[k] in t
  }

  // Recovery

  /** Exactly the jobs stuck in processing for more than five minutes are due again. */
  ghost predicate Recovered(before: Table, after: Table, at: int) {
    && before.Keys == after.Keys
    && (forall id :: id in after ==>
          after[id] == if before[id].status == Processing && before[id].updatedAt < at - 300_000
                       then before[id].(status := Retry, nextAttemptAt := at, updatedAt := at) else before[id])
  }

  function Changed(before: Table, after: Table): set<int> {
    set id | id in before && id in after && after[id] != before[id]
  }

  // Discovery

  ghost predicate RowDiscovered(maxAttempts: nat, found: Found, before: Table, id: int, j: Job, done: set<Position>)
    requires done <= found.Keys
  {
    if PositionOf(j) in done then RowUpserted(before, id, j, found[PositionOf(j)], maxAttempts)
    else id in before && j == before[id]
  }

  /** The positions of `done` have each been upserted once: its job started over or was refreshed, or there is a new
      one. Jobs of other positions are as before. */
  ghost predicate Discovered(maxAttempts: nat, found: Found, before: Table, after: Table, done: set<Position>) {
    && done <= found.Keys
    && (forall p :: p in done ==> HasJob(after, p))
    && (forall id :: id in before ==> id in after && PositionOf(after[id]) == PositionOf(before[id]))
    && (forall id :: id in after ==> RowDiscovered(maxAttempts, found, before, id, after[id], done))
  }

  /** The jobs of these positions were last written in this interval. */
  ghost predicate Stamped(t: Table, done: set<Position>, start: int, end: int) {
    forall id :: id in t && PositionOf(t[id]) in done ==> start <= t[id].updatedAt <= end
  }

  lemma OneMorePosition(maxAttempts: nat, found: Found, before: Table, mid: Table, after: Table,
                        done: set<Position>, p: Position)
    requires Discovered(maxAttempts, found, before, mid, done) && p in found && p !in done
    requires Upserted(mid, after, p, found[p], maxAttempts)
    ensures Discovered(maxAttempts, found, before, after, done + {p})
  {
    forall q | q in done ensures HasJob(after, q) {
      assert HasJob(mid, q);
      var id :| id in mid && PositionOf(mid[id]) == q;
      assert id in after;
      if PositionOf(after[id]) == p { assert RowUpserted(mid, id, after[id], found[p], maxAttempts); }
    }
    forall id | id in before ensures id in after && PositionOf(after[id]) == PositionOf(before[id]) {
      assert id in mid;
      if PositionOf(after[id]) == p { assert RowUpserted(mid, id, after[id], found[p], maxAttempts); }
    }
    forall id | id in after ensures RowDiscovered(maxAttempts, found, before, id, after[id], done + {p}) {
      if PositionOf(after[id]) == p {
        assert RowUpserted(mid, id, after[id], found[p], maxAttempts);
        if id in mid { assert RowDiscovered(maxAttempts, found, before, id, mid[id], done); }
      } else {
        assert id in mid && after[id] == mid[id];
        assert RowDiscovered(maxAttempts, found, before, id, mid[id], done);
      }
    }
  }

  lemma OneMoreStamp(maxAttempts: nat, found: Found, mid: Table, after: Table, done: set<Position>, p: Position,
                     start: int, now: int)
    requires p in found && Upserted(mid, after, p, found[p], maxAttempts) && start <= now
    requires forall id :: id in after && PositionOf(after[id]) == p ==> after[id].updatedAt == now
    requires exists t :: t <= now && Stamped(mid, done, start, t)
    ensures Stamped(after, done + {p}, start, now)
  {
    var t :| t <= now && Stamped(mid, done, start, t);
    forall id | id in after && PositionOf(after[id]) in done + {p} ensures start <= after[id].updatedAt <= now {
      if PositionOf(after[id]) != p { assert id in mid && after[id] == mid[id]; }
    }
  }

  // Calm parts of a tick: nothing new goes into flight

  /** No row is lost, none leaves the claimed state, and nothing new is in flight. */
  ghost predicate Calms(before: Table, after: Table) {
    && WellFormed(after) && InFlight(after) <= InFlight(before)
    && (forall id :: id in before ==> id in after && PositionOf(after[id]) == PositionOf(before[id]))
    && (forall id :: id in before && before[id].status == Claimed ==> after[id].status == Claimed)
  }

  /** Jobs in processing stay there, except those of `but`. */
  ghost predicate Waits(before: Table, after: Table, but: set<int>) {
    forall id :: id in before && before[id].status == Processing && id !in but ==>
      id in after && after[id].status == Processing
  }

  /** No limit is lowered, and a job neither recovered nor found again has not gained a submission. */
  ghost predicate Refreshes(before: Table, after: Table, recovered: set<int>, done: set<Position>) {
    forall id :: id in before ==>
      && id in after && before[id].maxAttempts <= after[id].maxAttempts
      && (id !in recovered && PositionOf(before[id]) !in done ==> RowSpends(before[id], after[id], 0))
  }

  ghost predicate Quiet(before: Table, after: Table, recovered: set<int>, done: set<Position>) {
    Calms(before, after) && Waits(before, after, recovered) && Refreshes(before, after, recovered, done)
  }

  lemma QuietCompose(before: Table, mid: Table, after: Table, recovered: set<int>, done: set<Position>,
                     more: set<Position>)
    requires Quiet(before, mid, recovered, done) && Quiet(mid, after, {}, more)
    ensures Quiet(before, after, recovered, done + more)
  {
    forall id | id in before
      ensures id in after && PositionOf(after[id]) == PositionOf(before[id])
      ensures before[id].maxAttempts <= after[id].maxAttempts
      ensures id !in recovered && PositionOf(before[id]) !in done + more ==> RowSpends(before[id], after[id], 0)
      ensures before[id].status == Claimed ==> after[id].status == Claimed
    {
      assert id in mid && PositionOf(mid[id]) == PositionOf(before[id]);
      assert id in after;
    }
  }

  /** A row rewritten in place that was not claimed, does not go into flight and gains nothing. */
  ghost predicate RowCalms(j: Job, j': Job) {
    && WithinAttempts(j') && PositionOf(j') == PositionOf(j)
    && j.status != Claimed && (j'.status == Submitted ==> j.status == Submitted)
  }

  lemma RowsCalm(before: Table, after: Table)
    requires WellFormed(before) && before.Keys == after.Keys
    requires forall id :: id in before ==> after[id] == before[id] || RowCalms(before[id], after[id])
    ensures Calms(before, after)
  {
    forall id | id in after ensures WithinAttempts(after[id]) && PositionOf(after[id]) == PositionOf(before[id]) {
      assert id in before;
    }
    forall id | id in InFlight(after) ensures id in InFlight(before) {
      assert id in before;
    }
  }

  lemma UnchangedIsQuiet(t: Table)
    requires WellFormed(t)
    ensures Quiet(t, t, {}, {})
  {
  }

  lemma RecoveryIsQuiet(before: Table, after: Table, at: int)
    requires WellFormed(before) && (after == before || Recovered(before, after, at))
    ensures Quiet(before, after, Changed(before, after), {})
    ensures forall id :: id in Changed(before, after) ==> id in before && before[id].status == Processing
  {
    forall id | id in before ensures after[id] == before[id] || RowCalms(before[id], after[id]) {
      assert id in after && WithinAttempts(before[id]);
    }
    RowsCalm(before, after);
  }

  lemma DiscoveryIsQuiet(maxAttempts: nat, found: Found, before: Table, after: Table, done: set<Position>)
    requires WellFormed(before) && WellFormed(after) && maxAttempts > 0
    requires Discovered(maxAttempts, found, before, after, done)
    ensures Quiet(before, after, {}, done)
  {
    forall id | id in after
      ensures after[id].status == Submitted ==> id in before && before[id].status == Submitted
      ensures id in before ==>
        && before[id].maxAttempts <= after[id].maxAttempts
        && (before[id].status == Claimed || before[id].status == Processing ==> after[id].status == before[id].status)
        && (PositionOf(before[id]) !in done ==> after[id] == before[id])
    {
      assert RowDiscovered(maxAttempts, found, before, id, after[id], done);
      if PositionOf(after[id]) in done {
        RediscoveryCalms(before, id, after[id], found[PositionOf(after[id])], maxAttempts);
      }
    }
    forall id | id in before ensures id in after && PositionOf(after[id]) == PositionOf(before[id]) { }
  }

  // Receipts

  ghost predicate Judged(net: Network, id: int, j: Job, j': Job, now: int, backoffMs: nat) {
    j' == AfterVerdict(j, VerdictOf(net, id, j, now), backoffMs, j'.updatedAt)
  }

  ghost function Confirms(net: Network, t: Table, now: int): int -> bool {
    (id: int) => id in t && VerdictOf(net, id, t[id], now).Confirm?
  }

  /** The oldest submitted jobs were judged by their receipts, and no other job was touched. */
  ghost predicate Checked(cfg: Config, net: Network, before: Table, after: Table, ids: seq<int>, now: int) {
    && FirstRows(InFlight(before), SubmittedRank(before), RECEIPT_CHECK_LIMIT, ids)
    && OnlyChanges(before, after, ids)
    && (forall id :: id in ids ==> id in before && Judged(net, id, before[id], after[id], now, cfg.retryBackoffMs))
  }

  ghost predicate ReceiptHandled(net: Network, id: int, before: Table, after: Table, now: int, backoffMs: nat) {
    && id in before && id in after
    && (after[id] == before[id] || Judged(net, id, before[id], after[id], now, backoffMs))
  }

  /** The first `n` rows were looked at and no other row was changed. */
  ghost predicate HandledUpTo(net: Network, before: Table, after: Table, ids: seq<int>, n: nat, now: int,
                              backoffMs: nat) {
    && n <= |ids| && OnlyChanges(before, after, ids[..n])
    && forall k :: 0 <= k < n ==> ReceiptHandled(net, ids[k], before, after, now, backoffMs)
  }

  /** The same, and every statement for them succeeded. */
  ghost predicate JudgedUpTo(net: Network, before: Table, after: Table, ids: seq<int>, n: nat, now: int,
                             backoffMs: nat) {
    && HandledUpTo(net, before, after, ids, n, now, backoffMs)
    && forall k :: 0 <= k < n ==> Judged(net, ids[k], before[ids[k]], after[ids[k]], now, backoffMs)
  }

  lemma SubmittedRows(t: Table, ids: seq<int>)
    requires FirstRows(InFlight(t), SubmittedRank(t), RECEIPT_CHECK_LIMIT, ids)
    ensures Rows(t, ids)
    ensures forall id :: id in ids ==> id in t && t[id].status == Submitted
  {
    forall id | id in ids ensures id in t && t[id].status == Submitted { assert id in InFlight(t); }
  }

  lemma OneMoreReceipt(net: Network, before: Table, mid: Table, after: Table, ids: seq<int>, i: nat, now: int,
                       backoffMs: nat)
    requires Rows(before, ids) && i < |ids| && JudgedUpTo(net, before, mid, ids, i, now, backoffMs)
    requires OnlyChanges(mid, after, [ids[i]]) && ReceiptHandled(net, ids[i], mid, after, now, backoffMs)
    ensures HandledUpTo(net, before, after, ids, i + 1, now, backoffMs)
    ensures Judged(net, ids[i], mid[ids[i]], after[ids[i]], now, backoffMs)
            ==> JudgedUpTo(net, before, after, ids, i + 1, now, backoffMs)
  {
  }

  lemma AllJudged(net: Network, before: Table, after: Table, ids: seq<int>, now: int, backoffMs: nat)
    requires JudgedUpTo(net, before, after, ids, |ids|, now, backoffMs)
    ensures forall id :: id in ids ==>
      id in before && id in after && Judged(net, id, before[id], after[id], now, backoffMs)
  {
  }

  /** What the receipt check makes of a submitted job. */
  ghost predicate ReceiptEnds(net: Network, id: int, j: Job, j': Job, now: int) {
    && (j'.status == Claimed <==> WentThrough(net, id, j))
    && (j'.attempts == j.attempts + 1 <==> WentWrong(net, id, j, now))
    && (WentWrong(net, id, j, now) ==> j'.status == if j'.attempts < j.maxAttempts then Retry else Failed)
    && (!WentWrong(net, id, j, now) ==> j'.attempts == j.attempts)
    && (!WentThrough(net, id, j) && !WentWrong(net, id, j, now) ==> j' == j)
  }

  lemma JudgedEnds(net: Network, id: int, j: Job, j': Job, now: int, backoffMs: nat)
    requires Judged(net, id, j, j', now, backoffMs) && j.status == Submitted
    ensures ReceiptEnds(net, id, j, j', now)
    ensures VerdictOf(net, id, j, now).Confirm? <==> WentThrough(net, id, j)
  {
    VerdictIs(net, id, j, now);
  }

  function Picked(ids: seq<int>, p: int -> bool): set<int> {
    set id | id in ids && p(id)
  }

  lemma PickedMore(front: seq<int>, last: int, p: int -> bool)
    requires last !in front
    ensures Picked(front + [last], p) == if p(last) then Picked(front, p) + {last} else Picked(front, p)
    ensures last !in Picked(front, p)
  {
    var ids := front + [last];
    assert forall id :: id in ids <==> id in front || id == last;
  }

  lemma LastIsNew(ids: seq<int>)
    requires Distinct(ids) && ids != []
    ensures
      var front, last := ids[..|ids| - 1], ids[|ids| - 1];
      ids == front + [last] && last !in front && Distinct(front)
  {
  }

  lemma {:induction false} PickSize(ids: seq<int>, p: int -> bool)
    requires Distinct(ids)
    ensures |Pick(ids, p, true)| == |Picked(ids, p)|
  {
    if ids != [] {
      var front, last := ids[..|ids| - 1], ids[|ids| - 1];
      LastIsNew(ids);
      PickSize(front, p);
      PickedMore(front, last, p);
    }
  }

  /** A receipt check that came to its end: the oldest fifty submitted jobs were listed, how each of them ends, and how
      many were claimed. */
  ghost predicate ReceiptsEnd(net: Network, before: Table, after: Table, ids: seq<int>, now: int, confirmed: nat) {
    && FirstSubmitted(before, 50, ids)
    && (forall id :: id in ids ==> id in before && id in after && ReceiptEnds(net, id, before[id], after[id], now))
    && confirmed == |set id | id in ids && id in before && WentThrough(net, id, before[id])|
  }

  lemma CheckEnds(cfg: Config, net: Network, before: Table, after: Table, ids: seq<int>, now: int)
    requires Checked(cfg, net, before, after, ids, now)
    ensures ReceiptsEnd(net, before, after, ids, now, |Pick(ids, Confirms(net, before, now), true)|)
  {
    SubmittedRows(before, ids);
    InFlightIsSubmitted(before, 50, ids);
    PickSize(ids, Confirms(net, before, now));
    forall id | id in ids
      ensures id in before && id in after && ReceiptEnds(net, id, before[id], after[id], now)
      ensures Confirms(net, before, now)(id) <==> id in before && WentThrough(net, id, before[id])
    {
      JudgedEnds(net, id, before[id], after[id], now, cfg.retryBackoffMs);
    }
    assert Picked(ids, Confirms(net, before, now))
        == (set id | id in ids && id in before && WentThrough(net, id, before[id]));
  }

  lemma JudgedCalms(net: Network, id: int, j: Job, j': Job, now: int, backoffMs: nat)
    requires Judged(net, id, j, j', now, backoffMs) && WithinAttempts(j) && j.status == Submitted
    ensures RowCalms(j, j') && RowSpends(j, j', 0)
  {
  }

  /** However many receipts were handled, and even if the last statement failed, the table is quiet. */
  lemma ReceiptsAreQuiet(net: Network, before: Table, after: Table, ids: seq<int>, n: nat, now: int, backoffMs: nat)
    requires WellFormed(before) && Rows(before, ids)
    requires forall id :: id in ids ==> id in before && before[id].status == Submitted
    requires HandledUpTo(net, before, after, ids, n, now, backoffMs)
    ensures Quiet(before, after, {}, {}) && OnlyChanges(before, after, ids)
  {
    forall id | id in before
      ensures after[id] == before[id]
           || (before[id].status == Submitted && RowCalms(before[id], after[id]) && RowSpends(before[id], after[id], 0))
    {
      if id in ids[..n] {
        var k :| 0 <= k < n && ids[k] == id;
        assert ReceiptHandled(net, ids[k], before, after, now, backoffMs);
        assert id in ids;
        if after[id] != before[id] { JudgedCalms(net, id, before[id], after[id], now, backoffMs); }
      }
    }
    RowsCalm(before, after);
    assert forall id :: id in ids[..n] ==> id in ids;
  }

  // The submission pass

  /** Every row of `ids` is where a pass may leave it, and nothing else has changed. */
  ghost predicate Passing(before: Table, after: Table, ids: seq<int>, answer: int -> Submission, backoffMs: nat) {
    && OnlyChanges(before, after, ids)
    && (forall id :: id in ids && id in before ==> MidPass(before[id], after[id], answer(id), backoffMs))
  }

  /** Every row of `ids` was left in processing, and nothing else has changed. */
  ghost predicate Stranded(before: Table, after: Table, ids: seq<int>) {
    && OnlyChanges(before, after, ids)
    && (forall id :: id in ids ==> id in before && after[id] == MarkedProcessing(before[id], after[id].updatedAt))
  }

  /** A whole pass: exactly the planned jobs are touched, each ends as its answer says, all others are as before. */
  ghost predicate PassDone(cfg: Config, net: Network, before: Table, after: Table, ids: seq<int>, processed: nat) {
    var touched := Touched(cfg, net, before, ids);
    && processed == |touched| && before.Keys == after.Keys
    && (forall id :: id in touched ==>
          id in before && Done(before[id], after[id], Answer(cfg, net, before, ids, id), cfg.retryBackoffMs))
    && (forall id :: id in before && id !in touched ==> after[id] == before[id])
  }

  /** The record of a pass: when and what it listed, how many jobs it reports, what it sent, and when a rate limit
      ended it. */
  datatype Pass = Pass(at: int, listed: seq<int>, processed: nat, sent: multiset<int>, limitedAt: Option<int>)

  const NO_PASS := Pass(0, [], 0, multiset{}, None)

  /** What goes out first: the batch, or else the first of the one-by-one jobs. */
  function FirstOut(cfg: Config, t: Table, ids: seq<int>): seq<int> {
    var batch, singles := BatchOf(cfg, t, ids), SinglesOf(cfg, t, ids);
    if batch != [] then batch else if singles != [] then [singles[0]] else []
  }

  /** How a pass ends when nothing fails but the batch's gas price or contract, or the recording of submissions. */
  ghost predicate EndsAs(cfg: Config, net: Network, before: Table, after: Table, ids: seq<int>, sent: multiset<int>,
                         ok: bool) {
    var batch, out := BatchOf(cfg, before, ids), FirstOut(cfg, before, ids);
    && (Reliable(net.db) && (batch == [] || CanBatch(net)) ==> ok)
    && (Reliable(net.db) && batch != [] && !CanBatch(net) ==>
          !ok && sent == multiset{} && Stranded(before, after, batch))
    && (LosesRecords(net.db) && (batch == [] || CanBatch(net)) && out != []
        && Answer(cfg, net, before, ids, out[0]).Accepted? ==>
          !ok && sent == multiset(out) && Stranded(before, after, out))
  }

  lemma EndsByBatch(cfg: Config, net: Network, before: Table, after: Table, ids: seq<int>, sent: multiset<int>)
    requires
      var batch := BatchOf(cfg, before, ids);
      && batch != [] && !(Reliable(net.db) && CanBatch(net))
      && (Reliable(net.db) && !CanBatch(net) ==> sent == multiset{} && Stranded(before, after, batch))
      && (LosesRecords(net.db) && CanBatch(net) && net.batch.Accepted? ==>
            sent == multiset(batch) && Stranded(before, after, batch))
    ensures EndsAs(cfg, net, before, after, ids, sent, false)
  {
    assert BatchOf(cfg, before, ids)[0] in BatchOf(cfg, before, ids);
  }

  lemma EndsBySingles(cfg: Config, net: Network, before: Table, mid: Table, after: Table, ids: seq<int>,
                      sent: multiset<int>, ok: bool)
    requires
      var batch, singles := BatchOf(cfg, before, ids), SinglesOf(cfg, before, ids);
      && (batch == [] ==> mid == before)
      && (batch != [] ==> !(Reliable(net.db) && !CanBatch(net))
                          && !(LosesRecords(net.db) && CanBatch(net) && net.batch.Accepted?))
      && (Reliable(net.db) ==> ok)
      && (LosesRecords(net.db) && batch == [] && singles != [] && net.submit(singles[0]).Accepted? ==>
            !ok && sent == multiset{singles[0]} && Stranded(mid, after, [singles[0]]))
    ensures EndsAs(cfg, net, before, after, ids, sent, ok)
  {
    var batch := BatchOf(cfg, before, ids);
    assert batch != [] ==> batch[0] in batch;
  }

  lemma PassingKeeps(before: Table, after: Table, ids: seq<int>, answer: int -> Submission, backoffMs: nat)
    requires Passing(before, after, ids, answer, backoffMs) && WellFormed(before)
    requires forall id :: id in ids ==> id in before && (before[id].status == Pending || before[id].status == Retry)
    ensures WellFormed(after) && Settles(before, after)
  {
    forall id | id in after ensures WithinAttempts(after[id]) && PositionOf(after[id]) == PositionOf(before[id]) {
      if id in ids { assert MidPass(before[id], after[id], answer(id), backoffMs); }
    }
  }

  /** A job that was submitted, whether or not the outcome was recorded, has paid for it. */
  lemma SentRowSpends(j: Job, j': Job, s: Submission, backoffMs: nat)
    requires Submittable(j) && (j' == MarkedProcessing(j, j'.updatedAt) || Done(j, j', s, backoffMs))
    ensures RowSpends(j, j', 1)
  {
  }

  ghost predicate AllSubmittable(t: Table, ids: seq<int>) {
    forall id :: id in ids ==> id in t && Submittable(t[id])
  }

  lemma OneSpends(before: Table, after: Table, id: int, n: nat)
    requires id in before && OnlyChanges(before, after, [id]) && RowSpends(before[id], after[id], n)
    ensures Spends(before, after, multiset{}[id := n])
  {
    forall x | x in before ensures x in after && RowSpends(before[x], after[x], (multiset{}[id := n])[x]) {
      if x != id { assert x !in [id]; }
    }
  }

  /** A batch that was not sent costs nothing. */
  lemma UnsentSpends(before: Table, after: Table, ids: seq<int>)
    requires Rows(before, ids) && AllSubmittable(before, ids) && OnlyChanges(before, after, ids)
    requires forall id :: id in ids ==>
      id in before && (after[id] == before[id] || after[id] == MarkedProcessing(before[id], after[id].updatedAt))
    ensures Spends(before, after, multiset{})
  {
    forall id | id in before ensures id in after && RowSpends(before[id], after[id], 0) {
      if id in ids { assert Submittable(before[id]); }
    }
  }

  lemma BatchSpends(before: Table, after: Table, ids: seq<int>, s: Submission, backoffMs: nat)
    requires Rows(before, ids) && AllSubmittable(before, ids) && OnlyChanges(before, after, ids)
    requires forall id :: id in ids ==>
      && id in before
      && (after[id] == MarkedProcessing(before[id], after[id].updatedAt) || Done(before[id], after[id], s, backoffMs))
    ensures Spends(before, after, multiset(ids))
  {
    forall id | id in before ensures id in after && RowSpends(before[id], after[id], multiset(ids)[id]) {
      if id in ids {
        DistinctCountsOne(ids, id);
        SentRowSpends(before[id], after[id], s, backoffMs);
      }
    }
  }

  lemma NotYetTouched(before: Table, mid: Table, ids: seq<int>, i: nat)
    requires Rows(before, ids) && i < |ids| && OnlyChanges(before, mid, ids[..i])
    ensures forall k :: i <= k < |ids| ==> ids[k] in mid && mid[ids[k]] == before[ids[k]]
  {
    forall k | i <= k < |ids| ensures ids[k] in mid && mid[ids[k]] == before[ids[k]] {
      var id := ids[k];
      assert id in before && id !in ids[..i];
    }
  }

  lemma EarlierKept(mid: Table, after: Table, ids: seq<int>, i: nat)
    requires Rows(mid, ids) && i < |ids| && OnlyChanges(mid, after, [ids[i]])
    ensures forall k :: 0 <= k < |ids| && k != i ==> ids[k] in after && after[ids[k]] == mid[ids[k]]
  {
    forall k | 0 <= k < |ids| && k != i ensures ids[k] in after && after[ids[k]] == mid[ids[k]] {
      var id := ids[k];
      assert id in mid && id !in [ids[i]];
    }
  }

  lemma StillOnly(before: Table, mid: Table, after: Table, ids: seq<int>, i: nat)
    requires i < |ids| && OnlyChanges(before, mid, ids) && OnlyChanges(mid, after, [ids[i]])
    ensures OnlyChanges(before, after, ids)
  {
  }

  lemma {:induction false} PickNone(ids: seq<int>, p: int -> bool)
    requires forall id :: !p(id)
    ensures Pick(ids, p, true) == [] && Pick(ids, p, false) == ids
  {
    if ids != [] {
      PickNone(ids[..|ids| - 1], p);
      assert ids == ids[..|ids| - 1] + [ids[|ids| - 1]];
    }
  }

  lemma PickNext(ids: seq<int>, p: int -> bool, i: nat)
    requires i < |ids|
    ensures forall keep ::
      Pick(ids[..i + 1], p, keep) == Pick(ids[..i], p, keep) + if p(ids[i]) == keep then [ids[i]] else []
  {
    assert ids[..i + 1][..i] == ids[..i];
  }

  ghost predicate Listed(t: Table, ids: seq<int>) {
    Rows(t, ids) && WellFormed(t) && AllSubmittable(t, ids)
  }

  lemma ListedRows(t: Table, now: int, limit: nat, ids: seq<int>)
    requires FirstRows(DueRows(t, now), DueRank(t), limit, ids) && WellFormed(t)
    ensures Listed(t, ids)
  {
    forall id | id in ids ensures id in t && Submittable(t[id]) { assert id in DueRows(t, now); }
  }

  lemma DistinctHalves<T>(xs: seq<T>, ys: seq<T>)
    requires Distinct(xs + ys)
    ensures Distinct(xs) && Distinct(ys) && forall x :: x in xs ==> x !in ys
  {
    var both := xs + ys;
    assert forall i :: 0 <= i < |xs| ==> both[i] == xs[i];
    assert forall i :: 0 <= i < |ys| ==> both[|xs| + i] == ys[i];
    forall i, j | 0 <= i < j < |ys| ensures ys[i] != ys[j] {
      assert both[|xs| + i] == ys[i] && both[|xs| + j] == ys[j];
    }
    forall x | x in xs ensures x !in ys {
      var i :| 0 <= i < |xs| && xs[i] == x;
      assert forall j :: 0 <= j < |ys| ==> both[|xs| + j] == ys[j] && both[i] != both[|xs| + j];
    }
  }

  lemma PlanRows(cfg: Config, t: Table, ids: seq<int>)
    requires Rows(t, ids)
    ensures Rows(t, BatchOf(cfg, t, ids)) && Rows(t, SinglesOf(cfg, t, ids))
    ensures forall id :: id in BatchOf(cfg, t, ids) ==> id in ids && id !in SinglesOf(cfg, t, ids)
    ensures forall id :: id in SinglesOf(cfg, t, ids) ==> id in ids
  {
    var batch, singles := BatchOf(cfg, t, ids), SinglesOf(cfg, t, ids);
    PlanIsDistinct(cfg, t, ids);
    DistinctHalves(batch, singles);
    forall id | id in batch || id in singles ensures id in ids && id in t {
      assert id in batch + singles;
      var k :| 0 <= k < |ids| && ids[k] == id;
    }
    forall k | 0 <= k < |batch| ensures batch[k] in t { assert batch[k] in batch; }
    forall k | 0 <= k < |singles| ensures singles[k] in t { assert singles[k] in singles; }
  }

  /** The first `n` jobs were submitted and nothing else has changed. */
  ghost predicate DoneUpTo(net: Network, before: Table, after: Table, ids: seq<int>, n: nat, backoffMs: nat) {
    && n <= |ids| && Rows(before, ids) && OnlyChanges(before, after, ids[..n])
    && (forall k :: 0 <= k < n ==> Done(before[ids[k]], after[ids[k]], net.submit(ids[k]), backoffMs))
  }

  /** None of the first `n` jobs is rate limited. */
  ghost predicate UnlimitedUpTo(net: Network, ids: seq<int>, n: int) {
    n <= |ids| && forall k :: 0 <= k < n ==> !RateLimited(net.submit(ids[k]))
  }

  lemma OneMoreDone(net: Network, before: Table, mid: Table, after: Table, ids: seq<int>, i: nat, backoffMs: nat)
    requires DoneUpTo(net, before, mid, ids, i, backoffMs) && i < |ids|
    requires OnlyChanges(mid, after, [ids[i]]) && Done(mid[ids[i]], after[ids[i]], net.submit(ids[i]), backoffMs)
    ensures DoneUpTo(net, before, after, ids, i + 1, backoffMs)
  {
    NotYetTouched(before, mid, ids, i);
    EarlierKept(mid, after, ids, i);
    assert ids[..i + 1] == ids[..i] + [ids[i]];
  }

  lemma JobSpends(before: Table, mid: Table, after: Table, ids: seq<int>, i: nat, sent: multiset<int>, one: nat)
    requires i < |ids| && ids[i] in before && ids[i] in mid && mid[ids[i]] == before[ids[i]]
    requires OnlyChanges(mid, after, [ids[i]])
    requires Submittable(mid[ids[i]]) ==> RowSpends(mid[ids[i]], after[ids[i]], one)
    requires AllSubmittable(before, ids) ==> Spends(before, mid, sent)
    ensures AllSubmittable(before, ids) ==> Spends(before, after, sent + multiset{}[ids[i] := one])
  {
    if AllSubmittable(before, ids) {
      assert ids[i] in ids;
      OneSpends(mid, after, ids[i], one);
      SpendsCompose(before, mid, after, sent, multiset{}[ids[i] := one]);
    }
  }

  lemma SentMore(ids: seq<int>, i: nat, one: nat) returns (sent: multiset<int>)
    requires i < |ids|
    ensures sent == multiset(ids[..i]) + multiset{}[ids[i] := one]
    ensures one == 1 ==> sent == multiset(ids[..i + 1])
    ensures i == 0 && one == 1 ==> sent == multiset{ids[0]}
    ensures forall id :: id in sent ==> id in ids
  {
    sent := multiset(ids[..i]) + multiset{}[ids[i] := one];
    CountLast(ids[..i], ids[i]);
    assert ids[..i + 1] == ids[..i] + [ids[i]];
    assert multiset{}[ids[i] := 1] == multiset{ids[i]};
    forall id | id in sent ensures id in ids {
      if id in multiset(ids[..i]) { assert id in ids[..i]; } else { assert id == ids[i]; }
    }
  }

  /** What the loop over one-by-one jobs has done when it is over. */
  ghost predicate EachDone(net: Network, before: Table, after: Table, ids: seq<int>, processed: nat, rateLimited: bool,
                           sent: multiset<int>, backoffMs: nat) {
    var touched := UntilLimited(net, ids);
    && processed == |touched| && rateLimited == EndsLimited(net, touched) && sent == multiset(touched)
    && before.Keys == after.Keys
    && (forall id :: id in touched ==> id in before && Done(before[id], after[id], net.submit(id), backoffMs))
    && (forall id :: id in after && id !in touched ==> after[id] == before[id])
  }

  lemma DoneInPrefix(net: Network, before: Table, after: Table, ids: seq<int>, i: nat, backoffMs: nat)
    requires DoneUpTo(net, before, after, ids, i, backoffMs)
    ensures forall id :: id in ids[..i] ==> id in before && Done(before[id], after[id], net.submit(id), backoffMs)
    ensures forall id :: id in multiset(ids[..i]) ==> id in ids
  {
    forall id | id in ids[..i] ensures id in before && Done(before[id], after[id], net.submit(id), backoffMs) {
      var k :| 0 <= k < i && ids[k] == id;
    }
    forall id | id in multiset(ids[..i]) ensures id in ids { assert id in ids[..i]; }
  }

  /** Where the one-by-one loop stops. */
  lemma {:induction false} LimitedAt(net: Network, ids: seq<int>, i: nat)
    requires i <= |ids|
    requires forall k :: 0 <= k < i - 1 ==> !RateLimited(net.submit(ids[k]))
    requires i == |ids| || (i > 0 && RateLimited(net.submit(ids[i - 1])))
    ensures UntilLimited(net, ids) == ids[..i]
  {
    if i > 0 {
      if !RateLimited(net.submit(ids[0])) {
        assert forall k :: 0 <= k < i - 2 ==> ids[1..][k] == ids[k + 1];
        LimitedAt(net, ids[1..], i - 1);
        assert ids[..i] == [ids[0]] + ids[1..][..i - 1];
      }
    }
  }

  lemma LoopIsOver(net: Network, before: Table, after: Table, ids: seq<int>, i: nat, rateLimited: bool, backoffMs: nat)
    requires DoneUpTo(net, before, after, ids, i, backoffMs) && UnlimitedUpTo(net, ids, i - 1)
    requires rateLimited == (i > 0 && RateLimited(net.submit(ids[i - 1]))) && (i == |ids| || rateLimited)
    ensures EachDone(net, before, after, ids, i, rateLimited, multiset(ids[..i]), backoffMs)
    ensures Passing(before, after, ids, net.submit, backoffMs)
    ensures forall id :: id in multiset(ids[..i]) ==> id in ids
  {
    LimitedAt(net, ids, i);
    DoneInPrefix(net, before, after, ids, i, backoffMs);
  }

  ghost predicate FinishedUpTo(net: Network, before: Table, after: Table, ids: seq<int>, i: nat, rateLimited: bool,
                               sent: multiset<int>, backoffMs: nat) {
    && DoneUpTo(net, before, after, ids, i, backoffMs) && UnlimitedUpTo(net, ids, i - 1)
    && sent == multiset(ids[..i]) && rateLimited == (i > 0 && RateLimited(net.submit(ids[i - 1])))
  }

  ghost predicate StrandedFirst(before: Table, after: Table, ids: seq<int>, sent: multiset<int>) {
    ids != [] && sent == multiset{ids[0]} && Stranded(before, after, [ids[0]])
  }

  /** What the one-by-one loop has done once `i` jobs are finished and, if not `ok`, a statement of the next failed. */
  ghost predicate Submitting(net: Network, before: Table, after: Table, ids: seq<int>, i: nat, ok: bool,
                             rateLimited: bool, sent: multiset<int>, backoffMs: nat) {
    && i <= |ids|
    && (if ok then FinishedUpTo(net, before, after, ids, i, rateLimited, sent, backoffMs)
        else Passing(before, after, ids, net.submit, backoffMs) && forall id :: id in sent ==> id in ids)
    && (AllSubmittable(before, ids) ==> Spends(before, after, sent))
    && (LosesRecords(net.db) && ids != [] && net.submit(ids[0]).Accepted? && (i > 0 || !ok) ==>
          !ok && StrandedFirst(before, after, ids, sent))
  }

  lemma FinishedOneMore(net: Network, before: Table, mid: Table, after: Table, ids: seq<int>, i: nat,
                        done: multiset<int>, sent: multiset<int>, rateLimited: bool, backoffMs: nat)
    requires i < |ids| && FinishedUpTo(net, before, mid, ids, i, false, done, backoffMs)
    requires OnlyChanges(mid, after, [ids[i]]) && Done(mid[ids[i]], after[ids[i]], net.submit(ids[i]), backoffMs)
    requires rateLimited == RateLimited(net.submit(ids[i])) && sent == multiset(ids[..i + 1])
    ensures FinishedUpTo(net, before, after, ids, i + 1, rateLimited, sent, backoffMs)
  {
    OneMoreDone(net, before, mid, after, ids, i, backoffMs);
  }

  lemma NothingSubmitted(net: Network, t: Table, ids: seq<int>, backoffMs: nat)
    requires Rows(t, ids)
    ensures Submitting(net, t, t, ids, 0, true, false, multiset{}, backoffMs)
  {
    assert multiset(ids[..0]) == multiset{};
  }

  lemma FirstStrands(before: Table, mid: Table, after: Table, ids: seq<int>)
    requires ids != [] && ids[0] in before && OnlyChanges(before, mid, ids[..0]) && OnlyChanges(mid, after, [ids[0]])
    requires after[ids[0]] == MarkedProcessing(mid[ids[0]], after[ids[0]].updatedAt)
    ensures Stranded(before, after, [ids[0]])
  {
    forall id | id in before ensures id in mid && mid[id] == before[id] { assert id !in ids[..0]; }
    assert before == mid;
  }

  /** A pass interrupted inside its `i`-th job has left the earlier ones done and the later ones alone. */
  lemma StepPassing(net: Network, ids: seq<int>, i: nat, before: Table, mid: Table, after: Table, backoffMs: nat)
    requires i < |ids| && Rows(before, ids)
    requires OnlyChanges(before, mid, ids[..i]) && OnlyChanges(mid, after, [ids[i]])
    requires forall k :: 0 <= k < i ==> Done(before[ids[k]], mid[ids[k]], net.submit(ids[k]), backoffMs)
    requires MidPass(before[ids[i]], after[ids[i]], net.submit(ids[i]), backoffMs)
    ensures Passing(before, after, ids, net.submit, backoffMs)
  {
  }

  /** One turn of the one-by-one loop: what submitting the `i`-th job did, and what that makes of the whole. */
  lemma SubmittingNext(net: Network, before: Table, mid: Table, after: Table, ids: seq<int>, i: nat,
                       done: multiset<int>, ok: bool, rateLimited: bool, one: nat, backoffMs: nat)
      returns (sent: multiset<int>)
    requires i < |ids| && Submitting(net, before, mid, ids, i, true, false, done, backoffMs)
    requires OnlyChanges(mid, after, [ids[i]]) && MidPass(mid[ids[i]], after[ids[i]], net.submit(ids[i]), backoffMs)
    requires ok ==> Done(mid[ids[i]], after[ids[i]], net.submit(ids[i]), backoffMs)
    requires ok ==> rateLimited == RateLimited(net.submit(ids[i])) && one == 1
    requires Submittable(mid[ids[i]]) ==> RowSpends(mid[ids[i]], after[ids[i]], one)
    requires LosesRecords(net.db) && net.submit(ids[i]).Accepted? ==>
      !ok && one == 1 && after[ids[i]] == MarkedProcessing(mid[ids[i]], after[ids[i]].updatedAt)
    ensures Submitting(net, before, after, ids, if ok then i + 1 else i, ok, rateLimited, sent, backoffMs)
  {
    NotYetTouched(before, mid, ids, i);
    JobSpends(before, mid, after, ids, i, done, one);
    sent := SentMore(ids, i, one);
    StepPassing(net, ids, i, before, mid, after, backoffMs);
    if ok { FinishedOneMore(net, before, mid, after, ids, i, done, sent, rateLimited, backoffMs); }
    if i == 0 && LosesRecords(net.db) && net.submit(ids[0]).Accepted? { FirstStrands(before, mid, after, ids); }
  }

  /** What an interrupted or finished pass means for the table as a whole. */
  ghost predicate PassKeeps(before: Table, after: Table, ids: seq<int>) {
    OnlyChanges(before, after, ids) && WellFormed(after) && Settles(before, after)
  }

  lemma BatchPassed(before: Table, after: Table, ids: seq<int>, batch: seq<int>, s: Submission, backoffMs: nat)
    requires Listed(before, ids) && (forall id :: id in batch ==> id in ids)
    requires Passing(before, after, batch, _ => s, backoffMs)
    ensures PassKeeps(before, after, ids)
  {
    PassingKeeps(before, after, batch, _ => s, backoffMs);
  }

  lemma SinglesPassed(before: Table, mid: Table, after: Table, ids: seq<int>, batch: seq<int>, singles: seq<int>,
                      net: Network, backoffMs: nat)
    requires Listed(before, ids) && PassKeeps(before, mid, ids) && OnlyChanges(before, mid, batch)
    requires forall id :: id in singles ==> id in ids && id !in batch
    requires Passing(mid, after, singles, net.submit, backoffMs)
    ensures PassKeeps(before, after, ids)
  {
    forall id | id in singles ensures id in mid && (mid[id].status == Pending || mid[id].status == Retry) {
      assert id in before && id !in batch;
    }
    PassingKeeps(mid, after, singles, net.submit, backoffMs);
  }

  /** The batch and the one-by-one part pay for different jobs. */
  lemma SinglesSpend(before: Table, mid: Table, after: Table, ids: seq<int>, batch: seq<int>, singles: seq<int>,
                     sent: multiset<int>, more: multiset<int>)
    requires Listed(before, ids) && OnlyChanges(before, mid, batch) && Spends(before, mid, sent)
    requires forall id :: id in singles ==> id in ids && id !in batch
    requires AllSubmittable(mid, singles) ==> Spends(mid, after, more)
    ensures Spends(before, after, sent + more)
  {
    forall id | id in singles ensures id in mid && Submittable(mid[id]) {
      assert id in before && id !in batch;
    }
    SpendsCompose(before, mid, after, sent, more);
  }

  /** The batch and the one-by-one part make up the planned pass. */
  lemma PassComposes(cfg: Config, net: Network, before: Table, mid: Table, after: Table, ids: seq<int>)
    requires Rows(before, ids)
    requires
      var batch, singles := BatchOf(cfg, before, ids), SinglesOf(cfg, before, ids);
      var touched := UntilLimited(net, singles);
      && OnlyChanges(before, mid, batch) && mid.Keys == after.Keys
      && (forall k :: 0 <= k < |batch| ==>
            batch[k] in before && Done(before[batch[k]], mid[batch[k]], net.batch, cfg.retryBackoffMs))
      && (forall id :: id in touched ==> id in mid && Done(mid[id], after[id], net.submit(id), cfg.retryBackoffMs))
      && (forall id :: id in after && id !in touched ==> after[id] == mid[id])
    ensures
      var singles := UntilLimited(net, SinglesOf(cfg, before, ids));
      PassDone(cfg, net, before, after, ids, |BatchOf(cfg, before, ids)| + |singles|)
  {
    var batch, singles := BatchOf(cfg, before, ids), SinglesOf(cfg, before, ids);
    var touched := UntilLimited(net, singles);
    PlanRows(cfg, before, ids);
    UntilLimitedIsPrefix(net, singles);
    assert forall id :: id in touched ==> id in singles;
    forall id | id in batch + touched
      ensures id in before && Done(before[id], after[id], Answer(cfg, net, before, ids, id), cfg.retryBackoffMs)
    {
      if id in batch {
        var k :| 0 <= k < |batch| && batch[k] == id;
        assert id !in touched;
      } else {
        assert id in touched;
      }
    }
  }

  /** A pass whose batch, if any, went through: the one-by-one part decides how it ends. */
  lemma PassEnds(cfg: Config, net: Network, before: Table, mid: Table, after: Table, ids: seq<int>, batched: nat,
                 sent: multiset<int>, ok: bool, each: nat, rateLimited: bool, more: multiset<int>)
    requires Listed(before, ids) && PassKeeps(before, mid, ids)
    requires OnlyChanges(before, mid, BatchOf(cfg, before, ids)) && Spends(before, mid, sent)
    requires
      var batch := BatchOf(cfg, before, ids);
      && batched == |batch| && sent == multiset(batch)
      && (forall k :: 0 <= k < |batch| ==>
            batch[k] in before && Done(before[batch[k]], mid[batch[k]], net.batch, cfg.retryBackoffMs))
      && (batch == [] ==> mid == before)
      && (batch != [] ==> !(Reliable(net.db) && !CanBatch(net))
                          && !(LosesRecords(net.db) && CanBatch(net) && net.batch.Accepted?))
    requires
      var singles := SinglesOf(cfg, before, ids);
      && Passing(mid, after, singles, net.submit, cfg.retryBackoffMs)
      && (ok ==> EachDone(net, mid, after, singles, each, rateLimited, more, cfg.retryBackoffMs))
      && (AllSubmittable(mid, singles) ==> Spends(mid, after, more))
      && (forall id :: id in more ==> id in singles)
      && (Reliable(net.db) ==> ok)
      && (LosesRecords(net.db) && singles != [] && net.submit(singles[0]).Accepted? ==>
            !ok && more == multiset{singles[0]} && Stranded(mid, after, [singles[0]]))
    ensures PassKeeps(before, after, ids) && Spends(before, after, sent + more)
    ensures forall id :: id in sent + more ==> id in ids
    ensures ok ==>
      && PassDone(cfg, net, before, after, ids, batched + each)
      && sent + more == multiset(Touched(cfg, net, before, ids))
      && rateLimited == EndsLimited(net, UntilLimited(net, SinglesOf(cfg, before, ids)))
    ensures EndsAs(cfg, net, before, after, ids, sent + more, ok)
  {
    var batch, singles := BatchOf(cfg, before, ids), SinglesOf(cfg, before, ids);
    PlanRows(cfg, before, ids);
    SinglesPassed(before, mid, after, ids, batch, singles, net, cfg.retryBackoffMs);
    SinglesSpend(before, mid, after, ids, batch, singles, sent, more);
    if ok { PassComposes(cfg, net, before, mid, after, ids); }
    EndsBySingles(cfg, net, before, mid, after, ids, sent + more, ok);
    forall id | id in sent + more ensures id in ids { if id in sent { assert id in batch; } }
  }

  // A whole tick

  /** What recovery, discovery and the receipt check of one tick left, with their times. */
  datatype Stages = Stages(recoveredAt: int, recovered: Table, now: int, discovered: Table,
                           checkedAt: int, receipts: seq<int>, checked: Table)

  ghost predicate Prepared(cfg: Config, net: Network, before: Table, recovering: bool, nextDiscovery: int, s: Stages) {
    && (if recovering then Recovered(before, s.recovered, s.recoveredAt) else s.recovered == before)
    && (if s.now >= nextDiscovery
        then && net.found.Some?
             && Discovered(Max(cfg.maxAttempts, 1), net.found.value, s.recovered, s.discovered, net.found.value.Keys)
        else s.discovered == s.recovered)
    && WellFormed(s.discovered) && Checked(cfg, net, s.discovered, s.checked, s.receipts, s.checkedAt)
  }

  function NextDiscovery(cfg: Config, now: int, nextDiscovery: int): int {
    if now >= nextDiscovery then now + 1000 * cfg.discoveryIntervalSec else nextDiscovery
  }

  /** When the parts of a tick ran: recovery after its own wait, and every upsert after the clock was read. */
  ghost predicate PrepareTimes(net: Network, clock: int, count: nat, recovering: bool, s: Stages, found: set<Position>,
                               end: int) {
    && s.recoveredAt == clock + (if recovering then net.db(count, Recover).waitMs else 0)
    && s.now == s.recoveredAt + net.db(count + (if recovering then 1 else 0), ReadClock).waitMs
    && s.now <= s.checkedAt <= end && Stamped(s.discovered, found, s.now, s.checkedAt)
  }

  /** A pass starts exactly if there is a free slot and the cooldown is over. */
  ghost predicate Starts(cfg: Config, before: Table, now: int, next: int) {
    now >= next && |InFlight(before)| < if cfg.mode == Direct then Max(cfg.processBatchSize, 1) else 1
  }

  /** The pass of a tick: it lists the first due jobs that fit into the free slots. */
  ghost predicate PassListed(cfg: Config, before: Table, since: int, pass: Pass) {
    && |InFlight(before)| < Cap(cfg) && since <= pass.at
    && FirstRows(DueRows(before, pass.at), DueRank(before), Cap(cfg) - |InFlight(before)|, pass.listed)
  }

  /** The record of one tick. `recovered` are the jobs it recovered, `found` the positions it upserted, `sent` the jobs
      it submitted; `started` is when its submission pass began, `limitedAt` when a rate limit ended it. */
  datatype Tick = Tick(cfg: Config, before: Table, after: Table, recovering: bool, recovered: set<int>,
                       found: set<Position>, sent: multiset<int>, started: Option<int>, limitedAt: Option<int>,
                       nextBefore: int, nextAfter: int)

  /** The job is new, was found again, or was recovered. */
  predicate Renewed(x: Tick, id: int) {
    id !in x.before || id in x.recovered || PositionOf(x.before[id]) in x.found
  }

  predicate TickSpends(x: Tick, id: int)
    requires id in x.after
  {
    if Renewed(x, id) then Left(x.after[id]) + x.sent[id] <= x.after[id].maxAttempts
    else RowSpends(x.before[id], x.after[id], x.sent[id])
  }

  ghost predicate TickOk(x: Tick) {
    && (WellFormed(x.before) ==> WellFormed(x.after))
    && (forall id :: id in x.before ==> id in x.after && x.before[id].maxAttempts <= x.after[id].maxAttempts)
    && (forall id :: id in x.before && x.before[id].status == Claimed ==> x.after[id].status == Claimed)
    && Waits(x.before, x.after, x.recovered)
    && (forall id :: id in x.recovered ==> x.recovering && id in x.before && x.before[id].status == Processing)
    && (forall id :: id in x.sent ==> id in x.after)
    && (forall id :: id in x.after ==> TickSpends(x, id))
    && |InFlight(x.after)| <= Max(|InFlight(x.before)|, Cap(x.cfg))
    && (x.started.None? ==> InFlight(x.after) <= InFlight(x.before) && x.limitedAt.None? && x.sent == multiset{})
    && (x.started.Some? ==> x.started.value >= x.nextBefore)
    && (x.limitedAt.Some? ==> x.started.Some? && x.limitedAt.value >= x.started.value)
    && x.nextAfter == if x.limitedAt.Some? then CooldownUntil(x.limitedAt.value, x.cfg.retryBackoffMs) else x.nextBefore
  }

  /** A quiet first part and a submission pass make a tick. */
  lemma TickComposes(x: Tick, mid: Table)
    requires Quiet(x.before, mid, x.recovered, x.found)
    requires forall id :: id in x.recovered ==> x.recovering && id in x.before && x.before[id].status == Processing
    requires WellFormed(x.after) && Settles(mid, x.after) && mid.Keys == x.after.Keys && Spends(mid, x.after, x.sent)
    requires forall id :: id in x.sent ==> id in mid
    requires |InFlight(x.after)| <= Max(|InFlight(mid)|, Cap(x.cfg))
    requires x.started.None? ==> x.after == mid && x.limitedAt.None? && x.sent == multiset{}
    requires x.started.Some? ==> x.started.value >= x.nextBefore
    requires x.limitedAt.Some? ==> x.started.Some? && x.limitedAt.value >= x.started.value
    requires
      x.nextAfter == if x.limitedAt.Some? then CooldownUntil(x.limitedAt.value, x.cfg.retryBackoffMs) else x.nextBefore
    ensures TickOk(x)
  {
    SubsetSize(InFlight(mid), InFlight(x.before));
    forall id | id in x.after ensures TickSpends(x, id) {
      assert id in mid && RowSpends(mid[id], x.after[id], x.sent[id]);
      if id in x.before { assert x.before[id].maxAttempts <= mid[id].maxAttempts; }
    }
    forall id | id in x.before ensures id in x.after && x.before[id].maxAttempts <= x.after[id].maxAttempts {
      assert id in mid && RowSpends(mid[id], x.after[id], x.sent[id]);
    }
  }
}
