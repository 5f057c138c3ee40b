/** The auto-claim service: one tick recovers, discovers, checks receipts and then runs one submission pass.
    The methods follow `claim.rs` and `claim/batch.rs` statement by statement, with a database that may fail at
    any of them. */
module AutoClaim {
  import opened Common
  import opened Sorting
  import opened ClaimJobs
  import opened ClaimPlan
  import opened RowOrder
  import opened ClaimRepository
  import opened ClaimSteps

  class AutoClaimService {
    const cfg: Config
    const repo: Repository
    var nextDiscoveryAt: int
    var nextSubmissionAt: int
    var needsRecovery: bool

    constructor (cfg: Config, repo: Repository, now: int)
      ensures this.cfg == cfg && this.repo == repo
      ensures needsRecovery && nextDiscoveryAt == now && nextSubmissionAt == now
    {
      this.cfg, this.repo := cfg, repo;
      nextDiscoveryAt, nextSubmissionAt, needsRecovery := now, now, true;
    }

    /** Writes down what became of one submission. */
    method RecordOutcome(db: Weather, id: int, s: Submission) returns (ok: bool)
      requires id in repo.jobs
      modifies repo
      ensures repo.clock >= old(repo.clock) && OnlyChanges(old(repo.jobs), repo.jobs, [id])
      ensures repo.jobs == old(repo.jobs) || Done(old(repo.jobs)[id], repo.jobs[id], s, cfg.retryBackoffMs)
      ensures ok ==> Done(old(repo.jobs)[id], repo.jobs[id], s, cfg.retryBackoffMs)
      ensures Reliable(db) ==> ok
      ensures LosesRecords(db) && s.Accepted? ==> !ok && repo.jobs == old(repo.jobs)
    {
      match s
      case Accepted(tx) =>
        ok := repo.MarkSubmitted(db, id, tx);
      case Refused(message, retryable) =>
        if retryable {
          ok := repo.MarkRetryOrFail(db, id, message, cfg.retryBackoffMs);
        } else {
          ok := repo.MarkFailed(db, id, message);
        }
      if !ok { return; }
      ok := repo.AppendEvent(db, id);
    }

    /** One job: mark it, submit it, record the outcome. `sent` counts the submission. */
    method ProcessSingleJob(net: Network, id: int) returns (ok: bool, rateLimited: bool, ghost sent: nat)
      requires id in repo.jobs
      modifies repo
      ensures repo.clock >= old(repo.clock)
      ensures OnlyChanges(old(repo.jobs), repo.jobs, [id])
      ensures MidPass(old(repo.jobs)[id], repo.jobs[id], net.submit(id), cfg.retryBackoffMs)
      ensures ok ==> Done(old(repo.jobs)[id], repo.jobs[id], net.submit(id), cfg.retryBackoffMs)
      ensures ok ==> rateLimited == RateLimited(net.submit(id)) && sent == 1
      ensures Submittable(old(repo.jobs)[id]) ==> RowSpends(old(repo.jobs)[id], repo.jobs[id], sent)
      ensures Reliable(net.db) ==> ok
      ensures LosesRecords(net.db) && net.submit(id).Accepted? ==>
        !ok && sent == 1 && repo.jobs[id] == MarkedProcessing(old(repo.jobs)[id], repo.jobs[id].updatedAt)
    {
      rateLimited, sent := false, 0;
      ok := repo.MarkProcessing(net.db, id);
      if !ok { return; }
      ok := repo.AppendEvent(net.db, id);
      if !ok { return; }
      sent := 1;
      ghost var marked := repo.jobs;
      ok := RecordOutcome(net.db, id, net.submit(id));
      if Submittable(old(repo.jobs)[id]) {
        SentRowSpends(old(repo.jobs)[id], repo.jobs[id], net.submit(id), cfg.retryBackoffMs);
      }
      rateLimited := RateLimited(net.submit(id));
    }

    /** One turn of the loop below. */
    method ProcessNext(net: Network, ids: seq<int>, i: nat, ghost before: Table, ghost done: multiset<int>)
        returns (ok: bool, rateLimited: bool, ghost sent: multiset<int>)
      requires i < |ids| && Submitting(net, before, repo.jobs, ids, i, true, false, done, cfg.retryBackoffMs)
      modifies repo
      ensures repo.clock >= old(repo.clock)
      ensures
        var finished := if ok then i + 1 else i;
        Submitting(net, before, repo.jobs, ids, finished, ok, rateLimited, sent, cfg.retryBackoffMs)
      ensures Reliable(net.db) ==> ok
    {
      ghost var mid := repo.jobs;
      NotYetTouched(before, mid, ids, i);
      ghost var one;
      ok, rateLimited, one := ProcessSingleJob(net, ids[i]);
      sent := SubmittingNext(net, before, mid, repo.jobs, ids, i, done, ok, rateLimited, one, cfg.retryBackoffMs);
    }

    /** The one-by-one loop, ended by the first rate limit or failed statement. `i`: the jobs it finished. */
    method SubmitUntilLimited(net: Network, ids: seq<int>)
        returns (ok: bool, i: nat, rateLimited: bool, ghost sent: multiset<int>)
      requires Rows(repo.jobs, ids)
      modifies repo
      ensures repo.clock >= old(repo.clock)
      ensures Submitting(net, old(repo.jobs), repo.jobs, ids, i, ok, rateLimited, sent, cfg.retryBackoffMs)
      ensures ok ==> i == |ids| || rateLimited
      ensures !ok ==> i < |ids|
      ensures Reliable(net.db) ==> ok
    {
      ghost var before := repo.jobs;
      ok, i, rateLimited, sent := true, 0, false, multiset{};
      NothingSubmitted(net, before, ids, cfg.retryBackoffMs);
      while ok && i < |ids| && !rateLimited
        invariant repo.clock >= old(repo.clock) && (Reliable(net.db) ==> ok) && (!ok ==> i < |ids|)
        invariant Submitting(net, before, repo.jobs, ids, i, ok, rateLimited, sent, cfg.retryBackoffMs)
        decreases ok, |ids| - i
      {
        ok, rateLimited, sent := ProcessNext(net, ids, i, before, sent);
        if ok { i := i + 1; }
      }
    }

    /** The jobs submitted one by one, with what a pass that was not interrupted has done. */
    method ProcessEach(net: Network, ids: seq<int>)
        returns (ok: bool, processed: nat, rateLimited: bool, ghost sent: multiset<int>)
      requires Rows(repo.jobs, ids)
      modifies repo
      ensures repo.clock >= old(repo.clock)
      ensures Passing(old(repo.jobs), repo.jobs, ids, net.submit, cfg.retryBackoffMs)
      ensures ok ==>
        EachDone(net, old(repo.jobs), repo.jobs, ids, processed, rateLimited, sent, cfg.retryBackoffMs)
      ensures AllSubmittable(old(repo.jobs), ids) ==> Spends(old(repo.jobs), repo.jobs, sent)
      ensures forall id :: id in sent ==> id in ids
      ensures Reliable(net.db) ==> ok
      ensures LosesRecords(net.db) && ids != [] && net.submit(ids[0]).Accepted? ==>
        !ok && sent == multiset{ids[0]} && Stranded(old(repo.jobs), repo.jobs, [ids[0]])
    {
      ghost var before := repo.jobs;
      ok, processed, rateLimited, sent := SubmitUntilLimited(net, ids);
      if ok { LoopIsOver(net, before, repo.jobs, ids, processed, rateLimited, cfg.retryBackoffMs); }
    }

    method PartitionSafeJobs(ids: seq<int>) returns (safe: seq<int>, other: seq<int>)
      requires forall k :: 0 <= k < |ids| ==> ids[k] in repo.jobs
      ensures safe == Pick(ids, SafeOwned(repo.jobs, cfg.safeAddress), true)
      ensures other == Pick(ids, SafeOwned(repo.jobs, cfg.safeAddress), false)
    {
      if cfg.safeAddress.None? {
        PickNone(ids, SafeOwned(repo.jobs, cfg.safeAddress));
        return [], ids;
      }
      safe, other := [], [];
      for i := 0 to |ids|
        invariant safe == Pick(ids[..i], SafeOwned(repo.jobs, cfg.safeAddress), true)
        invariant other == Pick(ids[..i], SafeOwned(repo.jobs, cfg.safeAddress), false)
      {
        assert SafeOwned(repo.jobs, cfg.safeAddress)(ids[i]) == IsSafe(repo.jobs[ids[i]], cfg.safeAddress);
        PickNext(ids, SafeOwned(repo.jobs, cfg.safeAddress), i);
        if IsSafe(repo.jobs[ids[i]], cfg.safeAddress) {
          safe := safe + [ids[i]];
        } else {
          other := other + [ids[i]];
        }
      }
      assert ids[..|ids|] == ids;
    }

    method MarkBatchProcessing(net: Network, ids: seq<int>) returns (ok: bool)
      requires Rows(repo.jobs, ids)
      modifies repo
      ensures repo.clock >= old(repo.clock)
      ensures OnlyChanges(old(repo.jobs), repo.jobs, ids)
      ensures forall k :: 0 <= k < |ids| ==>
        || repo.jobs[ids[k]] == old(repo.jobs)[ids[k]]
        || repo.jobs[ids[k]] == MarkedProcessing(old(repo.jobs)[ids[k]], repo.jobs[ids[k]].updatedAt)
      ensures ok ==> forall k :: 0 <= k < |ids| ==>
        repo.jobs[ids[k]] == MarkedProcessing(old(repo.jobs)[ids[k]], repo.jobs[ids[k]].updatedAt)
      ensures Steady(net.db) ==> ok
    {
      ok := true;
      for i := 0 to |ids|
        invariant ok && repo.clock >= old(repo.clock)
        invariant OnlyChanges(old(repo.jobs), repo.jobs, ids)
        invariant forall k :: 0 <= k < i ==>
          repo.jobs[ids[k]] == MarkedProcessing(old(repo.jobs)[ids[k]], repo.jobs[ids[k]].updatedAt)
        invariant forall k :: i <= k < |ids| ==> repo.jobs[ids[k]] == old(repo.jobs)[ids[k]]
      {
        ghost var mid := repo.jobs;
        ok := repo.MarkProcessing(net.db, ids[i]);
        EarlierKept(mid, repo.jobs, ids, i);
        if !ok { return; }
        ok := repo.AppendEvent(net.db, ids[i]);
        if !ok { return; }
      }
    }

    method RecordBatch(net: Network, ids: seq<int>, ghost before: Table) returns (ok: bool)
      requires Rows(before, ids) && OnlyChanges(before, repo.jobs, ids)
      requires forall k :: 0 <= k < |ids| ==>
        repo.jobs[ids[k]] == MarkedProcessing(before[ids[k]], repo.jobs[ids[k]].updatedAt)
      modifies repo
      ensures repo.clock >= old(repo.clock)
      ensures OnlyChanges(before, repo.jobs, ids)
      ensures forall k :: 0 <= k < |ids| ==>
        || repo.jobs[ids[k]] == MarkedProcessing(before[ids[k]], repo.jobs[ids[k]].updatedAt)
        || Done(before[ids[k]], repo.jobs[ids[k]], net.batch, cfg.retryBackoffMs)
      ensures ok ==> forall k :: 0 <= k < |ids| ==>
        Done(before[ids[k]], repo.jobs[ids[k]], net.batch, cfg.retryBackoffMs)
      ensures Reliable(net.db) ==> ok
      ensures LosesRecords(net.db) && net.batch.Accepted? && ids != [] ==> !ok && repo.jobs == old(repo.jobs)
    {
      ok := true;
      for i := 0 to |ids|
        invariant ok && repo.clock >= old(repo.clock)
        invariant OnlyChanges(before, repo.jobs, ids)
        invariant forall k :: 0 <= k < i ==>
          Done(before[ids[k]], repo.jobs[ids[k]], net.batch, cfg.retryBackoffMs)
        invariant forall k :: i <= k < |ids| ==>
          repo.jobs[ids[k]] == MarkedProcessing(before[ids[k]], repo.jobs[ids[k]].updatedAt)
        invariant LosesRecords(net.db) && net.batch.Accepted? ==> i == 0
        invariant i == 0 ==> repo.jobs == old(repo.jobs)
      {
        ghost var mid := repo.jobs;
        ok := RecordOutcome(net.db, ids[i], net.batch);
        EarlierKept(mid, repo.jobs, ids, i);
        StillOnly(before, mid, repo.jobs, ids, i);
        if !ok { return; }
      }
    }

    /** All Safe-owned jobs of a batch in one transaction. */
    method ProcessBatch(net: Network, ids: seq<int>) returns (ok: bool, processed: nat, ghost sent: multiset<int>)
      requires Rows(repo.jobs, ids)
      modifies repo
      ensures repo.clock >= old(repo.clock)
      ensures Passing(old(repo.jobs), repo.jobs, ids, _ => net.batch, cfg.retryBackoffMs)
      ensures ok ==>
        && processed == |ids| && sent == multiset(ids)
        && (forall k :: 0 <= k < |ids| ==>
              Done(old(repo.jobs)[ids[k]], repo.jobs[ids[k]], net.batch, cfg.retryBackoffMs))
      ensures !CanBatch(net) ==>
        && !ok && sent == multiset{}
        && (forall k :: 0 <= k < |ids| ==>
              || repo.jobs[ids[k]] == old(repo.jobs)[ids[k]]
              || repo.jobs[ids[k]] == MarkedProcessing(old(repo.jobs)[ids[k]], repo.jobs[ids[k]].updatedAt))
      ensures AllSubmittable(old(repo.jobs), ids) ==> Spends(old(repo.jobs), repo.jobs, sent)
      ensures forall id :: id in sent ==> id in ids
      ensures Reliable(net.db) && CanBatch(net) ==> ok
      ensures Steady(net.db) && !CanBatch(net) ==> Stranded(old(repo.jobs), repo.jobs, ids)
      ensures LosesRecords(net.db) && CanBatch(net) && net.batch.Accepted? && ids != [] ==>
        !ok && sent == multiset(ids) && Stranded(old(repo.jobs), repo.jobs, ids)
    {
      ghost var before := repo.jobs;
      processed, sent := 0, multiset{};
      ok := MarkBatchProcessing(net, ids);
      if AllSubmittable(before, ids) { UnsentSpends(before, repo.jobs, ids); }
      if !ok { return; }
      if !net.gasPriceKnown { ok := false; return; }
      if !net.safeContract { ok := false; return; }
      sent := multiset(ids);
      ok := RecordBatch(net, ids, before);
      if AllSubmittable(before, ids) { BatchSpends(before, repo.jobs, ids, net.batch, cfg.retryBackoffMs); }
      if ok { processed := |ids|; }
    }

    method ScheduleRateLimitCooldown(db: Weather) returns (ghost at: int)
      modifies this`nextSubmissionAt, repo`clock, repo`count
      ensures old(repo.clock) <= at == repo.clock && nextSubmissionAt == CooldownUntil(at, cfg.retryBackoffMs)
      ensures
        var wait := nextSubmissionAt - at;
        && wait % 1000 == 0 && wait >= 30_000 && wait >= cfg.retryBackoffMs
        && wait <= Max(30_000, cfg.retryBackoffMs + 999)
    {
      var now := repo.Now(db);
      at := now;
      nextSubmissionAt := CooldownUntil(now, cfg.retryBackoffMs);
      CooldownIsLongEnough(now, cfg.retryBackoffMs);
    }

    /** Which of the listed jobs go out together and which one by one. */
    method PlanListed(ids: seq<int>) returns (batch: seq<int>, singles: seq<int>)
      requires Rows(repo.jobs, ids)
      ensures batch == BatchOf(cfg, repo.jobs, ids) && singles == SinglesOf(cfg, repo.jobs, ids)
      ensures
        var safe := |Pick(ids, SafeOwned(repo.jobs, cfg.safeAddress), true)|;
        && (cfg.mode != Direct ==> batch == [] && singles == ids)
        && (cfg.mode == Direct ==> |batch| == if safe < 2 then 0 else Min(safe, 100))
    {
      batch, singles := [], ids;
      if !Relayed(cfg.mode) {
        var safe, other := PartitionSafeJobs(ids);
        if |safe| >= 2 {
          batch, singles := safe[..Min(|safe|, BATCH_MAX)], other;
        } else {
          singles := safe + other;
        }
      }
    }

    /** The batch, if there is one. */
    method ProcessBatchIfAny(net: Network, batch: seq<int>, ghost ids: seq<int>)
        returns (ok: bool, processed: nat, ghost sent: multiset<int>)
      requires Listed(repo.jobs, ids) && Rows(repo.jobs, batch) && forall id :: id in batch ==> id in ids
      modifies repo
      ensures repo.clock >= old(repo.clock) && PassKeeps(old(repo.jobs), repo.jobs, ids)
      ensures OnlyChanges(old(repo.jobs), repo.jobs, batch)
      ensures Spends(old(repo.jobs), repo.jobs, sent) && forall id :: id in sent ==> id in batch
      ensures ok ==>
        && processed == |batch| && sent == multiset(batch)
        && (forall k :: 0 <= k < |batch| ==>
              Done(old(repo.jobs)[batch[k]], repo.jobs[batch[k]], net.batch, cfg.retryBackoffMs))
      ensures Reliable(net.db) && (batch == [] || CanBatch(net)) ==> ok
      ensures Reliable(net.db) && batch != [] && !CanBatch(net) ==>
        !ok && sent == multiset{} && Stranded(old(repo.jobs), repo.jobs, batch)
      ensures LosesRecords(net.db) && CanBatch(net) && batch != [] && net.batch.Accepted? ==>
        !ok && sent == multiset(batch) && Stranded(old(repo.jobs), repo.jobs, batch)
      ensures batch == [] ==> ok && sent == multiset{} && repo.jobs == old(repo.jobs)
    {
      ok, processed, sent := true, 0, multiset{};
      if batch != [] {
        ok, processed, sent := ProcessBatch(net, batch);
        BatchPassed(old(repo.jobs), repo.jobs, ids, batch, net.batch, cfg.retryBackoffMs);
      }
    }

    /** The listed jobs: the batch, then the others one by one. */
    method ProcessListed(net: Network, ids: seq<int>)
        returns (ok: bool, processed: nat, rateLimited: bool, ghost sent: multiset<int>)
      requires Listed(repo.jobs, ids)
      modifies repo
      ensures repo.clock >= old(repo.clock) && PassKeeps(old(repo.jobs), repo.jobs, ids)
      ensures Spends(old(repo.jobs), repo.jobs, sent) && forall id :: id in sent ==> id in ids
      ensures ok ==>
        && PassDone(cfg, net, old(repo.jobs), repo.jobs, ids, processed)
        && sent == multiset(Touched(cfg, net, old(repo.jobs), ids))
        && rateLimited == EndsLimited(net, UntilLimited(net, SinglesOf(cfg, old(repo.jobs), ids)))
      ensures EndsAs(cfg, net, old(repo.jobs), repo.jobs, ids, sent, ok)
    {
      ghost var before := repo.jobs;
      rateLimited := false;
      var batch, singles := PlanListed(ids);
      PlanRows(cfg, before, ids);
      ok, processed, sent := ProcessBatchIfAny(net, batch, ids);
      if ok {
        ghost var mid := repo.jobs;
        var each;
        ghost var more;
        ok, each, rateLimited, more := ProcessEach(net, singles);
        PassEnds(cfg, net, before, mid, repo.jobs, ids, processed, sent, ok, each, rateLimited, more);
        sent := sent + more;
        processed := processed + each;
      } else {
        EndsByBatch(cfg, net, before, repo.jobs, ids, sent);
      }
    }

    /** One submission pass over at most `limit` due jobs. */
    method ProcessPendingJobs(net: Network, limit: int) returns (ok: bool, processed: nat, ghost pass: Pass)
      requires WellFormed(repo.jobs)
      modifies repo, this`nextSubmissionAt
      ensures repo.clock >= old(repo.clock) && PassKeeps(old(repo.jobs), repo.jobs, pass.listed)
      ensures |pass.listed| <= Max(limit, 1) && Spends(old(repo.jobs), repo.jobs, pass.sent)
      ensures forall id :: id in pass.sent ==> id in old(repo.jobs)
      ensures ok || Steady(net.db) ==>
        && old(repo.clock) <= pass.at <= repo.clock
        && FirstRows(DueRows(old(repo.jobs), pass.at), DueRank(old(repo.jobs)), Max(limit, 1), pass.listed)
        && EndsAs(cfg, net, old(repo.jobs), repo.jobs, pass.listed, pass.sent, ok)
      ensures processed == pass.processed
      ensures ok ==> PassDone(cfg, net, old(repo.jobs), repo.jobs, pass.listed, processed)
      ensures ok ==> pass.sent == multiset(Touched(cfg, net, old(repo.jobs), pass.listed))
      ensures ok ==>
        (pass.limitedAt.Some? <==> EndsLimited(net, UntilLimited(net, SinglesOf(cfg, old(repo.jobs), pass.listed))))
      ensures pass.limitedAt.Some? ==> old(repo.clock) <= pass.limitedAt.value <= repo.clock
      ensures nextSubmissionAt == if pass.limitedAt.Some? then CooldownUntil(pass.limitedAt.value, cfg.retryBackoffMs)
                                  else old(nextSubmissionAt)
    {
      processed, pass := 0, NO_PASS;
      var ids;
      ok, ids := repo.ListForProcessing(net.db, Max(limit, 1));
      if !ok { return; }
      ghost var at := repo.clock;
      ListedRows(repo.jobs, at, Max(limit, 1), ids);
      var rateLimited;
      ghost var sent;
      ok, processed, rateLimited, sent := ProcessListed(net, ids);
      pass := Pass(at, ids, processed, sent, None);
      if ok && rateLimited {
        ghost var when := ScheduleRateLimitCooldown(net.db);
        pass := pass.(limitedAt := Some(when));
      }
    }

    /** One submitted job: claim it, give it up, or leave it for the next tick. */
    method CheckReceipt(net: Network, id: int, now: int) returns (ok: bool, confirmed: bool)
      requires id in repo.jobs
      modifies repo
      ensures repo.clock >= old(repo.clock) && OnlyChanges(old(repo.jobs), repo.jobs, [id])
      ensures ReceiptHandled(net, id, old(repo.jobs), repo.jobs, now, cfg.retryBackoffMs)
      ensures ok ==> Judged(net, id, old(repo.jobs)[id], repo.jobs[id], now, cfg.retryBackoffMs)
      ensures ok ==> confirmed == VerdictOf(net, id, old(repo.jobs)[id], now).Confirm?
      ensures ok && old(repo.jobs)[id].status == Submitted ==>
        && ReceiptEnds(net, id, old(repo.jobs)[id], repo.jobs[id], now)
        && (confirmed <==> WentThrough(net, id, old(repo.jobs)[id]))
      ensures Steady(net.db) ==> ok
    {
      ok, confirmed := true, false;
      match VerdictOf(net, id, repo.jobs[id], now)
      case Leave =>
      case Confirm =>
        ok := repo.MarkReceiptConfirmed(net.db, id);
        if !ok { return; }
        ok := repo.AppendEvent(net.db, id);
        if !ok { return; }
        ok := repo.AppendEvent(net.db, id); // the event of the funds activation
        confirmed := true;
      case GiveUp(error) =>
        ok := repo.MarkRetryOrFail(net.db, id, error, cfg.retryBackoffMs);
        if !ok { return; }
        ok := repo.AppendEvent(net.db, id);
    }

    method CheckEach(net: Network, ids: seq<int>, now: int) returns (ok: bool, confirmed: nat)
      requires WellFormed(repo.jobs) && Rows(repo.jobs, ids)
      requires forall id :: id in ids ==> id in repo.jobs && repo.jobs[id].status == Submitted
      modifies repo
      ensures repo.clock >= old(repo.clock) && Quiet(old(repo.jobs), repo.jobs, {}, {})
      ensures OnlyChanges(old(repo.jobs), repo.jobs, ids)
      ensures ok ==>
        && (forall id :: id in ids ==> Judged(net, id, old(repo.jobs)[id], repo.jobs[id], now, cfg.retryBackoffMs))
        && confirmed == |Pick(ids, Confirms(net, old(repo.jobs), now), true)|
      ensures Steady(net.db) ==> ok
    {
      ghost var before := repo.jobs;
      ok, confirmed := true, 0;
      for i := 0 to |ids|
        invariant ok && repo.clock >= old(repo.clock)
        invariant JudgedUpTo(net, before, repo.jobs, ids, i, now, cfg.retryBackoffMs)
        invariant confirmed == |Pick(ids[..i], Confirms(net, before, now), true)|
      {
        ghost var mid := repo.jobs;
        NotYetTouched(before, mid, ids, i);
        PickNext(ids, Confirms(net, before, now), i);
        assert Confirms(net, before, now)(ids[i]) == VerdictOf(net, ids[i], before[ids[i]], now).Confirm?;
        var isConfirmed;
        ok, isConfirmed := CheckReceipt(net, ids[i], now);
        OneMoreReceipt(net, before, mid, repo.jobs, ids, i, now, cfg.retryBackoffMs);
        if !ok {
          ReceiptsAreQuiet(net, before, repo.jobs, ids, i + 1, now, cfg.retryBackoffMs);
          return;
        }
        if isConfirmed { confirmed := confirmed + 1; }
      }
      assert ids[..|ids|] == ids;
      ReceiptsAreQuiet(net, before, repo.jobs, ids, |ids|, now, cfg.retryBackoffMs);
      AllJudged(net, before, repo.jobs, ids, now, cfg.retryBackoffMs);
    }

    /** Submitted jobs whose transaction settled or was not seen in time. */
    method CheckSubmittedReceipts(net: Network)
        returns (ok: bool, confirmed: nat, ghost listed: seq<int>, ghost now: int)
      requires WellFormed(repo.jobs)
      modifies repo
      ensures repo.clock >= old(repo.clock) && Quiet(old(repo.jobs), repo.jobs, {}, {})
      ensures OnlyChanges(old(repo.jobs), repo.jobs, listed) && old(repo.clock) <= now <= repo.clock
      ensures ok ==>
        && Checked(cfg, net, old(repo.jobs), repo.jobs, listed, now)
        && ReceiptsEnd(net, old(repo.jobs), repo.jobs, listed, now, confirmed)
      ensures Steady(net.db) ==> ok
    {
      ghost var before := repo.jobs;
      confirmed, listed := 0, [];
      UnchangedIsQuiet(before);
      var ids;
      ok, ids := repo.ListForReceiptCheck(net.db, RECEIPT_CHECK_LIMIT);
      now := repo.clock;
      if !ok { return; }
      listed := ids;
      SubmittedRows(before, ids);
      var current := repo.Now(net.db);
      now := current;
      ok, confirmed := CheckEach(net, ids, current);
      if ok { CheckEnds(cfg, net, before, repo.jobs, ids, current); }
    }

    /** Upserts the positions found, in any order. `done`: those upserted. */
    method UpsertAll(db: Weather, found: Found) returns (ok: bool, inserted: nat, ghost done: set<Position>)
      requires WellFormed(repo.jobs)
      modifies repo
      ensures repo.clock >= old(repo.clock) && WellFormed(repo.jobs)
      ensures Discovered(Max(cfg.maxAttempts, 1), found, old(repo.jobs), repo.jobs, done)
      ensures Stamped(repo.jobs, done, old(repo.clock), repo.clock)
      ensures ok ==> done == found.Keys && |repo.jobs| == |old(repo.jobs)| + inserted
      ensures Steady(db) ==> ok
    {
      ghost var before := repo.jobs;
      ok, inserted, done := true, 0, {};
      var rest := found.Keys;
      while rest != {}
        invariant ok && repo.clock >= old(repo.clock) && WellFormed(repo.jobs)
        invariant rest <= found.Keys && done == found.Keys - rest
        invariant Discovered(Max(cfg.maxAttempts, 1), found, before, repo.jobs, done)
        invariant Stamped(repo.jobs, done, old(repo.clock), repo.clock)
        invariant |repo.jobs| == |before| + inserted
        decreases rest
      {
        var p :| p in rest;
        ghost var mid, took := repo.jobs, Took(db(repo.count, Upsert(p)));
        var isNew;
        ok, isNew := repo.UpsertJob(db, p, found[p], Max(cfg.maxAttempts, 1));
        if took {
          OneMorePosition(Max(cfg.maxAttempts, 1), found, before, mid, repo.jobs, done, p);
          OneMoreStamp(Max(cfg.maxAttempts, 1), found, mid, repo.jobs, done, p, old(repo.clock), repo.clock);
          done := done + {p};
        }
        if !ok { return; }
        if isNew { inserted := inserted + 1; }
        rest := rest - {p};
      }
    }

    /** Every redeemable position becomes a job, or refreshes the one there is. */
    method DiscoverRedeemableJobs(net: Network) returns (ok: bool, inserted: nat, ghost done: set<Position>)
      requires WellFormed(repo.jobs)
      modifies repo
      ensures repo.clock >= old(repo.clock) && Quiet(old(repo.jobs), repo.jobs, {}, done)
      ensures Stamped(repo.jobs, done, old(repo.clock), repo.clock)
      ensures net.found.None? ==> !ok && repo.jobs == old(repo.jobs) && done == {}
      ensures net.found.Some? ==>
        Discovered(Max(cfg.maxAttempts, 1), net.found.value, old(repo.jobs), repo.jobs, done)
      ensures ok ==> net.found.Some? && done == net.found.value.Keys && |repo.jobs| == |old(repo.jobs)| + inserted
      ensures Steady(net.db) && net.found.Some? ==> ok
    {
      ok, inserted, done := net.found.Some?, 0, {};
      UnchangedIsQuiet(repo.jobs);
      if !ok { return; }
      ok, inserted, done := UpsertAll(net.db, net.found.value);
      DiscoveryIsQuiet(Max(cfg.maxAttempts, 1), net.found.value, old(repo.jobs), repo.jobs, done);
    }

    /** The first tick of a service makes stale jobs due again. */
    method RecoverIfNeeded(net: Network) returns (ok: bool, ghost recovered: set<int>)
      requires WellFormed(repo.jobs)
      modifies repo, this`needsRecovery
      ensures Quiet(old(repo.jobs), repo.jobs, recovered, {}) && recovered == Changed(old(repo.jobs), repo.jobs)
      ensures forall id :: id in recovered ==>
        old(needsRecovery) && id in old(repo.jobs) && old(repo.jobs)[id].status == Processing
      ensures repo.clock == old(repo.clock) + if old(needsRecovery) then net.db(old(repo.count), Recover).waitMs else 0
      ensures repo.count == old(repo.count) + if old(needsRecovery) then 1 else 0
      ensures ok ==>
        && !needsRecovery
        && if old(needsRecovery) then Recovered(old(repo.jobs), repo.jobs, repo.clock) else repo.jobs == old(repo.jobs)
      ensures Steady(net.db) ==> ok
    {
      ok := true;
      if needsRecovery {
        ok := repo.RecoverStaleProcessing(net.db, STALE_MS);
        if ok { needsRecovery := false; }
      }
      recovered := Changed(old(repo.jobs), repo.jobs);
      RecoveryIsQuiet(old(repo.jobs), repo.jobs, repo.clock);
    }

    method DiscoverIfDue(net: Network, now: int) returns (ok: bool, ghost found: set<Position>)
      requires WellFormed(repo.jobs)
      modifies repo, this`nextDiscoveryAt
      ensures repo.clock >= old(repo.clock) && Quiet(old(repo.jobs), repo.jobs, {}, found)
      ensures ok ==>
        && nextDiscoveryAt == NextDiscovery(cfg, now, old(nextDiscoveryAt))
        && (if now >= old(nextDiscoveryAt)
            then && net.found.Some? && found == net.found.value.Keys
                 && Discovered(Max(cfg.maxAttempts, 1), net.found.value, old(repo.jobs), repo.jobs, found)
            else repo.jobs == old(repo.jobs) && found == {})
      ensures Stamped(repo.jobs, found, old(repo.clock), repo.clock)
      ensures Steady(net.db) && net.found.Some? ==> ok
    {
      ok, found := true, {};
      UnchangedIsQuiet(repo.jobs);
      if now >= nextDiscoveryAt {
        var inserted;
        ok, inserted, found := DiscoverRedeemableJobs(net);
        if ok { nextDiscoveryAt := now + 1000 * cfg.discoveryIntervalSec; }
      }
    }

    /** A tick up to its receipt check. */
    method RecoverAndDiscover(net: Network)
        returns (ok: bool, now: int, ghost stages: Stages, ghost recovered: set<int>, ghost found: set<Position>)
      requires WellFormed(repo.jobs)
      modifies repo, this`nextDiscoveryAt, this`needsRecovery
      ensures repo.clock >= old(repo.clock) && (ok ==> now <= repo.clock)
      ensures Quiet(old(repo.jobs), repo.jobs, recovered, found)
      ensures forall id :: id in recovered ==>
        old(needsRecovery) && id in old(repo.jobs) && old(repo.jobs)[id].status == Processing
      ensures ok ==>
        && (if old(needsRecovery) then Recovered(old(repo.jobs), stages.recovered, stages.recoveredAt)
            else stages.recovered == old(repo.jobs))
        && (if now >= old(nextDiscoveryAt)
            then && net.found.Some?
                 && Discovered(Max(cfg.maxAttempts, 1), net.found.value, stages.recovered, repo.jobs,
                               net.found.value.Keys)
            else repo.jobs == stages.recovered)
      ensures ok ==> PrepareTimes(net, old(repo.clock), old(repo.count), old(needsRecovery), stages, found, repo.clock)
      ensures ok ==> stages.now == now && stages.discovered == repo.jobs && stages.checkedAt == repo.clock
      ensures ok ==> recovered == Changed(old(repo.jobs), stages.recovered)
      ensures ok ==> found == if now >= old(nextDiscoveryAt) then net.found.value.Keys else {}
      ensures ok ==> !needsRecovery && nextDiscoveryAt == NextDiscovery(cfg, now, old(nextDiscoveryAt))
      ensures Steady(net.db) && net.found.Some? ==> ok
    {
      ghost var before := repo.jobs;
      now, found := repo.clock, {};
      stages := Stages(now, before, now, before, now, [], before);
      ok, recovered := RecoverIfNeeded(net);
      if ok {
        ghost var afterRecovery, recoveredAt := repo.jobs, repo.clock;
        now := repo.Now(net.db);
        ok, found := DiscoverIfDue(net, now);
        QuietCompose(before, afterRecovery, repo.jobs, recovered, {}, found);
        assert {} + found == found;
        stages := Stages(recoveredAt, afterRecovery, now, repo.jobs, repo.clock, [], before);
      }
    }

    /** A tick up to its submission pass. */
    method Prepare(net: Network)
        returns (ok: bool, now: int, ghost stages: Stages, ghost recovered: set<int>, ghost found: set<Position>)
      requires WellFormed(repo.jobs)
      modifies repo, this`nextDiscoveryAt, this`needsRecovery
      ensures repo.clock >= old(repo.clock) && (ok ==> now <= repo.clock)
      ensures Quiet(old(repo.jobs), repo.jobs, recovered, found)
      ensures forall id :: id in recovered ==>
        old(needsRecovery) && id in old(repo.jobs) && old(repo.jobs)[id].status == Processing
      ensures ok ==> Prepared(cfg, net, old(repo.jobs), old(needsRecovery), old(nextDiscoveryAt), stages)
      ensures ok ==> PrepareTimes(net, old(repo.clock), old(repo.count), old(needsRecovery), stages, found, repo.clock)
      ensures ok ==> stages.now == now && stages.checked == repo.jobs
      ensures ok ==> recovered == Changed(old(repo.jobs), stages.recovered)
      ensures ok ==> found == if now >= old(nextDiscoveryAt) then net.found.value.Keys else {}
      ensures ok ==> !needsRecovery && nextDiscoveryAt == NextDiscovery(cfg, now, old(nextDiscoveryAt))
      ensures Steady(net.db) && net.found.Some? ==> ok
    {
      ok, now, stages, recovered, found := RecoverAndDiscover(net);
      if ok {
        ghost var discovered := repo.jobs;
        var confirmed;
        ghost var listed, at;
        ok, confirmed, listed, at := CheckSubmittedReceipts(net);
        QuietCompose(old(repo.jobs), discovered, repo.jobs, recovered, found, {});
        assert found + {} == found;
        stages := stages.(checkedAt := at, receipts := listed, checked := repo.jobs);
      }
    }

    /** A submission pass into the free slots. */
    method SubmitIntoSlots(net: Network, slots: int) returns (ok: bool, ghost pass: Pass)
      requires WellFormed(repo.jobs) && 0 < slots == Cap(cfg) - |InFlight(repo.jobs)|
      modifies repo, this`nextSubmissionAt
      ensures repo.clock >= old(repo.clock) && PassKeeps(old(repo.jobs), repo.jobs, pass.listed)
      ensures Spends(old(repo.jobs), repo.jobs, pass.sent) && forall id :: id in pass.sent ==> id in old(repo.jobs)
      ensures |InFlight(repo.jobs)| <= Cap(cfg)
      ensures pass.limitedAt.Some? ==> old(repo.clock) <= pass.limitedAt.value
      ensures nextSubmissionAt == if pass.limitedAt.Some? then CooldownUntil(pass.limitedAt.value, cfg.retryBackoffMs)
                                  else old(nextSubmissionAt)
      ensures ok || Steady(net.db) ==>
        && PassListed(cfg, old(repo.jobs), old(repo.clock), pass)
        && EndsAs(cfg, net, old(repo.jobs), repo.jobs, pass.listed, pass.sent, ok)
      ensures ok ==>
        && PassDone(cfg, net, old(repo.jobs), repo.jobs, pass.listed, pass.processed)
        && pass.sent == multiset(Touched(cfg, net, old(repo.jobs), pass.listed))
    {
      ghost var before := repo.jobs;
      var processed;
      ok, processed, pass := ProcessPendingJobs(net, slots);
      PassBoundsInFlight(before, repo.jobs, pass.listed);
    }

    /** The submission pass of a tick, if there is room for one and no cooldown. */
    method SubmitDueJobs(net: Network, now: int) returns (ok: bool, ghost started: bool, ghost pass: Pass)
      requires WellFormed(repo.jobs) && now <= repo.clock
      modifies repo, this`nextSubmissionAt
      ensures repo.clock >= old(repo.clock) && PassKeeps(old(repo.jobs), repo.jobs, pass.listed)
      ensures Spends(old(repo.jobs), repo.jobs, pass.sent) && forall id :: id in pass.sent ==> id in old(repo.jobs)
      ensures |InFlight(repo.jobs)| <= Max(|InFlight(old(repo.jobs))|, Cap(cfg))
      ensures !started ==> repo.jobs == old(repo.jobs) && pass == NO_PASS
      ensures started ==> now >= old(nextSubmissionAt)
      ensures pass.limitedAt.Some? ==> now <= pass.limitedAt.value
      ensures nextSubmissionAt == if pass.limitedAt.Some? then CooldownUntil(pass.limitedAt.value, cfg.retryBackoffMs)
                                  else old(nextSubmissionAt)
      ensures ok || Steady(net.db) ==>
        && (started <==> Starts(cfg, old(repo.jobs), now, old(nextSubmissionAt)))
        && (started ==> PassListed(cfg, old(repo.jobs), old(repo.clock), pass))
        && (started ==> EndsAs(cfg, net, old(repo.jobs), repo.jobs, pass.listed, pass.sent, ok))
      ensures ok && started ==>
        && PassDone(cfg, net, old(repo.jobs), repo.jobs, pass.listed, pass.processed)
        && pass.sent == multiset(Touched(cfg, net, old(repo.jobs), pass.listed))
      ensures Steady(net.db) && !started ==> ok
    {
      ghost var before := repo.jobs;
      started, pass := false, NO_PASS;
      var maxInflight: int := Cap(cfg);
      var inflight: int;
      ok, inflight := repo.CountSubmitted(net.db);
      var availableSlots: int := maxInflight - inflight;
      if ok && availableSlots > 0 && now >= nextSubmissionAt {
        started := true;
        ok, pass := SubmitIntoSlots(net, availableSlots);
      }
    }

    /** `log` is what every tick keeps, whatever failed; `stages` says what a tick that returns Ok has done before its
        pass, and `pass` what that pass did. */
    method MaybeTick(net: Network) returns (ok: bool, ghost log: Tick, ghost stages: Stages, ghost pass: Pass)
      requires WellFormed(repo.jobs)
      modifies repo, this
      ensures log.cfg == cfg && log.recovering == old(needsRecovery) && log.sent == pass.sent
      ensures log.before == old(repo.jobs)
      ensures log.after == repo.jobs
      ensures log.nextBefore == old(nextSubmissionAt) && log.nextAfter == nextSubmissionAt
      ensures TickOk(log) && WellFormed(repo.jobs) && repo.clock >= old(repo.clock)
      ensures ok || (Steady(net.db) && net.found.Some?) ==>
        && Prepared(cfg, net, old(repo.jobs), old(needsRecovery), old(nextDiscoveryAt), stages)
        && PrepareTimes(net, old(repo.clock), old(repo.count), old(needsRecovery), stages, log.found, repo.clock)
        && log.recovered == Changed(old(repo.jobs), stages.recovered)
        && log.found == (if stages.now >= old(nextDiscoveryAt) then net.found.value.Keys else {})
        && !needsRecovery && nextDiscoveryAt == NextDiscovery(cfg, stages.now, old(nextDiscoveryAt))
      ensures ok || (Steady(net.db) && net.found.Some?) ==>
        && (log.started.Some? <==> Starts(cfg, stages.checked, stages.now, old(nextSubmissionAt)))
        && (log.started.None? ==> repo.jobs == stages.checked)
        && (log.started.Some? ==> PassListed(cfg, stages.checked, stages.checkedAt, pass))
        && (log.started.Some? ==> EndsAs(cfg, net, stages.checked, repo.jobs, pass.listed, pass.sent, ok))
      ensures ok && log.started.Some? ==>
        && PassDone(cfg, net, stages.checked, repo.jobs, pass.listed, pass.processed)
        && pass.sent == multiset(Touched(cfg, net, stages.checked, pass.listed))
      ensures Steady(net.db) && net.found.Some? && log.started.None? ==> ok
    {
      ghost var recovering, next := needsRecovery, nextSubmissionAt;
      var now;
      ghost var recovered, found;
      ok, now, stages, recovered, found := Prepare(net);
      ghost var mid, started := repo.jobs, false;
      pass := NO_PASS;
      if ok {
        ok, started, pass := SubmitDueJobs(net, now);
      }
      log := Tick(cfg, old(repo.jobs), repo.jobs, recovering, recovered, found, pass.sent,
                  if started then Some(now) else None, pass.limitedAt, next, nextSubmissionAt);
      TickComposes(log, mid);
    }
  }
}
