/** Whole runs of auto-claim ticks, possibly of several services over the one table but one tick after the other, and
    runs that show how far the limits reach. `ClaimInterleaving` is about ticks that overlap. */
module ClaimRuns {
  import opened Common
  import opened Sorting
  import opened ClaimJobs
  import opened ClaimPlan
  import opened RowOrder
  import opened ClaimRepository
  import opened ClaimSteps
  import opened AutoClaim

  /** Ticks of any services, one after the other: each starts from the table the one before it left. */
  ghost predicate Run(ticks: seq<Tick>)
    decreases |ticks|, 0
  {
    ticks == [] || Continues(ticks[..|ticks| - 1], ticks[|ticks| - 1])
  }

  ghost predicate Continues(ticks: seq<Tick>, x: Tick)
    decreases |ticks|, 1
  {
    Run(ticks) && TickOk(x) && (ticks != [] ==> x.before == ticks[|ticks| - 1].after)
  }

  lemma Front(ticks: seq<Tick>)
    requires Run(ticks) && |ticks| > 1
    ensures Run(ticks[..|ticks| - 1]) && TickOk(ticks[|ticks| - 1])
    ensures ticks[|ticks| - 1].before == ticks[..|ticks| - 1][|ticks| - 2].after
  {
  }

  /** No run puts more jobs in flight than its start or the largest cap of its services allows. */
  lemma {:induction false} InFlightNeverExceeds(ticks: seq<Tick>, bound: nat)
    requires Run(ticks) && ticks != []
    requires |InFlight(ticks[0].before)| <= bound && 1 <= bound
    requires forall i :: 0 <= i < |ticks| ==> ticks[i].cfg.mode != Direct || ticks[i].cfg.processBatchSize <= bound
    ensures |InFlight(ticks[|ticks| - 1].after)| <= bound
  {
    if |ticks| > 1 {
      Front(ticks);
      InFlightNeverExceeds(ticks[..|ticks| - 1], bound);
    }
  }

  /** Corollary of `InFlightNeverExceeds`: started with nothing in flight, relayer services never have two transactions
      in flight. */
  lemma RelayersHaveOneInFlight(ticks: seq<Tick>)
    requires Run(ticks) && ticks != []
    requires |InFlight(ticks[0].before)| <= 1 && forall i :: 0 <= i < |ticks| ==> ticks[i].cfg.mode != Direct
    ensures |InFlight(ticks[|ticks| - 1].after)| <= 1
  {
    InFlightNeverExceeds(ticks, 1);
  }

  /** A claimed job stays claimed through any run; a job that an interrupted pass left in processing stays there until
      a tick recovers it, which only the first tick of a service does. */
  lemma {:induction false} FinalStates(ticks: seq<Tick>, id: int)
    requires Run(ticks) && ticks != [] && id in ticks[0].before
    ensures id in ticks[|ticks| - 1].after
    ensures ticks[0].before[id].status == Claimed ==> ticks[|ticks| - 1].after[id].status == Claimed
    ensures ticks[0].before[id].status == Processing && (forall i :: 0 <= i < |ticks| ==> id !in ticks[i].recovered) ==>
      ticks[|ticks| - 1].after[id].status == Processing
  {
    if |ticks| > 1 {
      Front(ticks);
      FinalStates(ticks[..|ticks| - 1], id);
    }
  }

  /** Every table a run reaches has attempts within their limits and one job per owner and condition. */
  lemma {:induction false} RunsStayWellFormed(ticks: seq<Tick>)
    requires Run(ticks) && ticks != [] && WellFormed(ticks[0].before)
    ensures WellFormed(ticks[|ticks| - 1].after)
  {
    if |ticks| > 1 {
      Front(ticks);
      RunsStayWellFormed(ticks[..|ticks| - 1]);
    }
  }

  /** The ticks of one service, in order: only they move its next submission time. */
  ghost predicate OneService(ticks: seq<Tick>, cfg: Config) {
    && (forall i :: 0 <= i < |ticks| ==> TickOk(ticks[i]) && ticks[i].cfg == cfg)
    && (forall i :: 0 < i < |ticks| ==> ticks[i].nextBefore == ticks[i - 1].nextAfter)
  }

  lemma {:induction false} NextNeverEarlier(ticks: seq<Tick>, cfg: Config, i: nat, j: nat)
    requires OneService(ticks, cfg) && i < j < |ticks|
    ensures ticks[j].nextBefore >= ticks[i].nextAfter
  {
    if j > i + 1 {
      NextNeverEarlier(ticks, cfg, i, j - 1);
    }
  }

  /** After a rate limit no later pass of the service starts before the cooldown is over. */
  lemma {:induction false} CooldownHolds(ticks: seq<Tick>, cfg: Config, i: nat, j: nat)
    requires OneService(ticks, cfg) && i < j < |ticks|
    requires ticks[i].limitedAt.Some? && ticks[j].started.Some?
    ensures ticks[j].started.value >= CooldownUntil(ticks[i].limitedAt.value, cfg.retryBackoffMs)
    ensures ticks[j].started.value >= ticks[i].limitedAt.value + 30_000
    ensures ticks[j].started.value >= ticks[i].limitedAt.value + cfg.retryBackoffMs
  {
    NextNeverEarlier(ticks, cfg, i, j);
    CooldownIsLongEnough(ticks[i].limitedAt.value, cfg.retryBackoffMs);
  }

  // How often is a job submitted?

  /** How often a run submitted the job. */
  ghost function SentIn(ticks: seq<Tick>, id: int): nat {
    if ticks == [] then 0 else SentIn(ticks[..|ticks| - 1], id) + ticks[|ticks| - 1].sent[id]
  }

  /** In how many ticks of a run the job came to be, was found again or was recovered. */
  ghost function Renewals(ticks: seq<Tick>, id: int): nat {
    if ticks == [] then 0
    else
      var last := ticks[|ticks| - 1];
      Renewals(ticks[..|ticks| - 1], id) + if id in last.after && Renewed(last, id) then 1 else 0
  }

  /** A job that is not in the table was never submitted. */
  lemma {:induction false} AbsentIsUnsent(ticks: seq<Tick>, id: int)
    requires Run(ticks) && ticks != [] && id !in ticks[|ticks| - 1].after
    ensures SentIn(ticks, id) == 0 && id !in ticks[0].before
  {
    if |ticks| > 1 {
      Front(ticks);
      AbsentIsUnsent(ticks[..|ticks| - 1], id);
    }
  }

  ghost function LeftAtStart(ticks: seq<Tick>, id: int): nat
    requires ticks != []
  {
    if id in ticks[0].before then Left(ticks[0].before[id]) else 0
  }

  /** What one tick adds to both sides of the bound. */
  lemma TickIsPaid(x: Tick, id: int, sent: nat, start: nat, renewals: nat)
    requires id in x.after && TickSpends(x, id)
    requires id in x.before ==> x.before[id].maxAttempts <= x.after[id].maxAttempts
    requires if id in x.before then sent + Left(x.before[id]) <= start + Worth(renewals, x.before[id].maxAttempts)
             else sent == 0
    ensures sent + x.sent[id] + Left(x.after[id])
         <= start + Worth(renewals + (if Renewed(x, id) then 1 else 0), x.after[id].maxAttempts)
  {
    if id in x.before { WorthGrows(renewals, x.before[id].maxAttempts, x.after[id].maxAttempts); }
  }

  lemma LastTick(ticks: seq<Tick>, x: Tick, id: int)
    requires id in x.after
    ensures SentIn(ticks + [x], id) == SentIn(ticks, id) + x.sent[id]
    ensures Renewals(ticks + [x], id) == Renewals(ticks, id) + if Renewed(x, id) then 1 else 0
  {
    assert (ticks + [x])[..|ticks|] == ticks;
  }

  /** The submissions of a run are paid for by the attempts left at its start and by its renewals. */
  ghost predicate Paid(ticks: seq<Tick>, id: int)
    requires ticks != []
  {
    var after := ticks[|ticks| - 1].after;
    id in after ==>
      SentIn(ticks, id) + Left(after[id]) <=
      LeftAtStart(ticks, id) + Worth(Renewals(ticks, id), after[id].maxAttempts)
  }

  lemma FirstIsPaid(ticks: seq<Tick>, id: int)
    requires |ticks| == 1 && TickOk(ticks[0])
    ensures Paid(ticks, id)
  {
    var x := ticks[0];
    if id in x.after {
      var none := ticks[..0];
      assert ticks == none + [x];
      LastTick(none, x, id);
      TickIsPaid(x, id, SentIn(none, id), LeftAtStart(ticks, id), Renewals(none, id));
    }
  }

  lemma NextIsPaid(ticks: seq<Tick>, x: Tick, id: int)
    requires ticks != [] && Paid(ticks, id) && TickOk(x) && x.before == ticks[|ticks| - 1].after
    requires id !in x.before ==> SentIn(ticks, id) == 0
    ensures Paid(ticks + [x], id)
  {
    if id in x.after {
      LastTick(ticks, x, id);
      TickIsPaid(x, id, SentIn(ticks, id), LeftAtStart(ticks, id), Renewals(ticks, id));
    }
  }

  lemma {:induction false} RunIsPaid(ticks: seq<Tick>, id: int)
    requires Run(ticks) && ticks != []
    ensures Paid(ticks, id)
  {
    var n := |ticks| - 1;
    if n == 0 {
      FirstIsPaid(ticks, id);
    } else {
      Front(ticks);
      RunIsPaid(ticks[..n], id);
      if id !in ticks[n].before { AbsentIsUnsent(ticks[..n], id); }
      NextIsPaid(ticks[..n], ticks[n], id);
      assert ticks == ticks[..n] + [ticks[n]];
    }
  }

  /** Over every run, whatever fails: a job is submitted no more often than its attempts left allow, plus its attempt
      limit for every time it was found again or recovered. */
  lemma SubmissionsBounded(ticks: seq<Tick>, id: int)
    requires Run(ticks) && ticks != [] && id in ticks[|ticks| - 1].after
    ensures
      var last := ticks[|ticks| - 1].after[id];
      SentIn(ticks, id) + Left(last) <= LeftAtStart(ticks, id) + Renewals(ticks, id) * last.maxAttempts
  {
    RunIsPaid(ticks, id);
    WorthIsProduct(Renewals(ticks, id), ticks[|ticks| - 1].after[id].maxAttempts);
  }

  /** Neither found again nor recovered, a job is submitted at most as often as it has attempts left. */
  lemma SubmissionsWithinAttempts(ticks: seq<Tick>, id: int)
    requires Run(ticks) && ticks != [] && id in ticks[0].before && WellFormed(ticks[0].before)
    requires Renewals(ticks, id) == 0
    ensures SentIn(ticks, id) <= ticks[0].before[id].maxAttempts - ticks[0].before[id].attempts
  {
    FinalStates(ticks, id);
    SubmissionsBounded(ticks, id);
    assert WithinAttempts(ticks[0].before[id]);
  }

  /** And a failed job stays exactly as it is. */
  lemma {:induction false} FailedStaysFailed(ticks: seq<Tick>, id: int)
    requires Run(ticks) && ticks != [] && id in ticks[0].before && ticks[0].before[id].status == Failed
    requires Renewals(ticks, id) == 0
    ensures id in ticks[|ticks| - 1].after && ticks[|ticks| - 1].after[id] == ticks[0].before[id]
    ensures SentIn(ticks, id) == 0
  {
    var n := |ticks| - 1;
    assert SentIn([], id) == 0 && Renewals([], id) == 0;
    if n > 0 {
      Front(ticks);
      FailedStaysFailed(ticks[..n], id);
    } else {
      assert ticks[..n] == [];
    }
    assert TickSpends(ticks[n], id);
  }

  // Both ways out are real, and each renewal is worth a submission

  lemma FirstThreeDiffer(ids: seq<int>)
    requires Distinct(ids)
    ensures |ids| > 1 ==> ids[0] != ids[1]
    ensures |ids| > 2 ==> ids[0] != ids[2] && ids[1] != ids[2]
  {
  }

  /** A pass over a table with one due job lists that job. */
  lemma ListsTheOne(t: Table, id: int, at: int, limit: nat, ids: seq<int>)
    requires t.Keys == {id} && Due(t[id], at) && limit > 0
    requires FirstRows(DueRows(t, at), DueRank(t), limit, ids)
    ensures ids == [id]
  {
    FirstThreeDiffer(ids);
    assert id in DueRows(t, at);
    assert ids != [] by { assert id in ids || |ids| == limit; }
    forall k | 0 <= k < |ids| ensures ids[k] == id {
      var x := ids[k];
      assert x in ids;
    }
  }

  lemma PickOfOne(id: int, p: int -> bool, keep: bool)
    ensures Pick([id], p, keep) == if p(id) == keep then [id] else []
  {
    assert [id][..0] == [];
  }

  lemma UntilOne(net: Network, id: int)
    ensures UntilLimited(net, [id]) == [id]
  {
    assert [id][1..] == [];
  }

  lemma PlansTheOne(cfg: Config, net: Network, t: Table, id: int)
    ensures BatchOf(cfg, t, [id]) == [] && SinglesOf(cfg, t, [id]) == [id]
    ensures FirstOut(cfg, t, [id]) == [id] && Touched(cfg, net, t, [id]) == [id]
  {
    PickOfOne(id, SafeOwned(t, cfg.safeAddress), true);
    PickOfOne(id, SafeOwned(t, cfg.safeAddress), false);
    UntilOne(net, id);
  }

  lemma NoneInFlight(t: Table)
    requires forall id :: id in t ==> t[id].status != Submitted
    ensures InFlight(t) == {}
  {
    forall id ensures id !in InFlight(t) {
      if id in t { assert t[id].status != Submitted; }
    }
  }

  lemma NothingToCheck(cfg: Config, net: Network, before: Table, after: Table, ids: seq<int>, now: int)
    requires Checked(cfg, net, before, after, ids, now) && InFlight(before) == {}
    ensures after == before
  {
    HeadIn(ids);
    forall id | id in before ensures id in after && after[id] == before[id] { }
  }

  lemma NothingFound(maxAttempts: nat, before: Table, after: Table)
    requires Discovered(maxAttempts, map[], before, after, {})
    ensures after == before
  {
    forall id | id in after ensures id in before && after[id] == before[id] {
      assert RowDiscovered(maxAttempts, map[], before, id, after[id], {});
    }
    forall id | id in before ensures id in after && after[id] == before[id] {
      assert PositionOf(after[id]) == PositionOf(before[id]);
    }
  }

  lemma NothingRecovered(before: Table, after: Table, at: int)
    requires Recovered(before, after, at) && forall id :: id in before ==> before[id].status != Processing
    ensures after == before
  {
    forall id | id in before ensures id in after && after[id] == before[id] { }
  }

  predicate Stuck(j: Job) {
    j.status == Processing || Submittable(j)
  }

  /** What a service started anew finds: the one job, stuck or waiting, is due again with its attempts unused. */
  lemma RestartFindsDue(cfg: Config, net: Network, t: Table, id: int, nextDiscovery: int, s: Stages)
    requires t.Keys == {id} && WellFormed(t) && Stuck(t[id]) && net.found == Some(map[])
    requires Prepared(cfg, net, t, true, nextDiscovery, s) && s.recoveredAt <= s.checkedAt
    requires s.recoveredAt - STALE_MS > t[id].updatedAt && s.recoveredAt >= t[id].nextAttemptAt
    ensures s.checked.Keys == {id} && InFlight(s.checked) == {} && Due(s.checked[id], s.checkedAt)
    ensures s.checked[id].attempts == t[id].attempts && s.checked[id].maxAttempts == t[id].maxAttempts
  {
    assert id in s.recovered && WithinAttempts(t[id]);
    if s.now >= nextDiscovery { NothingFound(Max(cfg.maxAttempts, 1), s.recovered, s.discovered); }
    assert s.discovered == s.recovered;
    assert InFlight(s.discovered) == {};
    NothingToCheck(cfg, net, s.discovered, s.checked, s.receipts, s.checkedAt);
  }

  /** A run of `n` ticks from one table to another that submits the job `n` times. */
  ghost predicate Submits(ticks: seq<Tick>, before: Table, after: Table, id: int, n: nat) {
    && Run(ticks) && |ticks| == n && SentIn(ticks, id) == n
    && (if n == 0 then before == after else ticks[0].before == before && ticks[n - 1].after == after)
  }

  lemma SubmitsOnceMore(ticks: seq<Tick>, before: Table, mid: Table, x: Tick, id: int, n: nat)
    requires Submits(ticks, before, mid, id, n) && TickOk(x) && x.before == mid && x.sent == multiset{id}
    ensures Submits(ticks + [x], before, x.after, id, n + 1)
  {
    assert Continues(ticks, x);
    assert (ticks + [x])[..n] == ticks && (ticks + [x])[n] == x;
  }

  /** Submissions are accepted, their records are lost, and recovery takes its time. */
  function LossyNet(wait: nat): Network {
    Network((n: nat, s: Statement) =>
              if s.ToSubmitted? then Fate(0, false, false) else Fate(if s.Recover? then wait else 0, true, true),
            (_: int) => Accepted("0x1"), true, true, Accepted("0x1"), (_: string) => true, (_: int) => NoReceipt,
            Some(map[]))
  }

  lemma LossyNetLoses(wait: nat)
    ensures
      var net := LossyNet(wait);
      && LosesRecords(net.db) && Steady(net.db) && CanBatch(net) && net.found == Some(map[])
      && (forall id :: net.submit(id).Accepted?) && forall n :: net.db(n, Recover).waitMs == wait
  {
  }

  lemma SentAndStranded(cfg: Config, net: Network, before: Table, after: Table, id: int, since: int, pass: Pass,
                        ok: bool)
    requires before.Keys == {id} && InFlight(before) == {} && Due(before[id], since)
    requires LosesRecords(net.db) && CanBatch(net) && net.submit(id).Accepted?
    requires PassListed(cfg, before, since, pass) && EndsAs(cfg, net, before, after, pass.listed, pass.sent, ok)
    ensures pass.sent == multiset{id} && after.Keys == {id}
    ensures after[id] == MarkedProcessing(before[id], after[id].updatedAt)
  {
    ListsTheOne(before, id, pass.at, Cap(cfg), pass.listed);
    PlansTheOne(cfg, net, before, id);
    assert multiset([id]) == multiset{id};
    assert id in [id];
  }

  /** A restart whose database loses the record of an accepted submission sends the job and leaves it stuck, with no
      attempt used. */
  method RestartLosesRecord(cfg: Config, repo: Repository, id: int) returns (ghost log: Tick)
    requires repo.jobs.Keys == {id} && WellFormed(repo.jobs) && Stuck(repo.jobs[id])
    modifies repo
    ensures TickOk(log) && log.before == old(repo.jobs) && log.after == repo.jobs && log.found == {}
    ensures log.sent == multiset{id}
    ensures repo.jobs.Keys == {id} && WellFormed(repo.jobs) && repo.jobs[id].status == Processing
    ensures repo.jobs[id].attempts == old(repo.jobs)[id].attempts
  {
    var j := repo.jobs[id];
    var wait: nat := STALE_MS + 1 + Max(j.updatedAt - repo.clock, 0) + Max(j.nextAttemptAt - repo.clock, 0);
    var net := LossyNet(wait);
    LossyNetLoses(wait);
    var service := new AutoClaimService(cfg, repo, repo.clock);
    var ok;
    ghost var stages, pass;
    ok, log, stages, pass := service.MaybeTick(net);
    RestartFindsDue(cfg, net, old(repo.jobs), id, old(repo.clock), stages);
    SentAndStranded(cfg, net, stages.checked, repo.jobs, id, stages.checkedAt, pass, ok);
  }

  /** Restarts give submissions for free: for every `k` there is a run of `k` ticks that submits one job `k` times, with
      nothing found again and no attempt used. */
  method RestartsSubmitAgain(cfg: Config, repo: Repository, id: int, k: nat) returns (ghost ticks: seq<Tick>)
    requires repo.jobs.Keys == {id} && WellFormed(repo.jobs) && Stuck(repo.jobs[id])
    modifies repo
    ensures Submits(ticks, old(repo.jobs), repo.jobs, id, k)
    ensures forall i :: 0 <= i < k ==> ticks[i].found == {}
    ensures repo.jobs.Keys == {id} && repo.jobs[id].attempts == old(repo.jobs)[id].attempts
  {
    ticks := [];
    for i := 0 to k
      invariant Submits(ticks, old(repo.jobs), repo.jobs, id, i)
      invariant forall n :: 0 <= n < i ==> ticks[n].found == {}
      invariant repo.jobs.Keys == {id} && WellFormed(repo.jobs) && Stuck(repo.jobs[id])
      invariant repo.jobs[id].attempts == old(repo.jobs)[id].attempts
    {
      ghost var mid := repo.jobs;
      ghost var log := RestartLosesRecord(cfg, repo, id);
      SubmitsOnceMore(ticks, old(repo.jobs), mid, log, id, i);
      ticks := ticks + [log];
    }
  }

  /** The one job starts over when its position is found. */
  lemma TheOneStartsOver(maxAttempts: nat, t: Table, after: Table, id: int)
    requires t.Keys == {id} && WellFormed(after)
    requires Discovered(maxAttempts, map[PositionOf(t[id]) := None], t, after, {PositionOf(t[id])})
    ensures after.Keys == {id} && after[id] == Rediscovered(t[id], None, maxAttempts, after[id].updatedAt)
  {
    var p := PositionOf(t[id]);
    assert id in t && id in after && PositionOf(after[id]) == p;
    forall x | x in after ensures x == id {
      assert RowDiscovered(maxAttempts, map[p := None], t, x, after[x], {p});
    }
    assert RowDiscovered(maxAttempts, map[p := None], t, id, after[id], {p});
  }

  lemma DueWhenStamped(j: Job, t: Table, id: int, maxAttempts: nat, start: int, end: int)
    requires t.Keys == {id} && t[id] == Rediscovered(j, None, maxAttempts, t[id].updatedAt)
    requires (j.status == Failed || Submittable(j)) && Stamped(t, {PositionOf(j)}, start, end)
    ensures InFlight(t) == {} && Due(t[id], end)
  {
    assert id in t && PositionOf(t[id]) in {PositionOf(j)};
    NoneInFlight(t);
  }

  lemma NothingToRecover(cfg: Config, net: Network, t: Table, recovering: bool, nextDiscovery: int, s: Stages)
    requires Prepared(cfg, net, t, recovering, nextDiscovery, s)
    requires forall id :: id in t ==> t[id].status != Processing
    ensures s.recovered == t && Changed(t, s.recovered) == {}
  {
    if recovering { NothingRecovered(t, s.recovered, s.recoveredAt); }
  }

  /** A job found again is due at once, whatever its attempts were. */
  lemma RediscoveryFindsDue(cfg: Config, net: Network, t: Table, id: int, recovering: bool, nextDiscovery: int,
                            s: Stages)
    requires t.Keys == {id} && (t[id].status == Failed || Submittable(t[id]))
    requires net.found == Some(map[PositionOf(t[id]) := None]) && net.found.value.Keys == {PositionOf(t[id])}
    requires Prepared(cfg, net, t, recovering, nextDiscovery, s) && s.now >= nextDiscovery
    requires Stamped(s.discovered, {PositionOf(t[id])}, s.now, s.checkedAt)
    ensures Changed(t, s.recovered) == {}
    ensures s.checked.Keys == {id} && InFlight(s.checked) == {} && Due(s.checked[id], s.checkedAt)
  {
    NothingToRecover(cfg, net, t, recovering, nextDiscovery, s);
    TheOneStartsOver(Max(cfg.maxAttempts, 1), t, s.discovered, id);
    DueWhenStamped(t[id], s.discovered, id, Max(cfg.maxAttempts, 1), s.now, s.checkedAt);
    NothingToCheck(cfg, net, s.discovered, s.checked, s.receipts, s.checkedAt);
  }

  /** Every statement takes its time and succeeds, the position is found, and submissions are refused for good. */
  function RefusingNet(wait: nat, p: Position): Network {
    Network((n: nat, s: Statement) => Fate(wait, true, true), (_: int) => Refused("execution reverted", false),
            true, true, Refused("execution reverted", false), (_: string) => true, (_: int) => NoReceipt,
            Some(map[p := None]))
  }

  lemma RefusingNetRefuses(wait: nat, p: Position)
    ensures
      var net := RefusingNet(wait, p);
      && Reliable(net.db) && Steady(net.db) && net.found == Some(map[p := None]) && net.found.value.Keys == {p}
      && (forall id :: net.submit(id).Refused? && !net.submit(id).retryable)
      && (forall n, s :: net.db(n, s).waitMs == wait)
  {
  }

  lemma RefusedForGood(cfg: Config, net: Network, before: Table, after: Table, id: int, since: int, pass: Pass,
                       ok: bool)
    requires before.Keys == {id} && InFlight(before) == {} && Due(before[id], since)
    requires Reliable(net.db) && net.submit(id).Refused? && !net.submit(id).retryable
    requires PassListed(cfg, before, since, pass) && EndsAs(cfg, net, before, after, pass.listed, pass.sent, ok)
    requires ok ==> PassDone(cfg, net, before, after, pass.listed, pass.processed)
                    && pass.sent == multiset(Touched(cfg, net, before, pass.listed))
    ensures pass.sent == multiset{id} && after.Keys == {id} && after[id].status == Failed
  {
    ListsTheOne(before, id, pass.at, Cap(cfg), pass.listed);
    PlansTheOne(cfg, net, before, id);
    assert multiset([id]) == multiset{id};
    assert id in [id];
  }

  lemma IdleStarts(cfg: Config, t: Table, now: int, next: int)
    requires InFlight(t) == {}
    ensures Starts(cfg, t, now, next) <==> now >= next
  {
  }

  /** One tick in which the job is found again, submitted and refused for good. */
  method RediscoveryTick(service: AutoClaimService, id: int) returns (ghost log: Tick)
    requires service.repo.jobs.Keys == {id} && WellFormed(service.repo.jobs)
    requires service.repo.jobs[id].status == Failed || Submittable(service.repo.jobs[id])
    modifies service, service.repo
    ensures TickOk(log) && log.before == old(service.repo.jobs) && log.after == service.repo.jobs && log.recovered == {}
    ensures log.sent == multiset{id}
    ensures service.repo.jobs.Keys == {id} && WellFormed(service.repo.jobs)
    ensures service.repo.jobs[id].status == Failed
  {
    var repo, p := service.repo, PositionOf(service.repo.jobs[id]);
    var wait: nat := Max(service.nextDiscoveryAt - repo.clock, 0) + Max(service.nextSubmissionAt - repo.clock, 0);
    var net := RefusingNet(wait, p);
    RefusingNetRefuses(wait, p);
    var ok;
    ghost var stages, pass;
    ok, log, stages, pass := service.MaybeTick(net);
    RediscoveryFindsDue(service.cfg, net, old(repo.jobs), id, old(service.needsRecovery), old(service.nextDiscoveryAt),
                        stages);
    IdleStarts(service.cfg, stages.checked, stages.now, old(service.nextSubmissionAt));
    RefusedForGood(service.cfg, net, stages.checked, repo.jobs, id, stages.checkedAt, pass, ok);
  }

  /** Discovery does not keep to the limit either: for every `k` there is a run of `k` ticks of one service that submits
      one job `k` times although each attempt failed it for good; nothing is recovered. */
  method RediscoveriesSubmitAgain(service: AutoClaimService, id: int, k: nat) returns (ghost ticks: seq<Tick>)
    requires service.repo.jobs.Keys == {id} && WellFormed(service.repo.jobs)
    requires service.repo.jobs[id].status == Failed || Submittable(service.repo.jobs[id])
    modifies service, service.repo
    ensures Submits(ticks, old(service.repo.jobs), service.repo.jobs, id, k)
    ensures forall i :: 0 <= i < k ==>
      ticks[i].recovered == {} && id in ticks[i].after && ticks[i].after[id].status == Failed
  {
    ticks := [];
    for i := 0 to k
      invariant Submits(ticks, old(service.repo.jobs), service.repo.jobs, id, i)
      invariant forall n :: 0 <= n < i ==>
        ticks[n].recovered == {} && id in ticks[n].after && ticks[n].after[id].status == Failed
      invariant service.repo.jobs.Keys == {id} && WellFormed(service.repo.jobs)
      invariant service.repo.jobs[id].status == Failed || Submittable(service.repo.jobs[id])
    {
      ghost var mid := service.repo.jobs;
      ghost var log := RediscoveryTick(service, id);
      SubmitsOnceMore(ticks, old(service.repo.jobs), mid, log, id, i);
      ticks := ticks + [log];
    }
  }

  // A batch can be left in processing

  function OutageNet(wait: nat): Network {
    Network((n: nat, s: Statement) => Fate(if s.Recover? then wait else 0, true, true), (_: int) => Accepted("0x1"),
            false, true, Accepted("0x1"), (_: string) => true, (_: int) => NoReceipt, Some(map[]))
  }

  lemma OutageNetIsReliable(wait: nat)
    ensures
      var net := OutageNet(wait);
      && Reliable(net.db) && Steady(net.db) && !CanBatch(net) && net.found == Some(map[])
      && forall n :: net.db(n, Recover).waitMs == wait
  {
  }

  lemma {:induction false} PickAll(ids: seq<int>, p: int -> bool)
    requires forall id :: id in ids ==> p(id)
    ensures Pick(ids, p, true) == ids
  {
    if ids != [] {
      var front, last := ids[..|ids| - 1], ids[|ids| - 1];
      assert ids == front + [last] && last in ids;
      forall id | id in front ensures p(id) { assert id in ids; }
      PickAll(front, p);
    }
  }

  lemma OneOfTwo(ids: seq<int>, a: int, b: int)
    requires Distinct(ids) && forall id :: id in ids ==> id == a || id == b
    ensures |ids| <= 2 && (a !in ids || b !in ids ==> |ids| <= 1) && (|ids| == 2 ==> a in ids && b in ids)
  {
    FirstThreeDiffer(ids);
    assert forall k :: 0 <= k < |ids| ==> ids[k] in ids;
  }

  lemma ListsBoth(t: Table, a: int, b: int, at: int, limit: nat, ids: seq<int>)
    requires t.Keys == {a, b} && Due(t[a], at) && Due(t[b], at) && limit >= 2
    requires FirstRows(DueRows(t, at), DueRank(t), limit, ids)
    ensures a in ids && b in ids && |ids| <= 2
  {
    assert a in DueRows(t, at) && b in DueRows(t, at);
    forall id | id in ids ensures id == a || id == b { assert id in DueRows(t, at) && id in t.Keys; }
    OneOfTwo(ids, a, b);
  }

  lemma OnlyTwo(ids: seq<int>, a: int, b: int)
    requires a != b && a in ids && b in ids && |ids| <= 2
    ensures |ids| == 2 && forall id :: id in ids ==> id == a || id == b
  {
    var i :| 0 <= i < |ids| && ids[i] == a;
    var k :| 0 <= k < |ids| && ids[k] == b;
    assert ids == if i == 0 then [a, b] else [b, a];
  }

  lemma BatchesBoth(cfg: Config, t: Table, a: int, b: int, ids: seq<int>)
    requires !Relayed(cfg.mode) && a != b && a in t && b in t
    requires IsSafe(t[a], cfg.safeAddress) && IsSafe(t[b], cfg.safeAddress)
    requires a in ids && b in ids && |ids| <= 2
    ensures BatchOf(cfg, t, ids) == ids
  {
    OnlyTwo(ids, a, b);
    PickAll(ids, SafeOwned(t, cfg.safeAddress));
    assert ids[..2] == ids;
  }

  /** Nothing stuck, nothing found and nothing in flight: the first part of a tick changes nothing. */
  lemma NothingPrepared(cfg: Config, net: Network, t: Table, recovering: bool, nextDiscovery: int, s: Stages)
    requires net.found == Some(map[]) && Prepared(cfg, net, t, recovering, nextDiscovery, s)
    requires forall id :: id in t ==> Submittable(t[id])
    ensures s.checked == t && InFlight(t) == {}
  {
    NothingToRecover(cfg, net, t, recovering, nextDiscovery, s);
    if s.now >= nextDiscovery { NothingFound(Max(cfg.maxAttempts, 1), s.recovered, s.discovered); }
    NoneInFlight(t);
    NothingToCheck(cfg, net, s.discovered, s.checked, s.receipts, s.checkedAt);
  }

  lemma FindsBothDue(cfg: Config, net: Network, t: Table, a: int, b: int, nextDiscovery: int, s: Stages)
    requires t.Keys == {a, b} && Submittable(t[a]) && Submittable(t[b]) && net.found == Some(map[])
    requires Prepared(cfg, net, t, true, nextDiscovery, s) && s.recoveredAt <= s.checkedAt
    requires s.recoveredAt >= t[a].nextAttemptAt && s.recoveredAt >= t[b].nextAttemptAt
    ensures s.checked == t && InFlight(t) == {} && Due(t[a], s.checkedAt) && Due(t[b], s.checkedAt)
  {
    forall id | id in t ensures Submittable(t[id]) { assert id in t.Keys; }
    NothingPrepared(cfg, net, t, true, nextDiscovery, s);
  }

  lemma BatchStrands(cfg: Config, net: Network, before: Table, after: Table, a: int, b: int, since: int, pass: Pass,
                     ok: bool)
    requires !Relayed(cfg.mode) && cfg.processBatchSize >= 2
    requires a != b && before.Keys == {a, b} && InFlight(before) == {}
    requires Due(before[a], since) && Due(before[b], since)
    requires IsSafe(before[a], cfg.safeAddress) && IsSafe(before[b], cfg.safeAddress)
    requires Reliable(net.db) && !CanBatch(net)
    requires PassListed(cfg, before, since, pass) && EndsAs(cfg, net, before, after, pass.listed, pass.sent, ok)
    ensures !ok && pass.sent == multiset{} && after.Keys == {a, b}
    ensures after[a].status == Processing && after[b].status == Processing
  {
    ListsBoth(before, a, b, pass.at, Cap(cfg), pass.listed);
    BatchesBoth(cfg, before, a, b, pass.listed);
  }

  /** A gas price that cannot be fetched leaves a whole batch in processing, although every statement succeeded and
      nothing was submitted; by `FinalStates` it stays there until a new service recovers it. */
  method OutageStrandsBatch(cfg: Config, repo: Repository, a: int, b: int) returns (ok: bool, ghost log: Tick)
    requires !Relayed(cfg.mode) && cfg.processBatchSize >= 2
    requires a != b && repo.jobs.Keys == {a, b} && WellFormed(repo.jobs)
    requires Submittable(repo.jobs[a]) && Submittable(repo.jobs[b])
    requires IsSafe(repo.jobs[a], cfg.safeAddress) && IsSafe(repo.jobs[b], cfg.safeAddress)
    modifies repo
    ensures TickOk(log) && log.before == old(repo.jobs) && log.after == repo.jobs && log.sent == multiset{}
    ensures !ok && repo.jobs.Keys == {a, b} && repo.jobs[a].status == Processing && repo.jobs[b].status == Processing
  {
    var wait: nat := Max(repo.jobs[a].nextAttemptAt - repo.clock, 0) + Max(repo.jobs[b].nextAttemptAt - repo.clock, 0);
    var net := OutageNet(wait);
    OutageNetIsReliable(wait);
    var service := new AutoClaimService(cfg, repo, repo.clock);
    ghost var stages, pass;
    ok, log, stages, pass := service.MaybeTick(net);
    FindsBothDue(cfg, net, old(repo.jobs), a, b, old(repo.clock), stages);
    BatchStrands(cfg, net, stages.checked, repo.jobs, a, b, stages.checkedAt, pass, ok);
  }
}
