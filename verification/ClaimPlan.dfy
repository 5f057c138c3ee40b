/** What one submission pass of the auto-claim service is meant to do, as functions of the jobs listed and of
    what the network answers: which jobs are touched, in which order, and how each of them ends. */
module ClaimPlan {
  import opened Common
  import opened ClaimJobs
  import opened Sorting

  datatype Mode = Direct | BuilderRelayer | RelayerApiKey

  datatype Config = Config(mode: Mode, safeAddress: Option<string>, processBatchSize: int, maxAttempts: nat,
                           retryBackoffMs: nat, discoveryIntervalSec: nat)

  predicate Relayed(mode: Mode) {
    mode == BuilderRelayer || mode == RelayerApiKey
  }

  const RELAYER_CAP := 1
  const BATCH_MAX := 100
  const MIN_COOLDOWN_SEC := 30
  const RECEIPT_TIMEOUT_MS := 120_000
  const RECEIPT_CHECK_LIMIT := 50
  const STALE_MS := 300_000

  function Cap(cfg: Config): nat {
    if Relayed(cfg.mode) then RELAYER_CAP else Max(cfg.processBatchSize, 1)
  }

  /** The end of the cooldown that a rate limit at `now` starts: the backoff rounded up to seconds, at least 30. */
  function CooldownUntil(now: int, backoffMs: nat): int {
    now + 1000 * Max((backoffMs + 999) / 1000, MIN_COOLDOWN_SEC)
  }

  /** The cooldown in milliseconds: whole seconds, no shorter than half a minute or the backoff, and no longer than
      that needs. */
  lemma CooldownIsLongEnough(now: int, backoffMs: nat)
    ensures
      var wait := CooldownUntil(now, backoffMs) - now;
      && wait % 1000 == 0 && wait >= 30_000 && wait >= backoffMs && wait <= Max(30_000, backoffMs + 999)
  {
    var sec := Max((backoffMs + 999) / 1000, 30);
    assert CooldownUntil(now, backoffMs) - now == 1000 * sec;
  }

  // The network

  datatype Submission = Accepted(tx: string) | Refused(message: string, retryable: bool)

  datatype Lookup = LookupFailed | NoReceipt | Receipt(status: Option<nat>)

  /** The redeemable positions, each with its market's slug if that is known. */
  type Found = map<Position, Option<string>>

  /** The world of one tick: the fates of its statements, the answers to its submissions (per job, and one for the
      batch), its receipts, and the positions that discovery finds. */
  datatype Network = Network(db: Weather, submit: int -> Submission, gasPriceKnown: bool, safeContract: bool,
                             batch: Submission, parsesHash: string -> bool, receipt: int -> Lookup,
                             found: Option<Found>)

  /** The batch has what it needs besides the database. */
  predicate CanBatch(net: Network) {
    net.gasPriceKnown && net.safeContract
  }

  /** ASCII lower case. */
  function Lower(s: string): string {
    if s == "" then "" else [if 'A' <= s[0] <= 'Z' then s[0] - 'A' + 'a' else s[0]] + Lower(s[1..])
  }

  predicate Contains(s: string, part: string) {
    part <= s || (s != "" && Contains(s[1..], part))
  }

  const RATE_LIMIT_MARKS :=
    ["relayer_rate_limited", "http 429", "\"status\":429", "too many requests", "quota exceeded"]

  predicate RateLimited(s: Submission) {
    s.Refused? && s.retryable && exists mark :: mark in RATE_LIMIT_MARKS && Contains(Lower(s.message), mark)
  }

  /** `low` is `s` with ASCII letters in lower case. */
  ghost predicate Lowers(s: string, low: string) {
    && |low| == |s|
    && (forall k :: 0 <= k < |s| ==>
          if 'A' <= s[k] <= 'Z' then low[k] as int == s[k] as int + 32 else low[k] == s[k])
  }

  lemma {:induction false} LowerIs(s: string)
    ensures Lowers(s, Lower(s))
  {
    if s != "" { LowerIs(s[1..]); }
  }

  lemma LowersOnce(s: string, low: string)
    requires Lowers(s, low)
    ensures low == Lower(s)
  {
    LowerIs(s);
    assert forall k :: 0 <= k < |s| ==> low[k] == Lower(s)[k];
  }

  /** The text has `mark` at position `i`, in any case. */
  ghost predicate HasAt(s: string, mark: string, i: nat) {
    i + |mark| <= |s| && Lowers(s[i..i + |mark|], mark)
  }

  lemma LowerPart(s: string, i: nat, n: nat)
    requires i + n <= |s|
    ensures |Lower(s)| == |s| && Lower(s)[i..i + n] == Lower(s[i..i + n])
  {
    LowerIs(s);
    assert Lowers(s[i..i + n], Lower(s)[i..i + n]);
    LowersOnce(s[i..i + n], Lower(s)[i..i + n]);
  }

  lemma HasAtTail(s: string, mark: string, i: nat)
    requires s != ""
    ensures HasAt(s, mark, i + 1) <==> HasAt(s[1..], mark, i)
  {
    if i + 1 + |mark| <= |s| { assert s[1..][i..i + |mark|] == s[i + 1..i + 1 + |mark|]; }
  }

  lemma HasAtStart(s: string, mark: string)
    ensures mark <= Lower(s) <==> HasAt(s, mark, 0)
  {
    LowerIs(s);
    if |mark| <= |s| {
      LowerPart(s, 0, |mark|);
      LowerIs(s[0..|mark|]);
      if HasAt(s, mark, 0) { LowersOnce(s[0..|mark|], mark); }
    }
  }

  lemma {:induction false} ContainsLowerIff(s: string, mark: string)
    ensures Contains(Lower(s), mark) <==> exists i :: HasAt(s, mark, i)
  {
    HasAtStart(s, mark);
    if s != "" {
      var tail := s[1..];
      ContainsLowerIff(tail, mark);
      assert Lower(s)[1..] == Lower(tail);
      if i :| HasAt(tail, mark, i) { HasAtTail(s, mark, i); }
      if i: nat :| HasAt(s, mark, i) && i > 0 { HasAtTail(s, mark, i - 1); }
    }
  }

  /** A refusal is a rate limit if it may be retried and its message has one of five marks in it, in any case. */
  lemma RateLimitedIff(s: Submission)
    ensures RateLimited(s) <==>
      && s.Refused? && s.retryable
      && exists mark, i :: HasAt(s.message, mark, i)
           && mark in ["relayer_rate_limited", "http 429", "\"status\":429", "too many requests", "quota exceeded"]
  {
    if s.Refused? {
      forall mark ensures Contains(Lower(s.message), mark) <==> exists i :: HasAt(s.message, mark, i) {
        ContainsLowerIff(s.message, mark);
      }
    }
  }

  // Jobs

  function AfterSubmission(j: Job, s: Submission, backoffMs: nat, now: int): Job {
    match s
    case Accepted(tx) => MarkedSubmitted(j, tx, now)
    case Refused(message, retryable) =>
      if retryable then MarkedRetryOrFailed(j, message, backoffMs, now) else MarkedFailed(j, message, now)
  }

  /** The job was submitted with this outcome, at the time its row records. */
  predicate Done(j: Job, j': Job, s: Submission, backoffMs: nat) {
    j' == AfterSubmission(j, s, backoffMs, j'.updatedAt)
  }

  /** Where an interrupted pass may leave a job. */
  predicate MidPass(j: Job, j': Job, s: Submission, backoffMs: nat) {
    j' == j || j' == MarkedProcessing(j, j'.updatedAt) || Done(j, j', s, backoffMs)
  }

  /** Corollary of the definition: a submitted job ends as submitted, retry or failed, and uses up an attempt unless it
      was accepted. */
  lemma DoneEnds(j: Job, j': Job, s: Submission, backoffMs: nat)
    requires Done(j, j', s, backoffMs)
    ensures j'.status == Submitted || j'.status == Retry || j'.status == Failed
    ensures j'.status == Submitted <==> s.Accepted?
    ensures j'.status == Retry ==> s.retryable && j'.attempts == j.attempts + 1 < j.maxAttempts
  {
  }

  predicate IsSafe(j: Job, safe: Option<string>) {
    safe.Some? && Lower(j.owner) == Lower(safe.value)
  }

  /** A job is the Safe's if its owner is the Safe's address but for the case of letters. */
  lemma IsSafeIff(j: Job, safe: Option<string>)
    ensures IsSafe(j, safe) <==> safe.Some? && exists low :: Lowers(j.owner, low) && Lowers(safe.value, low)
  {
    LowerIs(j.owner);
    if safe.Some? {
      LowerIs(safe.value);
      if low :| Lowers(j.owner, low) && Lowers(safe.value, low) {
        LowersOnce(j.owner, low);
        LowersOnce(safe.value, low);
      }
    }
  }

  /** The listed jobs for which `p` answers `keep`, in order. */
  function Pick(ids: seq<int>, p: int -> bool, keep: bool): seq<int> {
    if ids == [] then []
    else Pick(ids[..|ids| - 1], p, keep) + if p(ids[|ids| - 1]) == keep then [ids[|ids| - 1]] else []
  }

  function SafeOwned(t: Table, safe: Option<string>): int -> bool {
    (id: int) => id in t && IsSafe(t[id], safe)
  }

  lemma CountLast(ids: seq<int>, id: int)
    ensures multiset(ids + [id]) == multiset(ids) + multiset{id}
  {
  }

  lemma CountMore(ids: seq<int>, id: int, x: int)
    ensures multiset(ids + [id])[x] == multiset(ids)[x] + if id == x then 1 else 0
  {
  }

  lemma LastCounts(ids: seq<int>, x: int)
    requires ids != []
    ensures multiset(ids)[x] == multiset(ids[..|ids| - 1])[x] + if ids[|ids| - 1] == x then 1 else 0
  {
    assert ids == ids[..|ids| - 1] + [ids[|ids| - 1]];
  }

  lemma PickMore(ids: seq<int>, p: int -> bool, keep: bool, x: int)
    requires ids != []
    ensures
      var front, last := ids[..|ids| - 1], ids[|ids| - 1];
      multiset(Pick(ids, p, keep))[x] ==
        multiset(Pick(front, p, keep))[x] + if p(last) == keep && last == x then 1 else 0
  {
    var front, last := ids[..|ids| - 1], ids[|ids| - 1];
    if p(last) == keep {
      CountMore(Pick(front, p, keep), last, x);
    } else {
      assert Pick(ids, p, keep) == Pick(front, p, keep);
    }
  }

  lemma {:induction false} PickCounts(ids: seq<int>, p: int -> bool, x: int)
    ensures multiset(Pick(ids, p, true))[x] + multiset(Pick(ids, p, false))[x] == multiset(ids)[x]
  {
    if ids != [] {
      PickCounts(ids[..|ids| - 1], p, x);
      PickMore(ids, p, true, x);
      PickMore(ids, p, false, x);
      LastCounts(ids, x);
    }
  }

  /** Picking and leaving out keeps every listed job exactly once. */
  lemma PickIsExact(ids: seq<int>, p: int -> bool)
    ensures multiset(Pick(ids, p, true)) + multiset(Pick(ids, p, false)) == multiset(ids)
  {
    forall x ensures (multiset(Pick(ids, p, true)) + multiset(Pick(ids, p, false)))[x] == multiset(ids)[x] {
      PickCounts(ids, p, x);
    }
  }

  /** Lists with the same multiset have the same members, and are distinct together. */
  lemma SameMultiset(a: seq<int>, b: seq<int>)
    requires multiset(a) == multiset(b) && Distinct(b)
    ensures Distinct(a) && forall id :: id in a <==> id in b
  {
    forall id ensures id in a <==> id in b {
      assert id in a <==> id in multiset(a);
      assert id in b <==> id in multiset(b);
    }
    DistinctByCount(b);
    DistinctByCount(a);
  }

  lemma PickIsDistinct(ids: seq<int>, p: int -> bool)
    requires Distinct(ids)
    ensures Distinct(Pick(ids, p, true) + Pick(ids, p, false))
    ensures forall id :: id in Pick(ids, p, true) + Pick(ids, p, false) <==> id in ids
  {
    PickIsExact(ids, p);
    SameMultiset(Pick(ids, p, true) + Pick(ids, p, false), ids);
  }

  /** Safe-owned jobs that go out together; none in relayer mode or when there are fewer than two. */
  function BatchOf(cfg: Config, t: Table, ids: seq<int>): seq<int> {
    var safe := Pick(ids, SafeOwned(t, cfg.safeAddress), true);
    if Relayed(cfg.mode) || |safe| < 2 then [] else safe[..Min(|safe|, BATCH_MAX)]
  }

  /** Jobs that go out one by one, in order. */
  function SinglesOf(cfg: Config, t: Table, ids: seq<int>): seq<int> {
    var p := SafeOwned(t, cfg.safeAddress);
    if Relayed(cfg.mode) then ids
    else if |Pick(ids, p, true)| < 2 then Pick(ids, p, true) + Pick(ids, p, false)
    else Pick(ids, p, false)
  }

  /** The one-by-one jobs up to and including the first that is rate limited. */
  function UntilLimited(net: Network, ids: seq<int>): seq<int> {
    if ids == [] then []
    else if RateLimited(net.submit(ids[0])) then [ids[0]]
    else [ids[0]] + UntilLimited(net, ids[1..])
  }

  predicate EndsLimited(net: Network, ids: seq<int>) {
    ids != [] && RateLimited(net.submit(ids[|ids| - 1]))
  }

  lemma {:induction false} UntilLimitedIsPrefix(net: Network, ids: seq<int>)
    ensures UntilLimited(net, ids) <= ids
    ensures forall i :: 0 <= i < |UntilLimited(net, ids)| - 1 ==> !RateLimited(net.submit(ids[i]))
    ensures UntilLimited(net, ids) == ids || EndsLimited(net, UntilLimited(net, ids))
  {
    if ids != [] && !RateLimited(net.submit(ids[0])) { UntilLimitedIsPrefix(net, ids[1..]); }
  }

  /** Every job a pass touches, in order. */
  function Touched(cfg: Config, net: Network, t: Table, ids: seq<int>): seq<int> {
    BatchOf(cfg, t, ids) + UntilLimited(net, SinglesOf(cfg, t, ids))
  }

  function Answer(cfg: Config, net: Network, t: Table, ids: seq<int>, id: int): Submission {
    if id in BatchOf(cfg, t, ids) then net.batch else net.submit(id)
  }

  lemma DistinctParts<T>(xs: seq<T>, ys: seq<T>, xs': seq<T>, ys': seq<T>)
    requires Distinct(xs + ys) && xs' <= xs && ys' <= ys
    ensures Distinct(xs' + ys')
  {
    var zs, all := xs' + ys', xs + ys;
    forall i, j | 0 <= i < j < |zs| ensures zs[i] != zs[j] {
      var shift := |xs| - |xs'|;
      var i', j' := if i < |xs'| then i else i + shift, if j < |xs'| then j else j + shift;
      assert zs[i] == all[i'] && zs[j] == all[j'];
    }
  }

  /** Every member of a prefix-wise smaller pair is one of the larger. */
  lemma PartsAreMembers<T>(xs: seq<T>, ys: seq<T>, xs': seq<T>, ys': seq<T>)
    requires xs' <= xs && ys' <= ys
    ensures forall x :: x in xs' + ys' ==> x in xs + ys
  {
    forall x | x in xs' + ys' ensures x in xs + ys {
      if x in xs' { assert x in xs; } else { assert x in ys' && x in ys; }
    }
  }

  /** Batch and one-by-one jobs are prefixes of the two parts of the list, or make up all of it. */
  lemma PlanSplits(cfg: Config, t: Table, ids: seq<int>)
    ensures
      var p := SafeOwned(t, cfg.safeAddress);
      var batch, singles := BatchOf(cfg, t, ids), SinglesOf(cfg, t, ids);
      || (batch == [] && (singles == ids || singles == Pick(ids, p, true) + Pick(ids, p, false)))
      || (batch <= Pick(ids, p, true) && singles == Pick(ids, p, false))
  {
  }

  lemma PlanIsDistinct(cfg: Config, t: Table, ids: seq<int>)
    requires Distinct(ids)
    ensures Distinct(BatchOf(cfg, t, ids) + SinglesOf(cfg, t, ids))
    ensures forall id :: id in BatchOf(cfg, t, ids) + SinglesOf(cfg, t, ids) ==> id in ids
  {
    var p := SafeOwned(t, cfg.safeAddress);
    var batch, singles := BatchOf(cfg, t, ids), SinglesOf(cfg, t, ids);
    PickIsDistinct(ids, p);
    PlanSplits(cfg, t, ids);
    if batch == [] && (singles == ids || singles == Pick(ids, p, true) + Pick(ids, p, false)) {
      assert batch + singles == singles;
    } else {
      DistinctParts(Pick(ids, p, true), Pick(ids, p, false), batch, singles);
      PartsAreMembers(Pick(ids, p, true), Pick(ids, p, false), batch, singles);
    }
  }

  /** No job is touched twice, and only listed jobs are. */
  lemma TouchedIsDistinct(cfg: Config, net: Network, t: Table, ids: seq<int>)
    requires Distinct(ids)
    ensures Distinct(Touched(cfg, net, t, ids))
    ensures forall id :: id in Touched(cfg, net, t, ids) ==> id in ids
  {
    var batch, singles := BatchOf(cfg, t, ids), SinglesOf(cfg, t, ids);
    PlanIsDistinct(cfg, t, ids);
    UntilLimitedIsPrefix(net, singles);
    DistinctParts(batch, singles, batch, UntilLimited(net, singles));
    PartsAreMembers(batch, singles, batch, UntilLimited(net, singles));
  }

  // Receipts

  datatype Verdict = Leave | Confirm | GiveUp(error: string)

  /** What the receipt check decides about a submitted job. */
  function VerdictOf(net: Network, id: int, j: Job, now: int): Verdict {
    if j.txHash.None? then GiveUp("submitted auto-claim job missing tx_hash")
    else if !net.parsesHash(j.txHash.value) then GiveUp("invalid tx_hash")
    else match net.receipt(id)
      case LookupFailed => Leave
      case Receipt(status) => if status == Some(1) then Confirm else GiveUp("receipt status")
      case NoReceipt =>
        var since := if j.submittedAt.Some? then j.submittedAt.value else j.updatedAt;
        if now - since >= RECEIPT_TIMEOUT_MS then GiveUp("receipt not found") else Leave
  }

  /** The transaction of the job went through. */
  predicate WentThrough(net: Network, id: int, j: Job) {
    j.txHash.Some? && net.parsesHash(j.txHash.value) && net.receipt(id) == Receipt(Some(1))
  }

  /** The job has no usable hash, or its transaction failed, or none was seen within two minutes. */
  predicate WentWrong(net: Network, id: int, j: Job, now: int) {
    || j.txHash.None?
    || !net.parsesHash(j.txHash.value)
    || match net.receipt(id)
       case Receipt(status) => status != Some(1)
       case NoReceipt => now >= 120_000 + if j.submittedAt.Some? then j.submittedAt.value else j.updatedAt
       case LookupFailed => false
  }

  lemma VerdictIs(net: Network, id: int, j: Job, now: int)
    ensures VerdictOf(net, id, j, now).Confirm? <==> WentThrough(net, id, j)
    ensures VerdictOf(net, id, j, now).GiveUp? <==> WentWrong(net, id, j, now)
  {
  }

  function AfterVerdict(j: Job, v: Verdict, backoffMs: nat, now: int): Job {
    match v
    case Leave => j
    case Confirm => MarkedClaimed(j, now)
    case GiveUp(error) => MarkedRetryOrFailed(j, error, backoffMs, now)
  }
}
