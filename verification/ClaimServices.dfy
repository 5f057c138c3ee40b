/** Several auto-claim services at once over the one table. Their statements interleave in any way: nothing leases a
    row between the listing of a pass and its marks, or between its count and its listing. A statement that fails
    without effect is an `Abandon`; one that is reported as failed although it took effect has `ok` false. */
module ClaimServices {
  import opened Common
  import opened Sorting
  import opened ClaimJobs
  import opened ClaimPlan
  import opened RowOrder
  import opened ClaimRepository

  // Services

  /** How far the tick of a service has come. `now` is the clock as the tick read it. */
  datatype Phase =
    | Idle
    | Upserting(rest: Found, now: int)
    | Judging(todo: seq<int>, seen: Table, checkedAt: int, now: int)
    | Counted(slots: nat)
    | Marking(todo: seq<int>, marked: seq<int>, later: seq<seq<int>>)
    | Recording(todo: seq<int>, answer: Submission, limited: bool, later: seq<seq<int>>)

  datatype Service =
    Service(cfg: Config, needsRecovery: bool, nextDiscoveryAt: int, nextSubmissionAt: int, phase: Phase)

  datatype System = System(jobs: Table, clock: int, services: seq<Service>)

  datatype Action =
    | Elapse(ms: nat)
    | Start(p: nat, cfg: Config) // a new service takes the place of the one there was
    | Abandon(p: nat)
    | RecoverStale(p: nat, ok: bool)
    | Look(p: nat, found: Option<Found>)
    | UpsertOne(p: nat, position: Position, id: int, ok: bool)
    | ListReceipts(p: nat, ids: seq<int>)
    | Judge(p: nat, net: Network, ok: bool)
    | Count(p: nat)
    | ListWaiting(p: nat, ids: seq<int>)
    | Mark(p: nat, ok: bool)
    | Send(p: nat, answer: Submission)
    | Record(p: nat, ok: bool)
    | Next(p: nat)

  function Singly(ids: seq<int>): seq<seq<int>> {
    if ids == [] then [] else [[ids[0]]] + Singly(ids[1..])
  }

  /** What a pass sends together: the batch, then each of the others. */
  function Groups(cfg: Config, t: Table, ids: seq<int>): seq<seq<int>> {
    var batch := BatchOf(cfg, t, ids);
    (if batch == [] then [] else [batch]) + Singly(SinglesOf(cfg, t, ids))
  }

  function Flat(groups: seq<seq<int>>): seq<int> {
    if groups == [] then [] else groups[0] + Flat(groups[1..])
  }

  function MarkingOf(groups: seq<seq<int>>): Phase {
    if groups == [] then Idle else Marking(groups[0], [], groups[1..])
  }

  /** The jobs that a tick has listed and not yet dealt with. */
  function HeldBy(phase: Phase): seq<int> {
    match phase
    case Judging(todo, _, _, _) => todo
    case Marking(todo, marked, later) => todo + marked + Flat(later)
    case Recording(todo, _, _, later) => todo + Flat(later)
    case _ => []
  }

  ghost predicate Enabled(s: System, a: Action) {
    a.Elapse? ||
    (a.p < |s.services| &&
     var sv := s.services[a.p];
     match a
     case Elapse(_) => true
     case Start(_, _) => true
     case Abandon(_) => true
     case RecoverStale(_, _) => sv.phase.Idle? && sv.needsRecovery
     case Look(_, _) => sv.phase.Idle? && !sv.needsRecovery
     case UpsertOne(_, position, id, _) =>
       && sv.phase.Upserting? && position in sv.phase.rest
       && (if id in s.jobs then PositionOf(s.jobs[id]) == position else !HasJob(s.jobs, position))
     case ListReceipts(_, ids) =>
       && sv.phase.Upserting? && sv.phase.rest == map[]
       && FirstRows(InFlight(s.jobs), SubmittedRank(s.jobs), RECEIPT_CHECK_LIMIT, ids)
     case Judge(_, _, _) => sv.phase.Judging? && sv.phase.todo != []
     case Count(_) => sv.phase.Judging? && sv.phase.todo == []
     case ListWaiting(_, ids) =>
       sv.phase.Counted? && FirstRows(DueRows(s.jobs, s.clock), DueRank(s.jobs), sv.phase.slots, ids)
     case Mark(_, _) => sv.phase.Marking? && sv.phase.todo != []
     case Send(_, _) => sv.phase.Marking? && sv.phase.todo == []
     case Record(_, _) => sv.phase.Recording? && sv.phase.todo != []
     case Next(_) => sv.phase.Recording? && sv.phase.todo == [])
  }

  /** The verdict on the first listed receipt, by the row as it was listed. */
  ghost function VerdictIn(s: System, a: Action): Verdict
    requires Enabled(s, a) && a.Judge?
  {
    var phase := s.services[a.p].phase;
    if phase.todo[0] in phase.seen then VerdictOf(a.net, phase.todo[0], phase.seen[phase.todo[0]], phase.checkedAt)
    else Leave
  }

  /** The rows an action writes, by id only. */
  ghost function Writes(s: System, a: Action): Table
    requires Enabled(s, a)
  {
    match a
    case RecoverStale(_, _) =>
      map id | id in s.jobs && s.jobs[id].status == Processing && s.jobs[id].updatedAt < s.clock - STALE_MS ::
        MarkedRecovered(s.jobs[id], s.clock)
    case UpsertOne(p, position, id, _) =>
      var slug, maxAttempts := s.services[p].phase.rest[position], Max(s.services[p].cfg.maxAttempts, 1);
      map[id := if id in s.jobs then Rediscovered(s.jobs[id], slug, maxAttempts, s.clock)
                else NewJob(position, slug, maxAttempts, s.clock)]
    case Judge(p, _, _) =>
      var id := s.services[p].phase.todo[0];
      if id !in s.jobs || VerdictIn(s, a).Leave? then map[]
      else map[id := AfterVerdict(s.jobs[id], VerdictIn(s, a), s.services[p].cfg.retryBackoffMs, s.clock)]
    case Mark(p, _) =>
      var id := s.services[p].phase.todo[0];
      if id in s.jobs then map[id := MarkedProcessing(s.jobs[id], s.clock)] else map[]
    case Record(p, _) =>
      var sv := s.services[p];
      var id := sv.phase.todo[0];
      if id in s.jobs
      then map[id := AfterSubmission(s.jobs[id], sv.phase.answer, sv.cfg.retryBackoffMs, s.clock)] else map[]
    case _ => map[]
  }

  /** The job has used up an attempt and waits for its next, if it may have one. */
  ghost predicate TriedInVain(j: Job, j': Job, retryable: bool, cfg: Config, now: int) {
    var again := retryable && j.attempts + 1 < j.maxAttempts;
    && j'.attempts == j.attempts + 1 && j'.status == (if again then Retry else Failed)
    && j'.nextAttemptAt == (if again then now + cfg.retryBackoffMs else now)
    && j'.submittedAt == None && j'.updatedAt == now && j'.maxAttempts == j.maxAttempts
  }

  /** What a statement of a tick writes to a row there is, column by column. */
  lemma WritesAre(s: System, a: Action, id: int)
    requires Enabled(s, a) && id in s.jobs
    ensures
      var j, w, now := s.jobs[id], Writes(s, a), s.clock;
      match a
      case RecoverStale(_, _) =>
        && (id in w <==> j.status == Processing && j.updatedAt < now - 300_000)
        && (id in w ==> w[id] == j.(status := Retry, nextAttemptAt := now, updatedAt := now))
      case UpsertOne(p, position, at, _) =>
        && (id in w <==> id == at)
        && (id in w ==>
              PositionOf(j) == position &&
              var sv := s.services[p];
              FoundAgain(j, w[id], sv.phase.rest[position], Max(sv.cfg.maxAttempts, 1), now))
      case Judge(p, net, _) =>
        var phase := s.services[p].phase;
        id in phase.seen ==>
          && (id in w <==>
                && id == phase.todo[0]
                && (WentThrough(net, id, phase.seen[id]) || WentWrong(net, id, phase.seen[id], phase.checkedAt)))
          && (id in w && WentThrough(net, id, phase.seen[id]) ==>
                w[id] == j.(status := Claimed, claimedAt := Some(now), lastError := None, updatedAt := now))
          && (id in w && !WentThrough(net, id, phase.seen[id]) ==> TriedInVain(j, w[id], true, s.services[p].cfg, now))
      case Mark(p, _) =>
        && (id in w <==> id == s.services[p].phase.todo[0])
        && (id in w ==> w[id] == j.(status := Processing, updatedAt := now))
      case Record(p, _) =>
        var sv := s.services[p];
        && (id in w <==> id == sv.phase.todo[0])
        && (id in w ==>
              match sv.phase.answer
              case Accepted(tx) =>
                w[id] == j.(status := Submitted, txHash := Some(tx), submittedAt := Some(now), lastError := None,
                            updatedAt := now)
              case Refused(_, retryable) => TriedInVain(j, w[id], retryable, sv.cfg, now))
      case _ => id !in w
  {
    if a.Judge? {
      var phase := s.services[a.p].phase;
      if id in phase.seen { VerdictIs(a.net, id, phase.seen[id], phase.checkedAt); }
    }
  }

  /** With no position left, discovery is over until its interval has passed. */
  function Discovered(sv: Service, rest: Found, now: int): Service {
    sv.(nextDiscoveryAt := if rest == map[] then now + 1000 * sv.cfg.discoveryIntervalSec else sv.nextDiscoveryAt,
        phase := Upserting(rest, now))
  }

  /** The service that acts, afterwards. */
  ghost function Acted(s: System, a: Action): Service
    requires Enabled(s, a) && !a.Elapse?
  {
    var sv := s.services[a.p];
    match a
    case Start(_, cfg) => Service(cfg, true, s.clock, s.clock, Idle)
    case Abandon(_) => sv.(phase := Idle)
    case RecoverStale(_, ok) => sv.(needsRecovery := !ok)
    case Look(_, found) =>
      if s.clock < sv.nextDiscoveryAt then sv.(phase := Upserting(map[], s.clock))
      else if found.None? then sv
      else Discovered(sv, found.value, s.clock)
    case UpsertOne(_, position, _, ok) =>
      if ok then Discovered(sv, sv.phase.rest - {position}, sv.phase.now) else sv.(phase := Idle)
    case ListReceipts(_, ids) => sv.(phase := Judging(ids, s.jobs, s.clock, sv.phase.now))
    case Judge(_, _, ok) =>
      sv.(phase := if ok then Judging(sv.phase.todo[1..], sv.phase.seen, sv.phase.checkedAt, sv.phase.now) else Idle)
    case Count(_) =>
      var inFlight := |InFlight(s.jobs)|;
      sv.(phase := if inFlight < Cap(sv.cfg) && sv.phase.now >= sv.nextSubmissionAt
                   then Counted(Cap(sv.cfg) - inFlight) else Idle)
    case ListWaiting(_, ids) => sv.(phase := MarkingOf(Groups(sv.cfg, s.jobs, ids)))
    case Mark(_, ok) =>
      sv.(phase := if ok then Marking(sv.phase.todo[1..], sv.phase.marked + [sv.phase.todo[0]], sv.phase.later)
                   else Idle)
    case Send(_, answer) =>
      // a job that goes out alone and is rate limited is the last of its pass
      var limited := |sv.phase.marked| == 1 && RateLimited(answer);
      sv.(phase := Recording(sv.phase.marked, answer, limited, if limited then [] else sv.phase.later))
    case Record(_, ok) =>
      sv.(phase := if ok then Recording(sv.phase.todo[1..], sv.phase.answer, sv.phase.limited, sv.phase.later)
                   else Idle)
    case Next(_) =>
      sv.(phase := MarkingOf(sv.phase.later),
          nextSubmissionAt := if sv.phase.limited then CooldownUntil(s.clock, sv.cfg.retryBackoffMs)
                              else sv.nextSubmissionAt)
  }

  /** The parts of a tick come in order, recovery first, and a statement that is reported as failed ends it. */
  lemma TickInOrder(s: System, a: Action)
    requires Enabled(s, a) && !a.Elapse?
    ensures
      var sv, next := s.services[a.p], Acted(s, a).phase;
      || next.Idle?
      || match sv.phase
         case Idle => next.Upserting? && !sv.needsRecovery
         case Upserting(_, _) => next.Upserting? || next.Judging?
         case Judging(_, _, _, _) => next.Judging? || (next.Counted? && next.slots > 0)
         case Counted(_) => next.Marking?
         case Marking(_, _, _) => next.Marking? || next.Recording?
         case Recording(_, _, _, _) => next.Recording? || next.Marking?
    ensures a.Abandon? || a.Start? || ((a.UpsertOne? || a.Judge? || a.Mark? || a.Record?) && !a.ok) ==>
      Acted(s, a).phase == Idle
    ensures Acted(s, a).needsRecovery <==>
      a.Start? || (s.services[a.p].needsRecovery && !(a.RecoverStale? && a.ok))
  {
  }

  /** At any point time can pass, and a tick can fail or its service be replaced. */
  lemma AnyTime(s: System, p: nat, ms: nat, cfg: Config)
    requires p < |s.services|
    ensures Enabled(s, Elapse(ms)) && Enabled(s, Abandon(p)) && Enabled(s, Start(p, cfg))
  {
  }

  ghost function Do(s: System, a: Action): System
    requires Enabled(s, a)
  {
    if a.Elapse? then s.(clock := s.clock + a.ms)
    else s.(jobs := s.jobs + Writes(s, a), services := s.services[a.p := Acted(s, a)])
  }

  ghost predicate Runs(states: seq<System>, actions: seq<Action>) {
    && |states| == |actions| + 1
    && (forall i :: 0 <= i < |actions| ==> Enabled(states[i], actions[i]) && states[i + 1] == Do(states[i], actions[i]))
  }

  // Sums over the services

  ghost function Total(services: seq<Service>, f: Service -> nat): nat {
    if services == [] then 0 else Total(services[..|services| - 1], f) + f(services[|services| - 1])
  }

  lemma {:induction false} TotalReplaced(services: seq<Service>, f: Service -> nat, p: nat, sv: Service)
    requires p < |services|
    ensures Total(services[p := sv], f) + f(services[p]) == Total(services, f) + f(sv)
  {
    var n := |services| - 1;
    if p < n {
      TotalReplaced(services[..n], f, p, sv);
      assert services[p := sv][..n] == services[..n][p := sv];
    } else {
      assert services[p := sv][..n] == services[..n];
    }
  }

  // What holds of all states

  predicate SeenAll(phase: Phase) {
    phase.Judging? ==> forall id :: id in phase.todo ==> id in phase.seen
  }

  /** Limits are positive, and listed jobs exist. */
  ghost predicate Sane(s: System) {
    && (forall id :: id in s.jobs ==> s.jobs[id].maxAttempts > 0)
    && (forall p, id :: 0 <= p < |s.services| && id in HeldBy(s.services[p].phase) ==> id in s.jobs)
    && (forall p :: 0 <= p < |s.services| ==> SeenAll(s.services[p].phase))
  }

  lemma {:induction false} FlatSingly(ids: seq<int>)
    ensures Flat(Singly(ids)) == ids
  {
    if ids != [] {
      FlatSingly(ids[1..]);
      assert ids == [ids[0]] + ids[1..];
    }
  }

  lemma HeldMarking(groups: seq<seq<int>>)
    ensures HeldBy(MarkingOf(groups)) == Flat(groups)
  {
  }

  lemma FlatGroups(cfg: Config, t: Table, ids: seq<int>)
    ensures Flat(Groups(cfg, t, ids)) == BatchOf(cfg, t, ids) + SinglesOf(cfg, t, ids)
    ensures HeldBy(MarkingOf(Groups(cfg, t, ids))) == Flat(Groups(cfg, t, ids))
  {
    var batch, singles := BatchOf(cfg, t, ids), SinglesOf(cfg, t, ids);
    FlatSingly(singles);
    if batch != [] {
      assert Groups(cfg, t, ids)[1..] == Singly(singles);
    } else {
      assert Groups(cfg, t, ids) == Singly(singles);
    }
    HeldMarking(Groups(cfg, t, ids));
  }

  /** What a service holds afterwards it held before, or it has listed it just now. */
  lemma HeldAfter(s: System, a: Action, id: int)
    requires Enabled(s, a) && !a.Elapse? && id in HeldBy(Acted(s, a).phase)
    ensures id in HeldBy(s.services[a.p].phase) || (a.ListReceipts? && id in a.ids) || (a.ListWaiting? && id in a.ids)
  {
    match a
    case ListWaiting(_, ids) =>
      var sv := s.services[a.p];
      FlatGroups(sv.cfg, s.jobs, ids);
      PlanIsDistinct(sv.cfg, s.jobs, ids);
    case Next(_) => HeldMarking(s.services[a.p].phase.later);
    case Mark(_, _) =>
    case Send(_, _) =>
    case Record(_, _) =>
    case Judge(_, _, _) =>
    case _ =>
  }

  lemma ListedExist(s: System, a: Action, id: int)
    requires Enabled(s, a) && ((a.ListReceipts? && id in a.ids) || (a.ListWaiting? && id in a.ids))
    ensures id in s.jobs
    ensures a.ListWaiting? ==> s.jobs[id].status == Pending || s.jobs[id].status == Retry
    ensures a.ListReceipts? ==> s.jobs[id].status == Submitted
  {
    if a.ListWaiting? { assert id in DueRows(s.jobs, s.clock); } else { assert id in InFlight(s.jobs); }
  }

  lemma RowAfter(s: System, a: Action, id: int)
    requires Enabled(s, a)
    ensures id in s.jobs ==> id in Do(s, a).jobs && Do(s, a).jobs[id].maxAttempts >= s.jobs[id].maxAttempts
    ensures id in Do(s, a).jobs && id !in s.jobs ==> a.UpsertOne? && a.id == id && Do(s, a).jobs[id].maxAttempts > 0
  {
  }

  lemma StaysSane(s: System, a: Action)
    requires Enabled(s, a) && Sane(s)
    ensures Sane(Do(s, a))
  {
    var s' := Do(s, a);
    forall id | id in s'.jobs ensures s'.jobs[id].maxAttempts > 0 { RowAfter(s, a, id); }
    forall p, id | 0 <= p < |s'.services| && id in HeldBy(s'.services[p].phase) ensures id in s'.jobs {
      if !a.Elapse? && p == a.p {
        HeldAfter(s, a, id);
        if id !in HeldBy(s.services[p].phase) { ListedExist(s, a, id); }
      }
      RowAfter(s, a, id);
    }
    if a.ListReceipts? { forall id | id in a.ids ensures id in s.jobs { ListedExist(s, a, id); } }
  }

  lemma {:induction false} SaneThroughout(states: seq<System>, actions: seq<Action>, n: nat)
    requires Runs(states, actions) && Sane(states[0]) && n <= |actions|
    ensures Sane(states[n])
  {
    if n > 0 {
      SaneThroughout(states, actions, n - 1);
      StaysSane(states[n - 1], actions[n - 1]);
    }
  }
}
