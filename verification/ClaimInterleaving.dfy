/** What holds of the auto-claim table however the statements of several services interleave: how often a job is
    submitted, how many jobs are in flight, and which jobs nobody touches any more. */
module ClaimInterleaving {
  import opened Common
  import opened Sorting
  import opened ClaimJobs
  import opened ClaimPlan
  import opened RowOrder
  import opened ClaimRepository
  import opened ClaimServices

  // How often is a job submitted?

  /** What an action submits. */
  ghost function Sent(s: System, a: Action): multiset<int>
    requires Enabled(s, a)
  {
    if a.Send? then multiset(s.services[a.p].phase.marked) else multiset{}
  }

  /** The job came to be, was found again or was recovered. */
  ghost predicate Renews(s: System, a: Action, id: int)
    requires Enabled(s, a)
  {
    (a.RecoverStale? || a.UpsertOne?) && id in Writes(s, a)
  }

  /** A pass marks a job that is no longer as it was listed: another pass has marked it since. */
  ghost predicate Collides(s: System, a: Action, id: int)
    requires Enabled(s, a)
  {
    a.Mark? && id in Writes(s, a) && s.jobs[id].status != Pending && s.jobs[id].status != Retry
  }

  ghost function SentIn(states: seq<System>, actions: seq<Action>, n: nat, id: int): nat
    requires Runs(states, actions) && n <= |actions|
  {
    if n == 0 then 0 else SentIn(states, actions, n - 1, id) + Sent(states[n - 1], actions[n - 1])[id]
  }

  ghost function RenewalsIn(states: seq<System>, actions: seq<Action>, n: nat, id: int): nat
    requires Runs(states, actions) && n <= |actions|
  {
    if n == 0 then 0
    else RenewalsIn(states, actions, n - 1, id) + if Renews(states[n - 1], actions[n - 1], id) then 1 else 0
  }

  ghost function CollisionsIn(states: seq<System>, actions: seq<Action>, n: nat, id: int): nat
    requires Runs(states, actions) && n <= |actions|
  {
    if n == 0 then 0
    else CollisionsIn(states, actions, n - 1, id) + if Collides(states[n - 1], actions[n - 1], id) then 1 else 0
  }

  /** How often a pass that holds nothing yet may still submit the job. */
  function Worthy(j: Job): nat {
    if j.status == Pending || j.status == Retry then Max(j.maxAttempts - j.attempts, 1)
    else Max(j.maxAttempts - j.attempts - 1, 0)
  }

  /** How often a service has marked the job without having submitted it yet. */
  ghost function InHand(id: int): Service -> nat {
    (sv: Service) => if sv.phase.Marking? then multiset(sv.phase.marked)[id] else 0
  }

  ghost function Credit(s: System, id: int): nat {
    (if id in s.jobs then Worthy(s.jobs[id]) else 0) + Total(s.services, InHand(id))
  }

  // What a step costs

  ghost function RowWorth(s: System, id: int): nat {
    if id in s.jobs then Worthy(s.jobs[id]) else 0
  }

  lemma MarkedCount(marked: seq<int>, x: int, id: int)
    ensures multiset(marked + [x])[id] == multiset(marked)[id] + if x == id then 1 else 0
  {
  }

  lemma HandAfter(s: System, a: Action, id: int)
    requires Enabled(s, a) && !a.Elapse?
    ensures
      var before, after := InHand(id)(s.services[a.p]), InHand(id)(Acted(s, a));
      if a.Mark? then after <= before + if s.services[a.p].phase.todo[0] == id then 1 else 0
      else after + Sent(s, a)[id] <= before
  {
    if a.Mark? { MarkedCount(s.services[a.p].phase.marked, s.services[a.p].phase.todo[0], id); }
  }

  lemma RowPays(s: System, a: Action, id: int)
    requires Enabled(s, a) && Sane(s)
    ensures
      var after := RowWorth(Do(s, a), id);
      if Renews(s, a, id) then after <= Do(s, a).jobs[id].maxAttempts
      else if a.Mark? && s.services[a.p].phase.todo[0] == id
      then after + 1 <= RowWorth(s, id) + if Collides(s, a, id) then 1 else 0
      else after <= RowWorth(s, id)
  {
    if a.Mark? && s.services[a.p].phase.todo[0] == id {
      assert id in HeldBy(s.services[a.p].phase);
    }
  }

  lemma StepPays(s: System, a: Action, id: int)
    requires Enabled(s, a) && Sane(s)
    ensures
      Credit(Do(s, a), id) + Sent(s, a)[id] <=
      Credit(s, id) + (if Renews(s, a, id) then Do(s, a).jobs[id].maxAttempts else 0)
        + if Collides(s, a, id) then 1 else 0
  {
    RowPays(s, a, id);
    if !a.Elapse? {
      HandAfter(s, a, id);
      TotalReplaced(s.services, InHand(id), a.p, Acted(s, a));
    }
  }

  ghost function LimitOf(s: System, id: int): nat {
    if id in s.jobs then s.jobs[id].maxAttempts else 0
  }

  /** What one step adds to both sides of the bound. */
  lemma BoundGrows(sent: nat, credit: nat, start: nat, renewals: nat, limit: nat, collisions: nat, more: nat,
                   credit': nat, limit': nat, renews: bool, collides: bool)
    requires sent + credit <= start + Worth(renewals, limit) + collisions && limit <= limit'
    requires credit' + more <= credit + (if renews then limit' else 0) + if collides then 1 else 0
    ensures
      sent + more + credit' <=
      start + Worth(renewals + (if renews then 1 else 0), limit') + collisions + if collides then 1 else 0
  {
    WorthGrows(renewals, limit, limit');
  }

  lemma {:induction false} SubmissionsArePaid(states: seq<System>, actions: seq<Action>, n: nat, id: int)
    requires Runs(states, actions) && Sane(states[0]) && n <= |actions|
    ensures
      SentIn(states, actions, n, id) + Credit(states[n], id) <=
      Credit(states[0], id) + Worth(RenewalsIn(states, actions, n, id), LimitOf(states[n], id))
        + CollisionsIn(states, actions, n, id)
  {
    if n > 0 {
      var s, a := states[n - 1], actions[n - 1];
      SubmissionsArePaid(states, actions, n - 1, id);
      SaneThroughout(states, actions, n - 1);
      StepPays(s, a, id);
      RowAfter(s, a, id);
      BoundGrows(SentIn(states, actions, n - 1, id), Credit(s, id), Credit(states[0], id),
                 RenewalsIn(states, actions, n - 1, id), LimitOf(s, id), CollisionsIn(states, actions, n - 1, id),
                 Sent(s, a)[id], Credit(states[n], id), LimitOf(states[n], id), Renews(s, a, id), Collides(s, a, id));
    }
  }

  /** Over every interleaving of any services, whatever fails: a job is submitted no more often than its attempts left
      allow, plus its limit for every renewal, plus once for every time a pass marked it after another pass had. */
  lemma SubmissionsBounded(states: seq<System>, actions: seq<Action>, n: nat, id: int)
    requires Runs(states, actions) && Sane(states[0]) && n <= |actions|
    ensures
      SentIn(states, actions, n, id) + Credit(states[n], id) <=
      Credit(states[0], id) + RenewalsIn(states, actions, n, id) * LimitOf(states[n], id)
        + CollisionsIn(states, actions, n, id)
  {
    SubmissionsArePaid(states, actions, n, id);
    WorthIsProduct(RenewalsIn(states, actions, n, id), LimitOf(states[n], id));
  }

  lemma {:induction false} NothingInHand(services: seq<Service>, id: int)
    requires forall p :: 0 <= p < |services| ==> services[p].phase.Idle?
    ensures Total(services, InHand(id)) == 0
  {
    if services != [] { NothingInHand(services[..|services| - 1], id); }
  }

  /** Without renewals and collisions, a job that waits for a pass is submitted at most as often as it has attempts
      left. */
  lemma SubmissionsWithinAttempts(states: seq<System>, actions: seq<Action>, n: nat, id: int)
    requires Runs(states, actions) && Sane(states[0]) && n <= |actions|
    requires forall p :: 0 <= p < |states[0].services| ==> states[0].services[p].phase.Idle?
    requires id in states[0].jobs && Submittable(states[0].jobs[id])
    requires RenewalsIn(states, actions, n, id) == 0
    ensures
      SentIn(states, actions, n, id) <=
      states[0].jobs[id].maxAttempts - states[0].jobs[id].attempts + CollisionsIn(states, actions, n, id)
  {
    SubmissionsBounded(states, actions, n, id);
    NothingInHand(states[0].services, id);
  }

  // How many jobs are in flight?

  /** How many jobs the pass of a service may still put in flight. */
  ghost function SlotsOf(sv: Service): nat {
    match sv.phase
    case Counted(slots) => slots
    case Marking(todo, marked, later) => |HeldBy(sv.phase)|
    case Recording(todo, _, _, later) => |HeldBy(sv.phase)|
    case _ => 0
  }

  ghost function Sum(bounds: seq<nat>): nat {
    if bounds == [] then 0 else Sum(bounds[..|bounds| - 1]) + bounds[|bounds| - 1]
  }

  /** A relayer service may have one job in flight, a direct one its batch size, and at least one. */
  predicate CapFits(cfg: Config, bound: nat) {
    1 <= bound && (cfg.mode == Direct ==> cfg.processBatchSize <= bound)
  }

  /** No service has a larger cap, or more slots, than its place allows. */
  ghost predicate Fits(services: seq<Service>, bounds: seq<nat>) {
    && |services| == |bounds|
    && (forall p :: 0 <= p < |services| ==> CapFits(services[p].cfg, bounds[p]) && SlotsOf(services[p]) <= bounds[p])
  }

  ghost predicate StartsFit(a: Action, bounds: seq<nat>) {
    a.Start? ==> a.p < |bounds| && CapFits(a.cfg, bounds[a.p])
  }

  lemma {:induction false} TotalBelow(services: seq<Service>, bounds: seq<nat>)
    requires Fits(services, bounds)
    ensures Total(services, SlotsOf) <= Sum(bounds)
  {
    var n := |services| - 1;
    if n >= 0 { TotalBelow(services[..n], bounds[..n]); }
  }

  lemma {:induction false} TotalFits(services: seq<Service>, bounds: seq<nat>, p: nat)
    requires Fits(services, bounds) && p < |services|
    ensures Total(services, SlotsOf) + bounds[p] <= Sum(bounds) + SlotsOf(services[p])
  {
    var n := |services| - 1;
    if p < n {
      TotalFits(services[..n], bounds[..n], p);
    } else {
      TotalBelow(services[..n], bounds[..n]);
    }
  }

  lemma GroupsAreFew(cfg: Config, t: Table, ids: seq<int>)
    ensures |Flat(Groups(cfg, t, ids))| <= |ids|
  {
    var p := SafeOwned(t, cfg.safeAddress);
    FlatGroups(cfg, t, ids);
    PlanSplits(cfg, t, ids);
    PickIsExact(ids, p);
    assert |multiset(Pick(ids, p, true))| + |multiset(Pick(ids, p, false))| == |multiset(ids)|;
  }

  /** What a step does to the slots of the service that acts. */
  lemma SlotsAfter(s: System, a: Action)
    requires Enabled(s, a) && !a.Elapse?
    ensures
      var before, after := SlotsOf(s.services[a.p]), SlotsOf(Acted(s, a));
      if a.Count? then after == 0 || after + |InFlight(s.jobs)| == Cap(s.services[a.p].cfg)
      else after + (if a.Record? then 1 else 0) <= before
  {
    if a.ListWaiting? {
      var sv := s.services[a.p];
      GroupsAreFew(sv.cfg, s.jobs, a.ids);
      FlatGroups(sv.cfg, s.jobs, a.ids);
    } else if a.Next? {
      HeldMarking(s.services[a.p].phase.later);
    }
  }

  lemma FlightAfter(s: System, a: Action)
    requires Enabled(s, a)
    ensures |InFlight(Do(s, a).jobs)| <= |InFlight(s.jobs)| + if a.Record? then 1 else 0
  {
    var before, after := InFlight(s.jobs), InFlight(Do(s, a).jobs);
    if a.Record? {
      var id := s.services[a.p].phase.todo[0];
      assert after <= before + {id};
      SubsetSize(after, before + {id});
    } else {
      forall id | id in after ensures id in before { RowAfter(s, a, id); }
      SubsetSize(after, before);
    }
  }

  lemma StepFits(s: System, a: Action, bounds: seq<nat>, bound: nat)
    requires Enabled(s, a) && Fits(s.services, bounds) && StartsFit(a, bounds)
    requires |InFlight(s.jobs)| + Total(s.services, SlotsOf) <= bound && Sum(bounds) <= bound
    ensures Fits(Do(s, a).services, bounds)
    ensures |InFlight(Do(s, a).jobs)| + Total(Do(s, a).services, SlotsOf) <= bound
  {
    FlightAfter(s, a);
    if !a.Elapse? {
      SlotsAfter(s, a);
      TotalReplaced(s.services, SlotsOf, a.p, Acted(s, a));
      assert a.Count? ==> SlotsOf(s.services[a.p]) == 0;
      if a.Count? && SlotsOf(Acted(s, a)) > 0 { TotalFits(Do(s, a).services, bounds, a.p); }
    }
  }

  /** No interleaving puts more jobs in flight than there were, with those that passes under way may still add, or than
      the caps of all places together. */
  lemma {:induction false} InFlightWithinCaps(states: seq<System>, actions: seq<Action>, n: nat, bounds: seq<nat>)
    requires Runs(states, actions) && n <= |actions| && Fits(states[0].services, bounds)
    requires forall i :: 0 <= i < |actions| ==> StartsFit(actions[i], bounds)
    ensures Fits(states[n].services, bounds)
    ensures
      |InFlight(states[n].jobs)| + Total(states[n].services, SlotsOf) <=
      Max(|InFlight(states[0].jobs)| + Total(states[0].services, SlotsOf), Sum(bounds))
  {
    if n > 0 {
      InFlightWithinCaps(states, actions, n - 1, bounds);
      StepFits(states[n - 1], actions[n - 1], bounds,
               Max(|InFlight(states[0].jobs)| + Total(states[0].services, SlotsOf), Sum(bounds)));
    }
  }

  // Stale writes

  predicate StaleRow(status: Status, a: Action) {
    || (a.Mark? && status != Pending && status != Retry)
    || (a.Record? && status != Processing)
    || (a.Judge? && status != Submitted)
  }

  /** The row is no longer what the tick took it for: due when marked, in processing when recorded, submitted when
      judged. */
  ghost predicate Stale(s: System, a: Action)
    requires Enabled(s, a)
  {
    exists id :: id in Writes(s, a) && id in s.jobs && StaleRow(s.jobs[id].status, a)
  }

  lemma RowKeepsWithin(s: System, a: Action, id: int)
    requires Enabled(s, a) && id in Writes(s, a) && (id in s.jobs ==> WithinAttempts(s.jobs[id]))
    requires id in s.jobs ==> !StaleRow(s.jobs[id].status, a)
    ensures WithinAttempts(Writes(s, a)[id])
    ensures id in s.jobs ==>
      && PositionOf(Writes(s, a)[id]) == PositionOf(s.jobs[id])
      && (s.jobs[id].status == Claimed ==> Writes(s, a)[id].status == Claimed)
  {
  }

  lemma PositionsStayApart(s: System, a: Action)
    requires Enabled(s, a) && !a.Elapse?
    requires forall x, y :: x in s.jobs && y in s.jobs && x != y ==> PositionOf(s.jobs[x]) != PositionOf(s.jobs[y])
    requires forall id :: id in Writes(s, a) && id in s.jobs ==> PositionOf(Writes(s, a)[id]) == PositionOf(s.jobs[id])
    ensures
      var after := Do(s, a).jobs;
      forall x, y :: x in after && y in after && x != y ==> PositionOf(after[x]) != PositionOf(after[y])
  {
    var after := Do(s, a).jobs;
    forall x, y | x in after && y in after && x != y ensures PositionOf(after[x]) != PositionOf(after[y]) {
      if a.UpsertOne? { assert !HasJob(s.jobs, a.position) || a.id in s.jobs; }
    }
  }

  /** Only a stale write can break the attempt limits or take a job out of the claimed state. */
  lemma StepKeeps(s: System, a: Action)
    requires Enabled(s, a) && WellFormed(s.jobs) && !Stale(s, a)
    ensures WellFormed(Do(s, a).jobs)
    ensures forall id :: id in s.jobs && s.jobs[id].status == Claimed ==> Do(s, a).jobs[id].status == Claimed
  {
    if !a.Elapse? {
      forall id | id in Writes(s, a)
        ensures WithinAttempts(Writes(s, a)[id])
        ensures id in s.jobs ==>
          && PositionOf(Writes(s, a)[id]) == PositionOf(s.jobs[id])
          && (s.jobs[id].status == Claimed ==> Writes(s, a)[id].status == Claimed)
      {
        RowKeepsWithin(s, a, id);
      }
      PositionsStayApart(s, a);
    }
  }

  lemma {:induction false} KeptUnlessStale(states: seq<System>, actions: seq<Action>, n: nat)
    requires Runs(states, actions) && n <= |actions| && WellFormed(states[0].jobs)
    requires forall i :: 0 <= i < n ==> !Stale(states[i], actions[i])
    ensures WellFormed(states[n].jobs)
    ensures forall id :: id in states[0].jobs && states[0].jobs[id].status == Claimed ==>
      id in states[n].jobs && states[n].jobs[id].status == Claimed
  {
    if n > 0 {
      KeptUnlessStale(states, actions, n - 1);
      StepKeeps(states[n - 1], actions[n - 1]);
    }
  }

  // Ticks one at a time

  /** Whenever a service acts, no other is in the middle of a tick. */
  ghost predicate Apart(states: seq<System>, actions: seq<Action>)
    requires Runs(states, actions)
  {
    forall i, q :: 0 <= i < |actions| && !actions[i].Elapse? && 0 <= q < |states[i].services| && q != actions[i].p ==>
      states[i].services[q].phase.Idle?
  }

  ghost predicate Waiting(t: Table, id: int) {
    id in t && (t[id].status == Pending || t[id].status == Retry)
  }

  ghost predicate HasStatus(t: Table, id: int, status: Status) {
    id in t && t[id].status == status
  }

  /** What a tick holds is still as it listed or left it. */
  ghost predicate Fresh(t: Table, phase: Phase) {
    && Distinct(HeldBy(phase))
    && match phase
       case Judging(todo, _, _, _) => forall id :: id in todo ==> HasStatus(t, id, Submitted)
       case Marking(todo, marked, later) =>
         && (forall id :: id in todo + Flat(later) ==> Waiting(t, id))
         && (forall id :: id in marked ==> HasStatus(t, id, Processing))
       case Recording(todo, _, _, later) =>
         && (forall id :: id in Flat(later) ==> Waiting(t, id))
         && (forall id :: id in todo ==> HasStatus(t, id, Processing))
       case _ => true
  }

  lemma FreshIsNotStale(s: System, a: Action)
    requires Enabled(s, a) && (!a.Elapse? ==> Fresh(s.jobs, s.services[a.p].phase))
    ensures !Stale(s, a)
  {
    if !a.Elapse? {
      var phase := s.services[a.p].phase;
      match a
      case Mark(_, _) => assert phase.todo[0] in phase.todo + Flat(phase.later);
      case Record(_, _) => assert phase.todo[0] in phase.todo;
      case Judge(_, _, _) => assert phase.todo[0] in phase.todo;
      case _ =>
    }
  }

  lemma DistinctTail<T>(s: seq<T>, t: seq<T>)
    requires Distinct(s + t) && s != []
    ensures Distinct(s[1..] + t) && s[0] !in s[1..] + t
  {
    var all := s + t;
    assert s[1..] + t == all[1..];
    assert s[0] == all[0];
  }

  lemma HeadMoves(todo: seq<int>, marked: seq<int>, rest: seq<int>)
    requires todo != [] && Distinct(todo + marked + rest)
    ensures Distinct(todo[1..] + (marked + [todo[0]]) + rest)
    ensures forall id :: id in todo[1..] + rest || id in marked ==> id != todo[0]
  {
    var before, after := todo + marked + rest, todo[1..] + (marked + [todo[0]]) + rest;
    assert todo == [todo[0]] + todo[1..];
    assert multiset(after) == multiset(before);
    SameMultiset(after, before);
    assert before == todo + (marked + rest);
    DistinctTail(todo, marked + rest);
  }

  lemma MarkStaysFresh(s: System, a: Action)
    requires Enabled(s, a) && a.Mark? && Fresh(s.jobs, s.services[a.p].phase)
    ensures Fresh(Do(s, a).jobs, Acted(s, a).phase)
  {
    var phase := s.services[a.p].phase;
    var rest := Flat(phase.later);
    HeadMoves(phase.todo, phase.marked, rest);
    assert phase.todo[0] in phase.todo + rest;
    if a.ok {
      forall id | id in phase.todo[1..] + rest ensures Waiting(Do(s, a).jobs, id) { assert id in phase.todo + rest; }
    }
  }

  lemma MarkingIsFresh(t: Table, groups: seq<seq<int>>)
    requires Distinct(Flat(groups)) && forall id :: id in Flat(groups) ==> Waiting(t, id)
    ensures Fresh(t, MarkingOf(groups))
  {
    if groups != [] { assert groups[0] + [] + Flat(groups[1..]) == Flat(groups); }
  }

  lemma ListingIsFresh(s: System, a: Action)
    requires Enabled(s, a) && (a.ListReceipts? || a.ListWaiting?)
    ensures Fresh(Do(s, a).jobs, Acted(s, a).phase)
  {
    if a.ListReceipts? {
      forall id | id in a.ids ensures HasStatus(s.jobs, id, Submitted) { ListedExist(s, a, id); }
    } else {
      forall id | id in a.ids ensures Waiting(s.jobs, id) { ListedExist(s, a, id); }
      FlatGroups(s.services[a.p].cfg, s.jobs, a.ids);
      PlanIsDistinct(s.services[a.p].cfg, s.jobs, a.ids);
      MarkingIsFresh(s.jobs, Groups(s.services[a.p].cfg, s.jobs, a.ids));
    }
  }

  lemma JudgeStaysFresh(s: System, a: Action)
    requires Enabled(s, a) && a.Judge? && Fresh(s.jobs, s.services[a.p].phase)
    ensures Fresh(Do(s, a).jobs, Acted(s, a).phase)
  {
    var todo := s.services[a.p].phase.todo;
    assert todo == todo + [] && todo[1..] + [] == todo[1..];
    DistinctTail(todo, []);
    forall id | id in todo[1..] ensures HasStatus(Do(s, a).jobs, id, Submitted) {
      assert HasStatus(s.jobs, id, Submitted);
    }
  }

  lemma RecordStaysFresh(s: System, a: Action)
    requires Enabled(s, a) && a.Record? && Fresh(s.jobs, s.services[a.p].phase)
    ensures Fresh(Do(s, a).jobs, Acted(s, a).phase)
  {
    var todo, rest := s.services[a.p].phase.todo, Flat(s.services[a.p].phase.later);
    DistinctTail(todo, rest);
    forall id | id in rest ensures Waiting(Do(s, a).jobs, id) { assert id in todo[1..] + rest; }
    forall id | id in todo[1..] ensures HasStatus(Do(s, a).jobs, id, Processing) {
      assert id in todo[1..] + rest && HasStatus(s.jobs, id, Processing);
    }
  }

  lemma DistinctFront<T>(s: seq<T>, t: seq<T>)
    requires Distinct(s + t)
    ensures Distinct(s)
  {
    forall i, j | 0 <= i < j < |s| ensures s[i] != s[j] { assert (s + t)[i] == s[i] && (s + t)[j] == s[j]; }
  }

  lemma RecordingIsFresh(t: Table, marked: seq<int>, later: seq<seq<int>>, answer: Submission, limited: bool)
    requires Fresh(t, Marking([], marked, later))
    ensures Fresh(t, Recording(marked, answer, limited, if limited then [] else later))
  {
    var rest := Flat(later);
    assert [] + marked + rest == marked + rest;
    if limited {
      DistinctFront(marked, rest);
      assert marked + [] == marked;
    } else {
      forall id | id in rest ensures Waiting(t, id) { assert id in [] + rest; }
    }
  }

  lemma SendStaysFresh(s: System, a: Action)
    requires Enabled(s, a) && a.Send? && Fresh(s.jobs, s.services[a.p].phase)
    ensures Fresh(Do(s, a).jobs, Acted(s, a).phase)
  {
    var phase, after := s.services[a.p].phase, Acted(s, a).phase;
    RecordingIsFresh(s.jobs, phase.marked, phase.later, a.answer, after.limited);
    assert Do(s, a).jobs == s.jobs;
  }

  lemma StaysFresh(s: System, a: Action)
    requires Enabled(s, a) && !a.Elapse? && Fresh(s.jobs, s.services[a.p].phase)
    ensures Fresh(Do(s, a).jobs, Acted(s, a).phase)
  {
    match a
    case ListReceipts(_, _) => ListingIsFresh(s, a);
    case ListWaiting(_, _) => ListingIsFresh(s, a);
    case Judge(_, _, _) => JudgeStaysFresh(s, a);
    case Mark(_, _) => MarkStaysFresh(s, a);
    case Send(_, _) => SendStaysFresh(s, a);
    case Record(_, _) => RecordStaysFresh(s, a);
    case Next(_) =>
      var later := s.services[a.p].phase.later;
      assert [] + Flat(later) == Flat(later);
      MarkingIsFresh(s.jobs, later);
    case _ =>
  }

  /** All services are fresh, and at most the one that acts is not idle. */
  lemma AllStayFresh(s: System, a: Action)
    requires Enabled(s, a) && forall p :: 0 <= p < |s.services| ==> Fresh(s.jobs, s.services[p].phase)
    requires !a.Elapse? ==> forall q :: 0 <= q < |s.services| && q != a.p ==> s.services[q].phase.Idle?
    ensures forall p :: 0 <= p < |Do(s, a).services| ==> Fresh(Do(s, a).jobs, Do(s, a).services[p].phase)
  {
    if !a.Elapse? {
      StaysFresh(s, a);
      forall p | 0 <= p < |s.services| ensures Fresh(Do(s, a).jobs, Do(s, a).services[p].phase) {
        if p != a.p { assert s.services[p].phase.Idle?; }
      }
    }
  }

  lemma {:induction false} ApartIsFresh(states: seq<System>, actions: seq<Action>, n: nat)
    requires Runs(states, actions) && Apart(states, actions) && n <= |actions|
    requires forall p :: 0 <= p < |states[0].services| ==> states[0].services[p].phase.Idle?
    ensures forall p :: 0 <= p < |states[n].services| ==> Fresh(states[n].jobs, states[n].services[p].phase)
  {
    if n > 0 {
      ApartIsFresh(states, actions, n - 1);
      AllStayFresh(states[n - 1], actions[n - 1]);
    }
  }

  lemma AllFreshIsNotStale(s: System, a: Action)
    requires Enabled(s, a) && forall p :: 0 <= p < |s.services| ==> Fresh(s.jobs, s.services[p].phase)
    ensures !Stale(s, a)
  {
    if !a.Elapse? { assert Fresh(s.jobs, s.services[a.p].phase); }
    FreshIsNotStale(s, a);
  }

  lemma CollisionsAreStale(s: System, a: Action)
    requires Enabled(s, a) && !Stale(s, a)
    ensures forall id :: !Collides(s, a, id)
  {
    forall id ensures !Collides(s, a, id) {
      if id in Writes(s, a) && id in s.jobs { assert !StaleRow(s.jobs[id].status, a); }
    }
  }

  /** Services whose ticks do not overlap never write a stale row: what is proved of ticks one after the other holds of
      them, and there are no collisions. */
  lemma ApartIsNeverStale(states: seq<System>, actions: seq<Action>, i: nat)
    requires Runs(states, actions) && Apart(states, actions) && i < |actions|
    requires forall p :: 0 <= p < |states[0].services| ==> states[0].services[p].phase.Idle?
    ensures !Stale(states[i], actions[i]) && forall id :: !Collides(states[i], actions[i], id)
  {
    ApartIsFresh(states, actions, i);
    AllFreshIsNotStale(states[i], actions[i]);
    CollisionsAreStale(states[i], actions[i]);
  }

  // Jobs that nobody touches any more

  /** Claimed, failed, skipped, or left in processing: no listing takes it. */
  predicate Settled(j: Job) {
    j.status != Pending && j.status != Retry && j.status != Submitted
  }

  ghost predicate Unheld(s: System, id: int) {
    forall p :: 0 <= p < |s.services| ==> id !in HeldBy(s.services[p].phase)
  }

  lemma StaysSettled(s: System, a: Action, id: int)
    requires Enabled(s, a) && id in s.jobs && Settled(s.jobs[id]) && Unheld(s, id) && !Renews(s, a, id)
    ensures id in Do(s, a).jobs && Do(s, a).jobs[id] == s.jobs[id] && Unheld(Do(s, a), id) && Sent(s, a)[id] == 0
  {
    if !a.Elapse? {
      assert id !in HeldBy(s.services[a.p].phase);
      if id in HeldBy(Acted(s, a).phase) {
        HeldAfter(s, a, id);
        ListedExist(s, a, id);
      }
    }
  }

  ghost predicate Untouched(states: seq<System>, actions: seq<Action>, id: int)
    requires Runs(states, actions)
  {
    && id in states[0].jobs && id in states[|actions|].jobs && states[|actions|].jobs[id] == states[0].jobs[id]
    && SentIn(states, actions, |actions|, id) == 0
  }

  /** From here on, whatever the services do, the job stays as it is unless it is found again or recovered. */
  ghost predicate StaysForGood(s: System, id: int) {
    forall states, actions ::
      Runs(states, actions) && states[0] == s && RenewalsIn(states, actions, |actions|, id) == 0 ==>
      Untouched(states, actions, id)
  }

  lemma {:induction false} SettledRun(states: seq<System>, actions: seq<Action>, n: nat, id: int)
    requires Runs(states, actions) && n <= |actions| && RenewalsIn(states, actions, n, id) == 0
    requires id in states[0].jobs && Settled(states[0].jobs[id]) && Unheld(states[0], id)
    ensures id in states[n].jobs && states[n].jobs[id] == states[0].jobs[id] && Unheld(states[n], id)
    ensures SentIn(states, actions, n, id) == 0
  {
    if n > 0 {
      SettledRun(states, actions, n - 1, id);
      StaysSettled(states[n - 1], actions[n - 1], id);
    }
  }

  /** A claimed job that no tick holds is claimed for good, and never submitted again, even if it is found again. */
  lemma {:induction false} ClaimedForGood(states: seq<System>, actions: seq<Action>, n: nat, id: int)
    requires Runs(states, actions) && n <= |actions|
    requires HasStatus(states[0].jobs, id, Claimed) && Unheld(states[0], id)
    ensures HasStatus(states[n].jobs, id, Claimed) && Unheld(states[n], id) && SentIn(states, actions, n, id) == 0
  {
    if n > 0 {
      var s, a := states[n - 1], actions[n - 1];
      ClaimedForGood(states, actions, n - 1, id);
      if Renews(s, a, id) { assert a.UpsertOne? && a.id == id; } else { StaysSettled(s, a, id); }
    }
  }

  // A service that holds a settled job can disturb it

  lemma OneStep(s: System, a: Action)
    requires Enabled(s, a)
    ensures Runs([s, Do(s, a)], [a])
  {
  }

  lemma {:induction false} PrependCounts(s: System, a: Action, states: seq<System>, actions: seq<Action>, n: nat,
                                         id: int)
    requires Enabled(s, a) && Runs(states, actions) && Runs([s] + states, [a] + actions) && n <= |actions|
    ensures RenewalsIn([s] + states, [a] + actions, n + 1, id) ==
      RenewalsIn(states, actions, n, id) + if Renews(s, a, id) then 1 else 0
  {
    if n > 0 { PrependCounts(s, a, states, actions, n - 1, id); }
  }

  /** Runs compose, and so do their counts. */
  lemma Prepend(s: System, a: Action, states: seq<System>, actions: seq<Action>, id: int)
    requires Enabled(s, a) && Runs(states, actions) && states[0] == Do(s, a)
    requires !Renews(s, a, id) && RenewalsIn(states, actions, |actions|, id) == 0
    ensures Runs([s] + states, [a] + actions) && RenewalsIn([s] + states, [a] + actions, |actions| + 1, id) == 0
  {
    var longer, more := [s] + states, [a] + actions;
    forall i | 0 <= i < |more| ensures Enabled(longer[i], more[i]) && longer[i + 1] == Do(longer[i], more[i]) {
      if i > 0 { assert longer[i] == states[i - 1] && more[i] == actions[i - 1]; }
    }
    PrependCounts(s, a, states, actions, |actions|, id);
  }

  /** Looks up nothing and parses no hash: every receipt is given up. */
  const NO_RECEIPTS := Network((_: nat, _: Statement) => Fate(0, true, true), (_: int) => Accepted(""), true, true,
                               Accepted(""), (_: string) => false, (_: int) => NoReceipt, None)

  /** The next action of a service that holds something. */
  function NextAction(phase: Phase, p: nat): Action {
    match phase
    case Judging(_, _, _, _) => Judge(p, NO_RECEIPTS, true)
    case Marking(todo, _, _) => if todo == [] then Send(p, Accepted("")) else Mark(p, true)
    case Recording(todo, _, _, _) => if todo == [] then Next(p) else Record(p, true)
    case _ => Abandon(p)
  }

  function Groupwise(phase: Phase): nat {
    match phase
    case Marking(_, _, later) => |later|
    case Recording(_, _, _, later) => |later|
    case _ => 0
  }

  function Ahead(phase: Phase): nat {
    match phase
    case Judging(todo, _, _, _) => |todo|
    case Marking(todo, _, _) => |todo|
    case Recording(todo, _, _, _) => |todo|
    case _ => 0
  }

  lemma NextDisturbs(s: System, p: nat, id: int)
    requires Sane(s) && p < |s.services| && id in HeldBy(s.services[p].phase) && Settled(s.jobs[id])
    ensures
      var a := NextAction(s.services[p].phase, p);
      && Enabled(s, a) && !Renews(s, a, id) && Sane(Do(s, a)) && id in Do(s, a).jobs
      && (Do(s, a).jobs[id] != s.jobs[id] || id in HeldBy(Do(s, a).services[p].phase))
  {
    var a := NextAction(s.services[p].phase, p);
    StaysSane(s, a);
    RowAfter(s, a, id);
    if a.Next? { HeldMarking(s.services[p].phase.later); }
  }

  lemma NextShrinks(s: System, p: nat, id: int)
    requires p < |s.services| && id in HeldBy(s.services[p].phase)
    requires
      var a := NextAction(s.services[p].phase, p);
      Enabled(s, a) && id in HeldBy(Do(s, a).services[p].phase)
    ensures
      var phase := s.services[p].phase;
      var next := Do(s, NextAction(phase, p)).services[p].phase;
      || Groupwise(next) < Groupwise(phase)
      || (Groupwise(next) == Groupwise(phase)
          && (phase.Marking? || !next.Marking?) && (phase.Marking? == next.Marking? ==> Ahead(next) < Ahead(phase)))
  {
  }

  lemma SamePlaces(s: System, a: Action)
    requires Enabled(s, a)
    ensures |Do(s, a).services| == |s.services|
  {
  }

  lemma Disturbs(s: System, p: nat, id: int) returns (states: seq<System>, actions: seq<Action>)
    requires Sane(s) && p < |s.services| && id in HeldBy(s.services[p].phase) && Settled(s.jobs[id])
    ensures Runs(states, actions) && states[0] == s && RenewalsIn(states, actions, |actions|, id) == 0
    ensures id in states[|actions|].jobs && states[|actions|].jobs[id] != s.jobs[id]
    decreases Groupwise(s.services[p].phase), s.services[p].phase.Marking?, Ahead(s.services[p].phase)
  {
    var a := NextAction(s.services[p].phase, p);
    NextDisturbs(s, p, id);
    var next := Do(s, a);
    if next.jobs[id] != s.jobs[id] {
      states, actions := [s, next], [a];
      OneStep(s, a);
    } else {
      NextShrinks(s, p, id);
      SamePlaces(s, a);
      states, actions := Disturbs(next, p, id);
      Prepend(s, a, states, actions, id);
      states, actions := [s] + states, [a] + actions;
    }
  }

  /** Exactly when does a job that is claimed, failed or left in processing stay as it is, in every interleaving and as
      long as it is neither found again nor recovered? When no tick that listed it still has to deal with it. */
  lemma StaysForGoodIff(s: System, id: int)
    requires Sane(s) && id in s.jobs && Settled(s.jobs[id])
    ensures StaysForGood(s, id) <==> Unheld(s, id)
  {
    if Unheld(s, id) {
      forall states, actions |
        Runs(states, actions) && states[0] == s && RenewalsIn(states, actions, |actions|, id) == 0
        ensures Untouched(states, actions, id)
      {
        SettledRun(states, actions, |actions|, id);
      }
    } else {
      var p :| 0 <= p < |s.services| && id in HeldBy(s.services[p].phase);
      var states, actions := Disturbs(s, p, id);
      assert !Untouched(states, actions, id);
    }
  }

  // Cooldowns, and the intervals of discovery

  /** The service of a place is in its cooldown until then, as far as it knows. */
  ghost predicate CoolsDown(s: System, p: nat, cfg: Config, until: int) {
    p < |s.services| && s.services[p].cfg == cfg && s.services[p].nextSubmissionAt >= until
  }

  lemma StaysCool(s: System, a: Action, p: nat, cfg: Config, until: int, since: int)
    requires Enabled(s, a) && CoolsDown(s, p, cfg, until) && !(a.Start? && a.p == p)
    requires since <= s.clock && until == CooldownUntil(since, cfg.retryBackoffMs)
    ensures CoolsDown(Do(s, a), p, cfg, until) && s.clock <= Do(s, a).clock
  {
  }

  lemma {:induction false} CoolsDownSince(states: seq<System>, actions: seq<Action>, i: nat, n: nat, p: nat)
    requires Runs(states, actions) && i < n <= |actions|
    requires actions[i] == Next(p) && states[i].services[p].phase.limited
    requires forall k :: i < k < n ==> !(actions[k].Start? && actions[k].p == p)
    ensures
      var cfg := states[i].services[p].cfg;
      && CoolsDown(states[n], p, cfg, CooldownUntil(states[i].clock, cfg.retryBackoffMs))
      && states[i].clock <= states[n].clock
    decreases n
  {
    if n > i + 1 {
      var cfg := states[i].services[p].cfg;
      CoolsDownSince(states, actions, i, n - 1, p);
      StaysCool(states[n - 1], actions[n - 1], p, cfg, CooldownUntil(states[i].clock, cfg.retryBackoffMs),
                states[i].clock);
    }
  }

  /** The service of a place still records a job that went out alone and met a rate limit. */
  ghost predicate RecordsLimit(s: System, p: nat) {
    p < |s.services| && s.services[p].phase.Recording? && s.services[p].phase.limited
  }

  lemma {:induction false} LimitedSince(states: seq<System>, actions: seq<Action>, k: nat, i: nat, p: nat)
    requires Runs(states, actions) && k < i <= |actions|
    requires actions[k].Send? && actions[k].p == p && RateLimited(actions[k].answer)
    requires |states[k].services[p].phase.marked| == 1
    requires forall m :: k < m < i && !actions[m].Elapse? && actions[m].p == p ==> actions[m] == Record(p, true)
    ensures RecordsLimit(states[i], p)
    decreases i
  {
    if i > k + 1 { LimitedSince(states, actions, k, i - 1, p); }
  }

  /** In every interleaving: after a job that went out alone met a rate limit, and its outcome was recorded, no tick of
      that service that began before the cooldown is over starts a pass, whatever other services do. */
  lemma CooldownHolds(states: seq<System>, actions: seq<Action>, k: nat, i: nat, j: nat, p: nat)
    requires Runs(states, actions) && k < i < j < |actions|
    requires actions[k].Send? && actions[k].p == p && RateLimited(actions[k].answer)
    requires |states[k].services[p].phase.marked| == 1
    requires forall m :: k < m < i && !actions[m].Elapse? && actions[m].p == p ==> actions[m] == Record(p, true)
    requires actions[i] == Next(p)
    requires actions[j] == Count(p) && states[j + 1].services[p].phase.Counted?
    requires forall m :: i < m < j ==> !(actions[m].Start? && actions[m].p == p)
    ensures
      var now, backoffMs := states[j].services[p].phase.now, states[i].services[p].cfg.retryBackoffMs;
      && now >= CooldownUntil(states[i].clock, backoffMs)
      && now >= states[i].clock + 30_000 && now >= states[i].clock + backoffMs
  {
    LimitedSince(states, actions, k, i, p);
    CooldownIsLongEnough(states[i].clock, states[i].services[p].cfg.retryBackoffMs);
    CoolsDownSince(states, actions, i, j, p);
  }

  /** The discovery of a place is over until then: it is not due earlier, and none under way began earlier. */
  ghost predicate Rests(s: System, p: nat, cfg: Config, until: int) {
    && p < |s.services| && s.services[p].cfg == cfg && s.services[p].nextDiscoveryAt >= until
    && (s.services[p].phase.Upserting? && s.services[p].phase.rest != map[] ==> s.services[p].phase.now >= until)
  }

  lemma StaysAtRest(s: System, a: Action, p: nat, cfg: Config, until: int)
    requires Enabled(s, a) && Rests(s, p, cfg, until) && !(a.Start? && a.p == p)
    ensures Rests(Do(s, a), p, cfg, until)
  {
  }

  /** The last position was upserted, or a discovery that was due found none; `at` is when its tick read the clock. */
  ghost predicate EndsDiscovery(s: System, a: Action, p: nat, at: int) {
    && Enabled(s, a) && !a.Elapse? && a.p == p
    && ((a.UpsertOne? && a.ok && s.services[p].phase.rest.Keys == {a.position} && at == s.services[p].phase.now)
        || (a.Look? && a.found == Some(map[]) && s.clock >= s.services[p].nextDiscoveryAt && at == s.clock))
  }

  lemma RestsAfter(s: System, a: Action, p: nat, at: int)
    requires EndsDiscovery(s, a, p, at)
    ensures Rests(Do(s, a), p, s.services[p].cfg, at + 1000 * s.services[p].cfg.discoveryIntervalSec)
    ensures Do(s, a).services[p].nextDiscoveryAt == at + 1000 * s.services[p].cfg.discoveryIntervalSec
  {
    if a.UpsertOne? {
      var rest := s.services[p].phase.rest;
      assert (rest - {a.position}).Keys == {};
    }
  }

  lemma {:induction false} RestsSince(states: seq<System>, actions: seq<Action>, i: nat, n: nat, p: nat, cfg: Config,
                                      until: int)
    requires Runs(states, actions) && i <= n <= |actions| && Rests(states[i], p, cfg, until)
    requires forall m :: i <= m < n ==> !(actions[m].Start? && actions[m].p == p)
    ensures Rests(states[n], p, cfg, until)
    decreases n
  {
    if n > i {
      RestsSince(states, actions, i, n - 1, p, cfg, until);
      StaysAtRest(states[n - 1], actions[n - 1], p, cfg, until);
    }
  }

  /** In every interleaving: once a discovery of a service is over, none of its ticks finds anything to upsert before
      the interval has passed since the clock was read for it. */
  lemma DiscoveryWaits(states: seq<System>, actions: seq<Action>, i: nat, j: nat, p: nat, at: int)
    requires Runs(states, actions) && i < j < |actions| && EndsDiscovery(states[i], actions[i], p, at)
    requires actions[j].Look? && actions[j].p == p && states[j + 1].services[p].phase.Upserting?
    requires states[j + 1].services[p].phase.rest != map[]
    requires forall m :: i < m < j ==> !(actions[m].Start? && actions[m].p == p)
    ensures states[j].clock >= at + 1000 * states[i].services[p].cfg.discoveryIntervalSec
  {
    var cfg := states[i].services[p].cfg;
    RestsAfter(states[i], actions[i], p, at);
    RestsSince(states, actions, i + 1, j, p, cfg, at + 1000 * cfg.discoveryIntervalSec);
  }
}
