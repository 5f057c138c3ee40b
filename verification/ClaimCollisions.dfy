/** Runs of overlapping auto-claim services that reach the bounds: passes that list a job before any of them marks it
    each submit it, and services that count before any of them submits fill all their slots. Every statement succeeds,
    and nothing is found again or recovered. */
module ClaimCollisions {
  import opened Common
  import opened Sorting
  import opened ClaimJobs
  import opened ClaimPlan
  import opened RowOrder
  import opened ClaimRepository
  import opened ClaimServices
  import opened ClaimInterleaving
  import ClaimRuns

  /** No statement fails, and no service is stopped or started. */
  predicate Succeeds(a: Action) {
    match a
    case Abandon(_) => false
    case Start(_, _) => false
    case RecoverStale(_, ok) => ok
    case UpsertOne(_, _, _, ok) => ok
    case Judge(_, _, ok) => ok
    case Mark(_, ok) => ok
    case Record(_, ok) => ok
    case _ => true
  }

  /** How often a run submits a job, and in how many of its marks another pass had marked the job before. */
  datatype Tally = Tally(sent: nat, collisions: nat)

  const NONE := Tally(0, 0)

  function Plus(n: Tally, sent: nat, collides: bool): Tally {
    Tally(n.sent + sent, n.collisions + if collides then 1 else 0)
  }

  ghost predicate LeadsBy(states: seq<System>, actions: seq<Action>, s: System, t: System, id: int, n: Tally) {
    && Runs(states, actions) && states[0] == s && states[|actions|] == t
    && SentIn(states, actions, |actions|, id) == n.sent && CollisionsIn(states, actions, |actions|, id) == n.collisions
    && RenewalsIn(states, actions, |actions|, id) == 0
    && (forall i :: 0 <= i < |actions| ==> Succeeds(actions[i]))
  }

  /** There is a run from one state to another that submits the job so often, collides so often, and never renews it. */
  ghost predicate Leads(s: System, t: System, id: int, n: Tally) {
    exists states, actions :: LeadsBy(states, actions, s, t, id, n)
  }

  lemma {:induction false} CountsOfPrefix(states: seq<System>, actions: seq<Action>, s: System, a: Action, n: nat,
                                          id: int)
    requires Runs(states, actions) && Runs(states + [s], actions + [a]) && n <= |actions|
    ensures SentIn(states + [s], actions + [a], n, id) == SentIn(states, actions, n, id)
    ensures RenewalsIn(states + [s], actions + [a], n, id) == RenewalsIn(states, actions, n, id)
    ensures CollisionsIn(states + [s], actions + [a], n, id) == CollisionsIn(states, actions, n, id)
  {
    if n > 0 { CountsOfPrefix(states, actions, s, a, n - 1, id); }
  }

  lemma LeadsNowhere(s: System, id: int)
    ensures Leads(s, s, id, NONE)
  {
    assert LeadsBy([s], [], s, s, id, NONE);
  }

  lemma LeadsSame(s: System, t: System, id: int, n: Tally, t': System, n': Tally)
    requires Leads(s, t, id, n) && t == t' && n == n'
    ensures Leads(s, t', id, n')
  {
  }

  lemma LeadsOn(s: System, t: System, a: Action, id: int, n: Tally)
    requires Leads(s, t, id, n) && Enabled(t, a) && Succeeds(a) && !Renews(t, a, id)
    ensures Leads(s, Do(t, a), id, Plus(n, Sent(t, a)[id], Collides(t, a, id)))
  {
    var states, actions :| LeadsBy(states, actions, s, t, id, n);
    var longer, more := states + [Do(t, a)], actions + [a];
    forall i | 0 <= i < |more| ensures Enabled(longer[i], more[i]) && longer[i + 1] == Do(longer[i], more[i]) {
      if i < |actions| { assert longer[i] == states[i] && more[i] == actions[i] && longer[i + 1] == states[i + 1]; }
    }
    CountsOfPrefix(states, actions, Do(t, a), a, |actions|, id);
    assert LeadsBy(longer, more, s, Do(t, a), id, Plus(n, Sent(t, a)[id], Collides(t, a, id)));
  }

  /** A service that has recovered, has nothing to discover yet and may submit. */
  function At(cfg: Config, phase: Phase): Service {
    Service(cfg, false, 1, 0, phase)
  }

  /** `k` services at time zero, of which the first `p` have come further than the others. */
  function Stage(jobs: Table, cfg: Config, k: nat, p: nat, first: Phase, others: Phase): System {
    System(jobs, 0, seq(k, q requires 0 <= q < k => At(cfg, if q < p then first else others)))
  }

  lemma Further(jobs: Table, cfg: Config, k: nat, p: nat, first: Phase, others: Phase, after: Table)
    requires p < k
    ensures
      var s := Stage(jobs, cfg, k, p, first, others);
      s.(jobs := after, services := s.services[p := At(cfg, first)]) == Stage(after, cfg, k, p + 1, first, others)
  {
  }

  /** `s` with the `p`-th service in another phase and another table. */
  function With(s: System, cfg: Config, p: nat, phase: Phase, jobs: Table): System
    requires p < |s.services|
  {
    s.(jobs := jobs, services := s.services[p := At(cfg, phase)])
  }

  lemma Moves(start: System, s: System, a: Action, cfg: Config, phase: Phase, after: Table, id: int, n: Tally,
              more: nat, collides: bool)
    requires Leads(start, s, id, n) && Enabled(s, a) && !a.Elapse? && Succeeds(a)
    requires Acted(s, a) == At(cfg, phase) && s.jobs + Writes(s, a) == after
    requires Sent(s, a)[id] == more && !Renews(s, a, id) && Collides(s, a, id) == collides
    ensures Leads(start, With(s, cfg, a.p, phase, after), id, Plus(n, more, collides))
  {
    LeadsOn(start, s, a, id, n);
    assert Do(s, a) == With(s, cfg, a.p, phase, after);
  }

  /** A step that neither submits nor collides. */
  lemma Passes(start: System, s: System, a: Action, cfg: Config, phase: Phase, id: int, n: Tally)
    requires Leads(start, s, id, n) && Enabled(s, a) && !a.Elapse? && Succeeds(a)
    requires Acted(s, a) == At(cfg, phase) && Writes(s, a) == map[] && Sent(s, a) == multiset{}
    ensures Leads(start, With(s, cfg, a.p, phase, s.jobs), id, n)
  {
    assert s.jobs + map[] == s.jobs;
    Moves(start, s, a, cfg, phase, s.jobs, id, n, 0, false);
  }

  lemma WithTwice(s: System, cfg: Config, p: nat, x: Phase, y: Phase, t: Table, u: Table)
    requires p < |s.services|
    ensures With(With(s, cfg, p, x, t), cfg, p, y, u) == With(s, cfg, p, y, u)
  {
  }

  lemma Looks(start: System, s: System, cfg: Config, p: nat, id: int, n: Tally)
    requires Leads(start, s, id, n) && s.clock == 0 && p < |s.services| && s.services[p] == At(cfg, Idle)
    ensures Leads(start, With(s, cfg, p, Upserting(map[], 0), s.jobs), id, n)
  {
    Passes(start, s, Look(p, None), cfg, Upserting(map[], 0), id, n);
  }

  lemma ListsNone(start: System, s: System, cfg: Config, p: nat, id: int, n: Tally)
    requires Leads(start, s, id, n) && s.clock == 0 && InFlight(s.jobs) == {}
    requires p < |s.services| && s.services[p] == At(cfg, Upserting(map[], 0))
    ensures Leads(start, With(s, cfg, p, Judging([], s.jobs, 0, 0), s.jobs), id, n)
  {
    Passes(start, s, ListReceipts(p, []), cfg, Judging([], s.jobs, 0, 0), id, n);
  }

  lemma Counts(start: System, s: System, cfg: Config, p: nat, seen: Table, id: int, n: Tally)
    requires Leads(start, s, id, n) && InFlight(s.jobs) == {}
    requires p < |s.services| && s.services[p] == At(cfg, Judging([], seen, 0, 0))
    ensures Leads(start, With(s, cfg, p, Counted(Cap(cfg)), s.jobs), id, n)
  {
    Passes(start, s, Count(p), cfg, Counted(Cap(cfg)), id, n);
  }

  /** With nothing in flight, an idle service counts all its slots. */
  lemma CountsSlots(start: System, s: System, cfg: Config, p: nat, id: int, n: Tally)
    requires Leads(start, s, id, n) && s.clock == 0 && InFlight(s.jobs) == {}
    requires p < |s.services| && s.services[p] == At(cfg, Idle)
    ensures Leads(start, With(s, cfg, p, Counted(Cap(cfg)), s.jobs), id, n)
  {
    var looked, listed := Upserting(map[], 0), Judging([], s.jobs, 0, 0);
    Looks(start, s, cfg, p, id, n);
    ListsNone(start, With(s, cfg, p, looked, s.jobs), cfg, p, id, n);
    WithTwice(s, cfg, p, looked, listed, s.jobs, s.jobs);
    Counts(start, With(s, cfg, p, listed, s.jobs), cfg, p, s.jobs, id, n);
    WithTwice(s, cfg, p, listed, Counted(Cap(cfg)), s.jobs, s.jobs);
  }

  lemma GroupsOfOne(cfg: Config, t: Table, id: int)
    ensures Groups(cfg, t, [id]) == [[id]]
    ensures MarkingOf(Groups(cfg, t, [id])) == Marking([id], [], [])
  {
    ClaimRuns.PlansTheOne(cfg, NO_RECEIPTS, t, id);
    assert [id][1..] == [];
    assert Singly([id]) == [[id]];
    assert [[id]][1..] == [];
  }

  lemma Lists(start: System, s: System, cfg: Config, p: nat, slots: nat, listed: int, id: int, n: Tally)
    requires Leads(start, s, id, n) && s.clock == 0
    requires FirstRows(DueRows(s.jobs, 0), DueRank(s.jobs), slots, [listed])
    requires p < |s.services| && s.services[p] == At(cfg, Counted(slots))
    ensures Leads(start, With(s, cfg, p, Marking([listed], [], []), s.jobs), id, n)
  {
    GroupsOfOne(cfg, s.jobs, listed);
    Passes(start, s, ListWaiting(p, [listed]), cfg, Marking([listed], [], []), id, n);
  }

  /** Such an answer is no rate limit. */
  predicate Settles(answer: Submission) {
    answer.Accepted? || !answer.retryable
  }

  /** Another pass has marked the job since it was listed. */
  predicate Taken(j: Job) {
    j.status != Pending && j.status != Retry
  }

  lemma MarkStep(s: System, cfg: Config, p: nat, listed: int)
    requires s.clock == 0 && listed in s.jobs
    requires p < |s.services| && s.services[p] == At(cfg, Marking([listed], [], []))
    ensures
      var a := Mark(p, true);
      && Enabled(s, a) && Acted(s, a) == At(cfg, Marking([], [listed], [])) && Sent(s, a) == multiset{}
      && s.jobs + Writes(s, a) == s.jobs[listed := MarkedProcessing(s.jobs[listed], 0)]
      && (forall id :: Collides(s, a, id) <==> id == listed && Taken(s.jobs[listed]))
  {
    assert [listed][1..] == [] && [] + [listed] == [listed];
  }

  lemma Marks(start: System, s: System, cfg: Config, p: nat, listed: int, id: int, n: Tally)
    requires Leads(start, s, id, n) && s.clock == 0 && listed in s.jobs
    requires p < |s.services| && s.services[p] == At(cfg, Marking([listed], [], []))
    ensures
      var after := s.jobs[listed := MarkedProcessing(s.jobs[listed], 0)];
      Leads(start, With(s, cfg, p, Marking([], [listed], []), after), id,
            Plus(n, 0, id == listed && Taken(s.jobs[listed])))
  {
    var after := s.jobs[listed := MarkedProcessing(s.jobs[listed], 0)];
    MarkStep(s, cfg, p, listed);
    Moves(start, s, Mark(p, true), cfg, Marking([], [listed], []), after, id, n, 0,
          id == listed && Taken(s.jobs[listed]));
  }

  lemma Sends(start: System, s: System, cfg: Config, p: nat, listed: int, answer: Submission, id: int, n: Tally)
    requires Leads(start, s, id, n) && Settles(answer)
    requires p < |s.services| && s.services[p] == At(cfg, Marking([], [listed], []))
    ensures
      var more := if id == listed then 1 else 0;
      Leads(start, With(s, cfg, p, Recording([listed], answer, false, []), s.jobs), id, Plus(n, more, false))
  {
    var more := if id == listed then 1 else 0;
    assert multiset([listed])[id] == more;
    Moves(start, s, Send(p, answer), cfg, Recording([listed], answer, false, []), s.jobs, id, n, more, false);
  }

  lemma RecordStep(s: System, cfg: Config, p: nat, listed: int, answer: Submission)
    requires s.clock == 0 && listed in s.jobs
    requires p < |s.services| && s.services[p] == At(cfg, Recording([listed], answer, false, []))
    ensures
      var a, j := Record(p, true), AfterSubmission(s.jobs[listed], answer, cfg.retryBackoffMs, 0);
      && Enabled(s, a) && Acted(s, a) == At(cfg, Recording([], answer, false, []))
      && s.jobs + Writes(s, a) == s.jobs[listed := j] && Sent(s, a) == multiset{}
  {
    assert [listed][1..] == [];
  }

  lemma Records(start: System, s: System, cfg: Config, p: nat, listed: int, answer: Submission, id: int, n: Tally)
    requires Leads(start, s, id, n) && s.clock == 0 && listed in s.jobs
    requires p < |s.services| && s.services[p] == At(cfg, Recording([listed], answer, false, []))
    ensures
      var after := s.jobs[listed := AfterSubmission(s.jobs[listed], answer, cfg.retryBackoffMs, 0)];
      Leads(start, With(s, cfg, p, Recording([], answer, false, []), after), id, n)
  {
    var after := s.jobs[listed := AfterSubmission(s.jobs[listed], answer, cfg.retryBackoffMs, 0)];
    RecordStep(s, cfg, p, listed, answer);
    Moves(start, s, Record(p, true), cfg, Recording([], answer, false, []), after, id, n, 0, false);
  }

  /** What a service that has listed the job alone adds. */
  function Adds(n: Tally, s: System, listed: int, id: int): Tally
    requires listed in s.jobs
  {
    Plus(n, if id == listed then 1 else 0, id == listed && Taken(s.jobs[listed]))
  }

  lemma MarksAndSends(start: System, s: System, cfg: Config, p: nat, listed: int, answer: Submission, id: int, n: Tally)
    requires Leads(start, s, id, n) && s.clock == 0 && listed in s.jobs && Settles(answer)
    requires p < |s.services| && s.services[p] == At(cfg, Marking([listed], [], []))
    ensures
      var after := s.jobs[listed := MarkedProcessing(s.jobs[listed], 0)];
      Leads(start, With(s, cfg, p, Recording([listed], answer, false, []), after), id, Adds(n, s, listed, id))
  {
    var after := s.jobs[listed := MarkedProcessing(s.jobs[listed], 0)];
    var marked := Marking([], [listed], []);
    Marks(start, s, cfg, p, listed, id, n);
    var sending := Recording([listed], answer, false, []);
    var n1 := Plus(n, 0, id == listed && Taken(s.jobs[listed]));
    Sends(start, With(s, cfg, p, marked, after), cfg, p, listed, answer, id, n1);
    WithTwice(s, cfg, p, marked, sending, after, after);
    LeadsSame(start, With(With(s, cfg, p, marked, after), cfg, p, sending, after), id,
              Plus(n1, if id == listed then 1 else 0, false), With(s, cfg, p, sending, after), Adds(n, s, listed, id));
  }

  /** It marks the job, submits it and records the answer. */
  lemma SubmitsOne(start: System, s: System, cfg: Config, p: nat, listed: int, answer: Submission, id: int, n: Tally)
    requires Leads(start, s, id, n) && s.clock == 0 && listed in s.jobs && Settles(answer)
    requires p < |s.services| && s.services[p] == At(cfg, Marking([listed], [], []))
    ensures
      var marked := MarkedProcessing(s.jobs[listed], 0);
      var after := s.jobs[listed := AfterSubmission(marked, answer, cfg.retryBackoffMs, 0)];
      Leads(start, With(s, cfg, p, Recording([], answer, false, []), after), id, Adds(n, s, listed, id))
  {
    var t1 := s.jobs[listed := MarkedProcessing(s.jobs[listed], 0)];
    var t2 := t1[listed := AfterSubmission(t1[listed], answer, cfg.retryBackoffMs, 0)];
    var sending := Recording([listed], answer, false, []);
    MarksAndSends(start, s, cfg, p, listed, answer, id, n);
    Records(start, With(s, cfg, p, sending, t1), cfg, p, listed, answer, id, Adds(n, s, listed, id));
    WithTwice(s, cfg, p, sending, Recording([], answer, false, []), t1, t2);
    assert t2 == s.jobs[listed := t2[listed]];
  }

  // One job, listed by all before any marks it

  const REFUSAL := Refused("execution reverted", false)

  /** The job after `p` passes each marked it and recorded a refusal. */
  function Refusals(j: Job, p: nat): Job {
    if p == 0 then j else MarkedFailed(MarkedProcessing(Refusals(j, p - 1), 0), "execution reverted", 0)
  }

  lemma {:induction false} RefusalsCount(j: Job, p: nat)
    ensures Refusals(j, p).attempts == j.attempts + p && (p > 0 ==> Refusals(j, p).status == Failed)
  {
    if p > 0 { RefusalsCount(j, p - 1); }
  }

  lemma ListsOne(start: System, s: System, cfg: Config, p: nat, id: int, n: Tally)
    requires Leads(start, s, id, n) && s.clock == 0 && s.jobs.Keys == {id} && Due(s.jobs[id], 0)
    requires p < |s.services| && s.services[p] == At(cfg, Counted(Cap(cfg)))
    ensures Leads(start, With(s, cfg, p, Marking([id], [], []), s.jobs), id, n)
  {
    assert DueRows(s.jobs, 0) == {id};
    Lists(start, s, cfg, p, Cap(cfg), id, id, n);
  }

  /** `p` of `k` services have listed the one job. */
  function Listing(j: Job, cfg: Config, k: nat, p: nat, id: int): System {
    Stage(map[id := j], cfg, k, p, Marking([id], [], []), Idle)
  }

  lemma OneMoreLists(start: System, j: Job, cfg: Config, k: nat, p: nat, id: int)
    requires Due(j, 0) && p < k && Leads(start, Listing(j, cfg, k, p, id), id, NONE)
    ensures Leads(start, Listing(j, cfg, k, p + 1, id), id, NONE)
  {
    var s, counted, held := Listing(j, cfg, k, p, id), Counted(Cap(cfg)), Marking([id], [], []);
    CountsSlots(start, s, cfg, p, id, NONE);
    ListsOne(start, With(s, cfg, p, counted, s.jobs), cfg, p, id, NONE);
    WithTwice(s, cfg, p, counted, held, s.jobs, s.jobs);
    Further(s.jobs, cfg, k, p, held, Idle, s.jobs);
  }

  lemma {:induction false} AllList(j: Job, cfg: Config, k: nat, p: nat, id: int)
    requires Due(j, 0) && p <= k
    ensures Leads(Listing(j, cfg, k, 0, id), Listing(j, cfg, k, p, id), id, NONE)
  {
    if p == 0 {
      LeadsNowhere(Listing(j, cfg, k, 0, id), id);
    } else {
      AllList(j, cfg, k, p - 1, id);
      OneMoreLists(Listing(j, cfg, k, 0, id), j, cfg, k, p - 1, id);
    }
  }

  /** All have listed it, and `p` of them have submitted it. */
  function Submitting(j: Job, cfg: Config, k: nat, p: nat, id: int): System {
    Stage(map[id := Refusals(j, p)], cfg, k, p, Recording([], REFUSAL, false, []), Marking([id], [], []))
  }

  /** `p` submissions, all but the first after a collision. */
  function Overlaps(p: nat): Tally {
    Tally(p, if p == 0 then 0 else p - 1)
  }

  lemma RefusalsOnTop(j: Job, p: nat, id: int)
    ensures
      var before := map[id := Refusals(j, p)];
      var after := AfterSubmission(MarkedProcessing(before[id], 0), REFUSAL, 0, 0);
      before[id := after] == map[id := Refusals(j, p + 1)]
  {
  }

  lemma OneMoreOverlaps(j: Job, p: nat, id: int)
    requires Due(j, 0)
    ensures Plus(Overlaps(p), 1, Taken(Refusals(j, p))) == Overlaps(p + 1)
  {
    RefusalsCount(j, p);
  }

  lemma OneMoreSubmits(start: System, j: Job, cfg: Config, k: nat, p: nat, id: int)
    requires Due(j, 0) && p < k && Leads(start, Submitting(j, cfg, k, p, id), id, Overlaps(p))
    ensures Leads(start, Submitting(j, cfg, k, p + 1, id), id, Overlaps(p + 1))
  {
    var s, ended := Submitting(j, cfg, k, p, id), Recording([], REFUSAL, false, []);
    var after := map[id := Refusals(j, p + 1)];
    SubmitsOne(start, s, cfg, p, id, REFUSAL, id, Overlaps(p));
    RefusalsOnTop(j, p, id);
    OneMoreOverlaps(j, p, id);
    Further(s.jobs, cfg, k, p, ended, Marking([id], [], []), after);
    LeadsSame(start, With(s, cfg, p, ended, after), id, Adds(Overlaps(p), s, id, id), Submitting(j, cfg, k, p + 1, id),
              Overlaps(p + 1));
  }

  lemma ListedIsSubmitting(j: Job, cfg: Config, k: nat, id: int)
    ensures Listing(j, cfg, k, k, id) == Submitting(j, cfg, k, 0, id)
  {
  }

  lemma {:induction false} AllSubmit(j: Job, cfg: Config, k: nat, p: nat, id: int)
    requires Due(j, 0) && p <= k
    ensures Leads(Listing(j, cfg, k, 0, id), Submitting(j, cfg, k, p, id), id, Overlaps(p))
  {
    if p == 0 {
      AllList(j, cfg, k, k, id);
      ListedIsSubmitting(j, cfg, k, id);
    } else {
      AllSubmit(j, cfg, k, p - 1, id);
      OneMoreSubmits(Listing(j, cfg, k, 0, id), j, cfg, k, p - 1, id);
    }
  }

  /** For every `k`: `k` overlapping services submit one due job `k` times, in `k - 1` collisions, and leave it with `k`
      attempts more, whatever its limit. A job on its last attempt so reaches the bound on submissions. */
  lemma OverlapsSubmitAgain(j: Job, cfg: Config, k: nat, id: int) returns (end: System)
    requires Due(j, 0)
    ensures Leads(Listing(j, cfg, k, 0, id), end, id, Overlaps(k))
    ensures id in end.jobs && end.jobs[id].attempts == j.attempts + k
    ensures k > 0 && j.attempts + 1 == j.maxAttempts ==>
      Overlaps(k).sent == Credit(Listing(j, cfg, k, 0, id), id) + Overlaps(k).collisions
  {
    AllSubmit(j, cfg, k, k, id);
    RefusalsCount(j, k);
    var start := Listing(j, cfg, k, 0, id);
    forall p | 0 <= p < |start.services| ensures start.services[p].phase.Idle? {
      assert start.services[p] == At(cfg, Idle);
    }
    NothingInHand(Listing(j, cfg, k, 0, id).services, id);
    end := Submitting(j, cfg, k, k, id);
  }

  // A job for each service, counted before any submits

  function JobOf(q: nat): Job {
    NewJob(Position("0xowner", seq(q, _ => 'a')), None, 1, 0)
  }

  function InFlightAfter(j: Job): Job {
    MarkedSubmitted(MarkedProcessing(j, 0), "0x1", 0)
  }

  /** `k` jobs, of which the first `p` are in flight. */
  function Jobs(k: nat, p: nat): Table {
    map q: int | 0 <= q < k :: if q < p then InFlightAfter(JobOf(q)) else JobOf(q)
  }

  function Upto(p: nat): (r: set<int>)
    ensures |r| == p && forall q :: q in r <==> 0 <= q < p
  {
    if p == 0 then {} else Upto(p - 1) + {p - 1}
  }

  lemma JobsAreNew(k: nat)
    ensures WellFormed(Jobs(k, 0)) && InFlight(Jobs(k, 0)) == {}
  {
    forall x, y | x in Jobs(k, 0) && y in Jobs(k, 0) && x != y ensures PositionOf(JobOf(x)) != PositionOf(JobOf(y)) {
      assert |JobOf(x).condition| == x && |JobOf(y).condition| == y;
    }
  }

  /** `p` of `k` services have counted their slots. */
  function Counting(cfg: Config, k: nat, p: nat): System {
    Stage(Jobs(k, 0), cfg, k, p, Counted(Cap(cfg)), Idle)
  }

  lemma {:induction false} AllCount(cfg: Config, k: nat, p: nat)
    requires p <= k
    ensures Leads(Counting(cfg, k, 0), Counting(cfg, k, p), -1, NONE)
  {
    if p == 0 {
      LeadsNowhere(Counting(cfg, k, 0), -1);
    } else {
      AllCount(cfg, k, p - 1);
      JobsAreNew(k);
      CountsSlots(Counting(cfg, k, 0), Counting(cfg, k, p - 1), cfg, p - 1, -1, NONE);
      Further(Jobs(k, 0), cfg, k, p - 1, Counted(Cap(cfg)), Idle, Jobs(k, 0));
    }
  }

  /** The next job that is due is the first that is not in flight. */
  lemma ListsNext(k: nat, p: nat)
    requires p < k
    ensures FirstRows(DueRows(Jobs(k, p), 0), DueRank(Jobs(k, p)), 1, [p])
  {
    assert p in Jobs(k, p) && Jobs(k, p)[p] == JobOf(p);
    forall id | id in DueRows(Jobs(k, p), 0) && id != p ensures Ordered(DueRank(Jobs(k, p)), p, id) {
      assert id in Jobs(k, p) && Due(Jobs(k, p)[id], 0) && id > p;
      assert Jobs(k, p)[id] == JobOf(id);
    }
  }

  lemma OneMoreJob(k: nat, p: nat, backoffMs: nat)
    requires p < k
    ensures p in Jobs(k, p)
    ensures
      var marked := MarkedProcessing(Jobs(k, p)[p], 0);
      Jobs(k, p)[p := AfterSubmission(marked, Accepted("0x1"), backoffMs, 0)] == Jobs(k, p + 1)
  {
  }

  /** A relayer service lists the next job and puts it in flight. */
  lemma SubmitsNext(start: System, s: System, cfg: Config, k: nat, p: nat)
    requires Leads(start, s, -1, NONE) && s.clock == 0 && p < k && s.jobs == Jobs(k, p)
    requires p < |s.services| && s.services[p] == At(cfg, Counted(1))
    ensures Leads(start, With(s, cfg, p, Recording([], Accepted("0x1"), false, []), Jobs(k, p + 1)), -1, NONE)
  {
    var held, ended := Marking([p], [], []), Recording([], Accepted("0x1"), false, []);
    ListsNext(k, p);
    Lists(start, s, cfg, p, 1, p, -1, NONE);
    SubmitsOne(start, With(s, cfg, p, held, s.jobs), cfg, p, p, Accepted("0x1"), -1, NONE);
    OneMoreJob(k, p, cfg.retryBackoffMs);
    WithTwice(s, cfg, p, held, ended, s.jobs, Jobs(k, p + 1));
  }

  /** All have counted, and `p` of them have submitted. */
  function Flying(cfg: Config, k: nat, p: nat): System {
    Stage(Jobs(k, p), cfg, k, p, Recording([], Accepted("0x1"), false, []), Counted(1))
  }

  lemma {:induction false} AllInFlight(cfg: Config, k: nat, p: nat)
    requires Relayed(cfg.mode) && p <= k
    ensures Leads(Counting(cfg, k, 0), Flying(cfg, k, p), -1, NONE)
  {
    if p == 0 {
      AllCount(cfg, k, k);
      assert Counting(cfg, k, k) == Flying(cfg, k, 0);
    } else {
      AllInFlight(cfg, k, p - 1);
      SubmitsNext(Counting(cfg, k, 0), Flying(cfg, k, p - 1), cfg, k, p - 1);
      Further(Jobs(k, p - 1), cfg, k, p - 1, Recording([], Accepted("0x1"), false, []), Counted(1), Jobs(k, p));
    }
  }

  lemma AllAreInFlight(k: nat)
    ensures |InFlight(Jobs(k, k))| == k
  {
    forall id ensures id in InFlight(Jobs(k, k)) <==> id in Upto(k) {
      if id in Upto(k) { assert id in Jobs(k, k) && Jobs(k, k)[id] == InFlightAfter(JobOf(id)); }
    }
    assert InFlight(Jobs(k, k)) == Upto(k);
  }

  /** For every `k`: `k` overlapping relayer services, each with a cap of one, have `k` transactions in flight. */
  lemma OverlapsFillAllCaps(cfg: Config, k: nat) returns (end: System)
    requires Relayed(cfg.mode)
    ensures WellFormed(Counting(cfg, k, 0).jobs) && InFlight(Counting(cfg, k, 0).jobs) == {}
    ensures Leads(Counting(cfg, k, 0), end, -1, NONE) && |InFlight(end.jobs)| == k
  {
    JobsAreNew(k);
    AllInFlight(cfg, k, k);
    AllAreInFlight(k);
    end := Flying(cfg, k, k);
  }
}
