/** The threshold search of the shadow evaluation (`optimize_shadow_pnl_thresholds`): every pair of thresholds on the
    grid is evaluated by its first-entry decisions, and the best pair is reported. Rows are those with both scores and
    a simulated profit; rounding a total to four places is any function. */
module ThresholdSearch {
  import opened Common
  import opened Sorting
  import opened FirstEntry

  predicate OnGrid(v: int, start: int, stop: int) {
    start <= v <= stop && (v - start) % 5 == 0
  }

  /** `threshold_values`, in hundredths. */
  function Values(start: int, stop: int): (r: seq<int>)
    ensures forall v :: v in r <==> OnGrid(v, start, stop)
    decreases stop - start
  {
    if start > stop then [] else [start] + Values(start + 5, stop)
  }

  const ENTRY_MINS := Values(35, 85)
  const RISK_MAXES := Values(45, 95)

  function Hundredths(v: int): real {
    v as real / 100.0
  }

  datatype Candidate = Candidate(entryMin: int, riskMax: int, total: real, rowTotal: real, modelRight: nat,
                                 allowCount: nat, rowAllowCount: nat)

  ghost predicate InGrid(c: Candidate) {
    OnGrid(c.entryMin, 35, 85) && OnGrid(c.riskMax, 45, 95)
  }

  function Decides(entryMin: int, riskMax: int): Row -> Decision {
    Thresholds(Hundredths(entryMin), Hundredths(riskMax))
  }

  /** A pair of thresholds, in hundredths, allows the rows with enough quality and little enough risk, and avoids the
      other rows that have both scores. */
  lemma DecidesIff(entryMin: int, riskMax: int, r: Row)
    ensures
      match (r.entryScore, r.riskScore)
      case (Some(quality), Some(risk)) =>
        Decides(entryMin, riskMax)(r) ==
          if 100.0 * quality >= entryMin as real && 100.0 * risk <= riskMax as real then AllowLike else AvoidLike
      case _ => Decides(entryMin, riskMax)(r) == Undecided
  {
  }

  predicate IsRight(d: (Decision, Row)) {
    if d.0 == AllowLike then d.1.pnl > 0.0 else d.1.pnl <= 0.0
  }

  function RightOnes(decisions: seq<(Decision, Row)>): set<(Decision, Row)> {
    set d | d in decisions && IsRight(d)
  }

  function RowAllowed(rows: seq<Row>, decide: Row -> Decision): seq<Row> {
    if rows == [] then []
    else
      var front, last := RowAllowed(rows[..|rows| - 1], decide), rows[|rows| - 1];
      if decide(last) == AllowLike then front + [last] else front
  }

  /** What a pair of thresholds comes to, by these decisions of the groups. */
  ghost predicate EvaluatesBy(c: Candidate, rows: seq<Row>, round: real -> real, decisions: seq<(Decision, Row)>) {
    var decide := Decides(c.entryMin, c.riskMax);
    && DecidesGroups(decisions, ByTime(rows), decide)
    && c.total == round(TotalPnl(AllowRows(decisions))) && c.allowCount == |AllowRows(decisions)|
    && c.modelRight == |RightOnes(decisions)|
    && c.rowTotal == round(TotalPnl(RowAllowed(rows, decide))) && c.rowAllowCount == |RowAllowed(rows, decide)|
  }

  ghost predicate Evaluates(c: Candidate, rows: seq<Row>, round: real -> real) {
    exists decisions :: EvaluatesBy(c, rows, round, decisions)
  }

  // Evaluations

  lemma OneDecisionEach(decisions: seq<(Decision, Row)>, others: seq<(Decision, Row)>, sorted: seq<Row>,
                        decide: Row -> Decision)
    requires DecidesGroups(decisions, sorted, decide) && DecidesGroups(others, sorted, decide)
    ensures forall d :: d in decisions ==> d in others
  {
    forall d | d in decisions ensures d in others {
      var i :| 0 <= i < |decisions| && decisions[i] == d;
      var j :| 0 <= j < |others| && KeyOf(others[j].1) == KeyOf(d.1);
      assert others[j] == d;
    }
  }

  lemma AllowRowsAgree(x: seq<(Decision, Row)>, y: seq<(Decision, Row)>)
    requires forall i, j :: 0 <= i < j < |x| ==> KeyOf(x[i].1) != KeyOf(x[j].1)
    requires forall i, j :: 0 <= i < j < |y| ==> KeyOf(y[i].1) != KeyOf(y[j].1)
    requires forall d :: d in x <==> d in y
    ensures |AllowRows(x)| == |AllowRows(y)| && TotalPnl(AllowRows(x)) == TotalPnl(AllowRows(y))
  {
    AllowRowsOf(x);
    AllowRowsOf(y);
    SameMembers(AllowRows(x), AllowRows(y));
    SameTotal(AllowRows(x), AllowRows(y));
  }

  lemma SameDecisions(c: Candidate, d: Candidate, rows: seq<Row>, round: real -> real, x: seq<(Decision, Row)>,
                      y: seq<(Decision, Row)>)
    requires EvaluatesBy(c, rows, round, x) && EvaluatesBy(d, rows, round, y)
    requires c.entryMin == d.entryMin && c.riskMax == d.riskMax
    ensures c == d
  {
    var decide := Decides(c.entryMin, c.riskMax);
    OneDecisionEach(x, y, ByTime(rows), decide);
    OneDecisionEach(y, x, ByTime(rows), decide);
    assert RightOnes(x) == RightOnes(y);
    AllowRowsAgree(x, y);
  }

  /** The rows and the thresholds determine the evaluation, in whatever order the groups are decided. */
  lemma EvaluationIsUnique(c: Candidate, d: Candidate, rows: seq<Row>, round: real -> real)
    requires Evaluates(c, rows, round) && Evaluates(d, rows, round)
    requires c.entryMin == d.entryMin && c.riskMax == d.riskMax
    ensures c == d
  {
    var x :| EvaluatesBy(c, rows, round, x);
    var y :| EvaluatesBy(d, rows, round, y);
    SameDecisions(c, d, rows, round, x, y);
  }

  /** It does not matter which of the two first-entry selections the totals are taken from. */
  lemma EvaluationOfFirstEntries(c: Candidate, rows: seq<Row>, round: real -> real, picked: seq<Row>)
    requires Evaluates(c, rows, round) && OnePerGroup(picked, ByTime(rows), Decides(c.entryMin, c.riskMax))
    ensures c.total == round(TotalPnl(picked)) && c.allowCount == |picked|
  {
    var decisions :| EvaluatesBy(c, rows, round, decisions);
    SelectionsAgree(rows, Decides(c.entryMin, c.riskMax), picked, decisions);
  }

  method RowLevel(rows: seq<Row>, decide: Row -> Decision) returns (count: nat, total: real)
    ensures count == |RowAllowed(rows, decide)| && total == TotalPnl(RowAllowed(rows, decide))
  {
    count, total := 0, 0.0;
    for i := 0 to |rows|
      invariant count == |RowAllowed(rows[..i], decide)| && total == TotalPnl(RowAllowed(rows[..i], decide))
    {
      assert rows[..i + 1][..i] == rows[..i];
      if decide(rows[i]) == AllowLike {
        var kept := RowAllowed(rows[..i], decide);
        assert (kept + [rows[i]])[..|kept|] == kept;
        count, total := count + 1, total + rows[i].pnl;
      }
    }
    assert rows[..|rows|] == rows;
  }

  lemma OneMoreDecision(decisions: seq<(Decision, Row)>, d: (Decision, Row))
    requires d !in decisions
    ensures |RightOnes(decisions + [d])| == |RightOnes(decisions)| + if IsRight(d) then 1 else 0
    ensures |AllowRows(decisions + [d])| == |AllowRows(decisions)| + if d.0 == AllowLike then 1 else 0
    ensures TotalPnl(AllowRows(decisions + [d])) ==
      TotalPnl(AllowRows(decisions)) + if d.0 == AllowLike then d.1.pnl else 0.0
  {
    assert (decisions + [d])[..|decisions|] == decisions;
    assert RightOnes(decisions + [d]) == RightOnes(decisions) + if IsRight(d) then {d} else {};
    var kept := AllowRows(decisions);
    assert (kept + [d.1])[..|kept|] == kept;
  }

  /** A decision is right if it allowed a gain or avoided what was none. */
  lemma RightAreEarnedOrSpared(decisions: seq<(Decision, Row)>)
    ensures
      var earned := set d | d in decisions && d.0 == AllowLike && d.1.pnl > 0.0;
      var spared := set d | d in decisions && d.0 != AllowLike && d.1.pnl <= 0.0;
      |RightOnes(decisions)| == |earned| + |spared|
  {
    var earned := set d | d in decisions && d.0 == AllowLike && d.1.pnl > 0.0;
    var spared := set d | d in decisions && d.0 != AllowLike && d.1.pnl <= 0.0;
    assert RightOnes(decisions) == earned + spared && earned !! spared;
  }

  /** The counts and totals over the decided groups. */
  method GroupLevel(decisions: seq<(Decision, Row)>) returns (right: nat, allowed: nat, total: real)
    requires forall i, j :: 0 <= i < j < |decisions| ==> KeyOf(decisions[i].1) != KeyOf(decisions[j].1)
    ensures right == |RightOnes(decisions)| && allowed == |AllowRows(decisions)|
    ensures total == TotalPnl(AllowRows(decisions))
    ensures
      var earned := set d | d in decisions && d.0 == AllowLike && d.1.pnl > 0.0;
      var spared := set d | d in decisions && d.0 != AllowLike && d.1.pnl <= 0.0;
      right == |earned| + |spared|
  {
    right, allowed, total := 0, 0, 0.0;
    for i := 0 to |decisions|
      invariant right == |RightOnes(decisions[..i])| && allowed == |AllowRows(decisions[..i])|
      invariant total == TotalPnl(AllowRows(decisions[..i]))
    {
      var d := decisions[i];
      assert decisions[..i + 1] == decisions[..i] + [d] && d !in decisions[..i];
      OneMoreDecision(decisions[..i], d);
      if IsRight(d) { right := right + 1; }
      if d.0 == AllowLike { allowed, total := allowed + 1, total + d.1.pnl; }
    }
    assert decisions[..|decisions|] == decisions;
    RightAreEarnedOrSpared(decisions);
  }

  method Evaluate(rows: seq<Row>, entryMin: int, riskMax: int, round: real -> real) returns (c: Candidate)
    ensures Evaluates(c, rows, round) && c.entryMin == entryMin && c.riskMax == riskMax
  {
    var rowAllowCount, rowTotal := RowLevel(rows, Decides(entryMin, riskMax));
    var decisions := FirstEntryDecisions(rows, Decides(entryMin, riskMax));
    var modelRight, allowCount, total := GroupLevel(decisions);
    c := Candidate(entryMin, riskMax, round(total), round(rowTotal), modelRight, allowCount, rowAllowCount);
    assert EvaluatesBy(c, rows, round, decisions);
  }

  // The order of the report

  /** The sort key, compared from the last component of equal ones on: total profit, then right decisions, then entries,
      then the lower entry threshold, then the higher risk threshold. */
  predicate Beats(a: Candidate, b: Candidate) {
    a.total > b.total || (a.total == b.total &&
      (a.modelRight > b.modelRight || (a.modelRight == b.modelRight &&
        (a.allowCount > b.allowCount || (a.allowCount == b.allowCount &&
          (a.entryMin < b.entryMin || (a.entryMin == b.entryMin && a.riskMax >= b.riskMax)))))))
  }

  /** `b` is not above `a`: not in profit; if that is equal, not in right decisions; and so on. */
  ghost predicate NoBetter(a: Candidate, b: Candidate) {
    && b.total <= a.total
    && (b.total == a.total ==> b.modelRight <= a.modelRight)
    && (b.total == a.total && b.modelRight == a.modelRight ==> b.allowCount <= a.allowCount)
    && (b.total == a.total && b.modelRight == a.modelRight && b.allowCount == a.allowCount ==>
          b.entryMin >= a.entryMin && (b.entryMin == a.entryMin ==> b.riskMax <= a.riskMax))
  }

  lemma BeatsOrders()
    ensures TotalPreorder(Beats)
    ensures forall a, b :: Beats(a, b) && Beats(b, a) ==> a.entryMin == b.entryMin && a.riskMax == b.riskMax
  {
  }

  ghost predicate HasPair(cs: seq<Candidate>, e: int, r: int) {
    exists c :: c in cs && c.entryMin == e && c.riskMax == r
  }

  ghost predicate WholeGrid(cs: seq<Candidate>, rows: seq<Row>, round: real -> real) {
    && (forall c :: c in cs ==> InGrid(c) && Evaluates(c, rows, round))
    && (forall e, r :: OnGrid(e, 35, 85) && OnGrid(r, 45, 95) ==> HasPair(cs, e, r))
  }

  lemma MorePairs(cs: seq<Candidate>, more: seq<Candidate>, e: int, r: int)
    ensures HasPair(cs, e, r) || HasPair(more, e, r) ==> HasPair(cs + more, e, r)
  {
    if HasPair(cs, e, r) {
      var c :| c in cs && c.entryMin == e && c.riskMax == r;
      assert c in cs + more;
    } else if HasPair(more, e, r) {
      var c :| c in more && c.entryMin == e && c.riskMax == r;
      assert c in cs + more;
    }
  }

  method EvaluateRisks(rows: seq<Row>, entryMin: int, round: real -> real) returns (cs: seq<Candidate>)
    requires OnGrid(entryMin, 35, 85)
    ensures forall c :: c in cs ==> InGrid(c) && Evaluates(c, rows, round) && c.entryMin == entryMin
    ensures forall r :: OnGrid(r, 45, 95) ==> HasPair(cs, entryMin, r)
  {
    cs := [];
    var risks := RISK_MAXES;
    for i := 0 to |risks|
      invariant forall c :: c in cs ==> InGrid(c) && Evaluates(c, rows, round) && c.entryMin == entryMin
      invariant forall r :: r in risks[..i] ==> HasPair(cs, entryMin, r)
    {
      var c := Evaluate(rows, entryMin, risks[i], round);
      ghost var before := cs;
      cs := cs + [c];
      assert risks[i] in risks && c in cs;
      forall r | r in risks[..i + 1] ensures HasPair(cs, entryMin, r) {
        if r != risks[i] {
          assert r in risks[..i];
          MorePairs(before, [c], entryMin, r);
        }
      }
    }
    assert risks[..|risks|] == risks;
  }

  method EvaluateGrid(rows: seq<Row>, round: real -> real) returns (cs: seq<Candidate>)
    ensures WholeGrid(cs, rows, round)
  {
    cs := [];
    var entries := ENTRY_MINS;
    for i := 0 to |entries|
      invariant forall c :: c in cs ==> InGrid(c) && Evaluates(c, rows, round)
      invariant forall e, r :: e in entries[..i] && OnGrid(r, 45, 95) ==> HasPair(cs, e, r)
    {
      assert entries[i] in entries;
      var more := EvaluateRisks(rows, entries[i], round);
      ghost var before := cs;
      cs := cs + more;
      forall e, r | e in entries[..i + 1] && OnGrid(r, 45, 95) ensures HasPair(cs, e, r) {
        if e == entries[i] { assert HasPair(more, e, r); } else { assert e in entries[..i] && HasPair(before, e, r); }
        MorePairs(before, more, e, r);
      }
    }
    assert entries[..|entries|] == entries;
  }

  /** The best pair of the grid: no other evaluation beats it, and only its own ties with it. */
  ghost predicate Best(best: Candidate, rows: seq<Row>, round: real -> real) {
    && InGrid(best) && Evaluates(best, rows, round)
    && (forall c :: InGrid(c) && Evaluates(c, rows, round) ==> Beats(best, c))
  }

  lemma FirstIsBest(cs: seq<Candidate>, sorted: seq<Candidate>, rows: seq<Row>, round: real -> real)
    requires WholeGrid(cs, rows, round) && Sorted(sorted, Beats) && multiset(sorted) == multiset(cs)
    ensures sorted != [] && Best(sorted[0], rows, round)
  {
    assert HasPair(cs, 35, 45);
    var some :| some in cs && some.entryMin == 35 && some.riskMax == 45;
    assert some in multiset(sorted);
    assert sorted != [] && sorted[0] in multiset(cs);
    forall c | InGrid(c) && Evaluates(c, rows, round) ensures Beats(sorted[0], c) {
      assert HasPair(cs, c.entryMin, c.riskMax);
      var x :| x in cs && x.entryMin == c.entryMin && x.riskMax == c.riskMax;
      EvaluationIsUnique(x, c, rows, round);
      assert x in multiset(sorted);
      var i :| 0 <= i < |sorted| && sorted[i] == x;
      HeadLeast(sorted, i, Beats);
    }
  }

  method OptimizeShadowPnlThresholds(rows: seq<Row>, round: real -> real) returns (best: Candidate, top: seq<Candidate>)
    ensures Best(best, rows, round)
    ensures |top| <= 5 && top != [] && top[0] == best
    ensures forall i, j :: 0 <= i < j < |top| ==> Beats(top[i], top[j]) && NoBetter(top[i], top[j])
    ensures forall c :: InGrid(c) && Evaluates(c, rows, round) ==> NoBetter(best, c)
  {
    var candidates := EvaluateGrid(rows, round);
    var sorted := Sort(candidates, Beats);
    BeatsOrders();
    SortSorts(candidates, Beats);
    FirstIsBest(candidates, sorted, rows, round);
    best, top := sorted[0], sorted[..Min(|sorted|, 5)];
  }

  /** Corollary of `EvaluationIsUnique`: no other pair of the grid is as good as the best, so there is only one. */
  lemma BestIsUnique(best: Candidate, c: Candidate, rows: seq<Row>, round: real -> real)
    requires Best(best, rows, round) && InGrid(c) && Evaluates(c, rows, round) && Beats(c, best)
    ensures c == best
  {
    BeatsOrders();
    assert Beats(best, c);
    EvaluationIsUnique(best, c, rows, round);
  }

  /** Rounding to four places moves a total by half a unit of the fourth place at most. */
  predicate RoundsToFour(round: real -> real, total: real) {
    -0.00005 <= round(total) - total <= 0.00005
  }

  /** No pair of the grid earns more than one unit of the fourth place above the best, by the first-entry rows of
      either: totals that differ by more are told apart. */
  lemma NoPairEarnsMore(best: Candidate, bestRows: seq<Row>, c: Candidate, picked: seq<Row>, rows: seq<Row>,
                        round: real -> real)
    requires Best(best, rows, round) && InGrid(c) && Evaluates(c, rows, round)
    requires RoundsToFour(round, TotalPnl(bestRows)) && RoundsToFour(round, TotalPnl(picked))
    requires OnePerGroup(bestRows, ByTime(rows), Decides(best.entryMin, best.riskMax))
    requires OnePerGroup(picked, ByTime(rows), Decides(c.entryMin, c.riskMax))
    ensures TotalPnl(picked) <= TotalPnl(bestRows) + 0.0001
    ensures round(TotalPnl(picked)) <= round(TotalPnl(bestRows))
  {
    EvaluationOfFirstEntries(best, rows, round, bestRows);
    EvaluationOfFirstEntries(c, rows, round, picked);
    assert Beats(best, c);
  }
}
