/** First-entry selection of the shadow evaluation: at most one trade per market and direction. The report picks
    its rows in two ways, by `first_entry_rows` and by `first_entry_decisions`; they must agree. */
module FirstEntry {
  import opened Common
  import opened Sorting

  datatype Decision = Undecided | AllowLike | AvoidLike | Caution

  type Key = (string, string)

  datatype Row = Row(market: string, direction: string, eventTs: string, entryScore: Option<real>,
                     riskScore: Option<real>,
                     decision: Decision, pnl: real)

  function KeyOf(r: Row): Key {
    (r.market, r.direction)
  }

  predicate EarlierOrSame(a: Row, b: Row) {
    StringLeq(a.eventTs, b.eventTs)
  }

  /** `sorted(rows, key=…)`: stable, by timestamp text. */
  function ByTime(rows: seq<Row>): seq<Row> {
    Sort(rows, EarlierOrSame)
  }

  function FirstMatch(rows: seq<Row>, p: Row -> bool): Option<Row> {
    if rows == [] then None
    else
      var before := FirstMatch(rows[..|rows| - 1], p);
      if before.Some? then before
      else if p(rows[|rows| - 1]) then Some(rows[|rows| - 1]) else None
  }

  function Allowed(decide: Row -> Decision, k: Key): Row -> bool {
    (r: Row) => KeyOf(r) == k && decide(r) == AllowLike
  }

  function Decided(decide: Row -> Decision, k: Key): Row -> bool {
    (r: Row) => KeyOf(r) == k && (decide(r) == AllowLike || decide(r) == AvoidLike)
  }

  /** The first allowed row of a group, in time order. */
  function FirstAllowed(rows: seq<Row>, decide: Row -> Decision, k: Key): Option<Row> {
    FirstMatch(ByTime(rows), Allowed(decide, k))
  }

  lemma {:induction false} FirstMatchIsFirst(rows: seq<Row>, p: Row -> bool)
    ensures FirstMatch(rows, p).None? <==> forall i :: 0 <= i < |rows| ==> !p(rows[i])
    ensures FirstMatch(rows, p).Some? ==> exists i :: (
      && 0 <= i < |rows| && rows[i] == FirstMatch(rows, p).value && p(rows[i])
      && forall j :: 0 <= j < i ==> !p(rows[j]))
  {
    if rows != [] {
      var n := |rows| - 1;
      var front := rows[..n];
      FirstMatchIsFirst(front, p);
      assert forall j :: 0 <= j < n ==> front[j] == rows[j];
    }
  }

  lemma FirstMatchNext(rows: seq<Row>, p: Row -> bool, i: nat)
    requires i < |rows|
    ensures FirstMatch(rows[..i + 1], p) ==
      if FirstMatch(rows[..i], p).Some? then FirstMatch(rows[..i], p) else if p(rows[i]) then Some(rows[i]) else None
  {
    assert rows[..i + 1][..i] == rows[..i];
  }

  /** The row has the market and the direction of `r` and is allowed, or, if that counts, avoided. */
  predicate Fits(decide: Row -> Decision, r: Row, orAvoided: bool, x: Row) {
    && x.market == r.market && x.direction == r.direction
    && (decide(x) == AllowLike || (orAvoided && decide(x) == AvoidLike))
  }

  ghost predicate FirstAt(rows: seq<Row>, decide: Row -> Decision, orAvoided: bool, r: Row, i: int) {
    && 0 <= i < |rows| && rows[i] == r
    && forall j :: 0 <= j < |rows| && Fits(decide, r, orAvoided, rows[j]) ==>
         StringLeq(r.eventTs, rows[j].eventTs) && (rows[j].eventTs == r.eventTs ==> i <= j)
  }

  /** Of the rows that fit, `r` is the earliest, and the first in the input of those just as early. */
  ghost predicate FirstOf(rows: seq<Row>, decide: Row -> Decision, orAvoided: bool, r: Row) {
    Fits(decide, r, orAvoided, r) && exists i :: FirstAt(rows, decide, orAvoided, r, i)
  }

  /** The head of a class is its first member in the list. */
  lemma {:induction false} ClassHead(rows: seq<Row>, p: Row -> bool, i: nat) returns (first: nat)
    requires i < |rows| && p(rows[i])
    ensures Class(rows, p) != [] && first <= i && p(rows[first]) && Class(rows, p)[0] == rows[first]
    ensures forall j :: 0 <= j < first ==> !p(rows[j])
  {
    if p(rows[0]) {
      first := 0;
    } else {
      var inTail := ClassHead(rows[1..], p, i - 1);
      first := inTail + 1;
      forall j | 0 <= j < first ensures !p(rows[j]) {
        if j > 0 { assert rows[j] == rows[1..][j - 1]; }
      }
    }
  }

  lemma ByTimeIsSorted(rows: seq<Row>)
    ensures Sorted(ByTime(rows), EarlierOrSame) && multiset(ByTime(rows)) == multiset(rows)
  {
    StringLeqOrders();
    assert TotalPreorder(EarlierOrSame);
    SortSorts(rows, EarlierOrSame);
  }

  /** No row of a sorted list that comes later is earlier in time. */
  lemma InTime(rows: seq<Row>, k: nat, x: Row)
    requires k < |ByTime(rows)| && x in rows && forall m :: 0 <= m < k ==> ByTime(rows)[m] != x
    ensures StringLeq(ByTime(rows)[k].eventTs, x.eventTs)
  {
    var sorted := ByTime(rows);
    ByTimeIsSorted(rows);
    assert x in multiset(sorted);
    var m :| 0 <= m < |sorted| && sorted[m] == x;
    if m == k { StringLeqTotal(x.eventTs, x.eventTs); } else { assert EarlierOrSame(sorted[k], sorted[m]); }
  }

  lemma SameTimeIsInOrder(t: string)
    ensures forall a: Row, b: Row :: a.eventTs == t && b.eventTs == t ==> EarlierOrSame(a, b)
  {
    StringLeqTotal(t, t);
  }

  /** Sorting leaves rows of one time in order: the first that fits stays the first. */
  lemma FirstOfItsTime(rows: seq<Row>, now: Row -> bool, r: Row, k: nat) returns (i: nat)
    requires k < |ByTime(rows)| && ByTime(rows)[k] == r && now(r) && forall j :: 0 <= j < k ==> !now(ByTime(rows)[j])
    requires forall x :: now(x) ==> x.eventTs == r.eventTs
    ensures i < |rows| && rows[i] == r && forall j :: 0 <= j < i ==> !now(rows[j])
  {
    ByTimeIsSorted(rows);
    SameTimeIsInOrder(r.eventTs);
    SortIsStable(rows, EarlierOrSame, now);
    var inTime := ClassHead(ByTime(rows), now, k);
    assert inTime == k;
    assert r in multiset(rows);
    var at :| 0 <= at < |rows| && rows[at] == r;
    i := ClassHead(rows, now, at);
  }

  /** The first match in time order is the first of its group in the input's terms. */
  lemma FirstInTime(rows: seq<Row>, p: Row -> bool, decide: Row -> Decision, orAvoided: bool, r: Row)
    requires FirstMatch(ByTime(rows), p) == Some(r)
    requires forall x :: p(x) <==> Fits(decide, r, orAvoided, x)
    ensures FirstOf(rows, decide, orAvoided, r)
  {
    var sorted, now := ByTime(rows), (x: Row) => Fits(decide, r, orAvoided, x) && x.eventTs == r.eventTs;
    FirstMatchIsFirst(sorted, p);
    var k :| 0 <= k < |sorted| && sorted[k] == r && p(r) && forall j :: 0 <= j < k ==> !p(sorted[j]);
    var i := FirstOfItsTime(rows, now, r, k);
    forall j | 0 <= j < |rows| && Fits(decide, r, orAvoided, rows[j])
      ensures StringLeq(r.eventTs, rows[j].eventTs) && (rows[j].eventTs == r.eventTs ==> i <= j)
    {
      assert p(rows[j]);
      InTime(rows, k, rows[j]);
      assert rows[j].eventTs == r.eventTs ==> now(rows[j]);
    }
    assert FirstAt(rows, decide, orAvoided, r, i);
  }

  lemma FitsGroup(decide: Row -> Decision, r: Row)
    ensures forall x :: Allowed(decide, KeyOf(r))(x) <==> Fits(decide, r, false, x)
    ensures forall x :: Decided(decide, KeyOf(r))(x) <==> Fits(decide, r, true, x)
  {
    forall x
      ensures Allowed(decide, KeyOf(r))(x) <==> Fits(decide, r, false, x)
      ensures Decided(decide, KeyOf(r))(x) <==> Fits(decide, r, true, x)
    {
      assert KeyOf(x) == KeyOf(r) <==> x.market == r.market && x.direction == r.direction;
    }
  }

  ghost predicate HasGroup(picked: seq<Row>, x: Row) {
    exists r :: r in picked && r.market == x.market && r.direction == x.direction
  }

  /** One row for every market and direction that has an allowed one: the first of them. */
  ghost predicate FirstEntries(picked: seq<Row>, rows: seq<Row>, decide: Row -> Decision) {
    && (forall i, j :: 0 <= i < j < |picked| ==>
          picked[i].market != picked[j].market || picked[i].direction != picked[j].direction)
    && (forall r :: r in picked ==> FirstOf(rows, decide, false, r))
    && (forall x :: x in rows && decide(x) == AllowLike ==> HasGroup(picked, x))
  }

  /** One row per group that has an allowed one, and it is the group's first. */
  ghost predicate OnePerGroup(picked: seq<Row>, sorted: seq<Row>, decide: Row -> Decision) {
    && (forall i, j :: 0 <= i < j < |picked| ==> KeyOf(picked[i]) != KeyOf(picked[j]))
    && (forall i :: 0 <= i < |picked| ==> FirstMatch(sorted, Allowed(decide, KeyOf(picked[i]))) == Some(picked[i]))
    && (forall i :: 0 <= i < |sorted| && decide(sorted[i]) == AllowLike ==>
          exists j :: 0 <= j < |picked| && KeyOf(picked[j]) == KeyOf(sorted[i]))
  }

  lemma InSorted(rows: seq<Row>, x: Row) returns (i: nat)
    requires x in rows
    ensures i < |ByTime(rows)| && ByTime(rows)[i] == x
  {
    ByTimeIsSorted(rows);
    assert x in multiset(ByTime(rows));
    i :| i < |ByTime(rows)| && ByTime(rows)[i] == x;
  }

  lemma PickedAreFirst(picked: seq<Row>, rows: seq<Row>, decide: Row -> Decision)
    requires OnePerGroup(picked, ByTime(rows), decide)
    ensures FirstEntries(picked, rows, decide)
  {
    var sorted := ByTime(rows);
    forall i, j | 0 <= i < j < |picked|
      ensures picked[i].market != picked[j].market || picked[i].direction != picked[j].direction
    {
      assert KeyOf(picked[i]) != KeyOf(picked[j]);
    }
    forall r | r in picked ensures FirstOf(rows, decide, false, r) {
      var i :| 0 <= i < |picked| && picked[i] == r;
      FitsGroup(decide, r);
      FirstInTime(rows, Allowed(decide, KeyOf(r)), decide, false, r);
    }
    forall x | x in rows && decide(x) == AllowLike ensures HasGroup(picked, x) {
      var i := InSorted(rows, x);
      var j :| 0 <= j < |picked| && KeyOf(picked[j]) == KeyOf(sorted[i]);
      assert picked[j] in picked;
    }
  }

  /** `key in selected`. */
  method Has(picked: seq<Row>, k: Key) returns (known: bool)
    ensures known <==> exists j :: 0 <= j < |picked| && KeyOf(picked[j]) == k
  {
    known := false;
    for i := 0 to |picked|
      invariant known <==> exists j :: 0 <= j < i && KeyOf(picked[j]) == k
    {
      if KeyOf(picked[i]) == k { known := true; }
    }
  }

  lemma PickedGrows(picked: seq<Row>, sorted: seq<Row>, decide: Row -> Decision, i: nat, known: bool)
    requires i < |sorted| && OnePerGroup(picked, sorted[..i], decide)
    requires known <==> exists j :: 0 <= j < |picked| && KeyOf(picked[j]) == KeyOf(sorted[i])
    ensures
      var next := if decide(sorted[i]) == AllowLike && !known then picked + [sorted[i]] else picked;
      OnePerGroup(next, sorted[..i + 1], decide)
  {
    var row, front, grown := sorted[i], sorted[..i], sorted[..i + 1];
    var next := if decide(row) == AllowLike && !known then picked + [row] else picked;
    assert grown == front + [row];
    forall j | 0 <= j < |next| ensures FirstMatch(grown, Allowed(decide, KeyOf(next[j]))) == Some(next[j]) {
      FirstMatchNext(sorted, Allowed(decide, KeyOf(next[j])), i);
      if j == |picked| {
        FirstMatchIsFirst(front, Allowed(decide, KeyOf(row)));
        assert forall m :: 0 <= m < |front| ==> !Allowed(decide, KeyOf(row))(front[m]);
      }
    }
    forall m | 0 <= m < |grown| && decide(grown[m]) == AllowLike
      ensures exists j :: 0 <= j < |next| && KeyOf(next[j]) == KeyOf(grown[m])
    {
      if m < i {
        assert grown[m] == front[m];
        var j :| 0 <= j < |picked| && KeyOf(picked[j]) == KeyOf(front[m]);
        assert next[j] == picked[j];
      } else if known {
        var j :| 0 <= j < |picked| && KeyOf(picked[j]) == KeyOf(row);
        assert next[j] == picked[j];
      } else {
        assert next[|picked|] == row;
      }
    }
  }

  /** The loop of `first_entry_rows`; `selected` keeps its keys in insertion order. */
  method FirstEntryRows(rows: seq<Row>, decide: Row -> Decision) returns (picked: seq<Row>)
    ensures OnePerGroup(picked, ByTime(rows), decide) && FirstEntries(picked, rows, decide)
  {
    var sorted := ByTime(rows);
    picked := [];
    for i := 0 to |sorted|
      invariant OnePerGroup(picked, sorted[..i], decide)
    {
      var row := sorted[i];
      var known := Has(picked, KeyOf(row));
      PickedGrows(picked, sorted, decide, i, known);
      if decide(row) == AllowLike && !known {
        picked := picked + [row];
      }
    }
    assert sorted[..|sorted|] == sorted;
    PickedAreFirst(picked, rows, decide);
  }

  // The other selection: group first, then decide

  function GroupRows(rows: seq<Row>, k: Key): seq<Row> {
    if rows == [] then []
    else GroupRows(rows[..|rows| - 1], k) + if KeyOf(rows[|rows| - 1]) == k then [rows[|rows| - 1]] else []
  }

  /** What a group comes to: its first allowed row, else its first decided one, else nothing. */
  function GroupDecision(sorted: seq<Row>, decide: Row -> Decision, k: Key): Option<(Decision, Row)> {
    var allow, decided := FirstMatch(sorted, Allowed(decide, k)), FirstMatch(sorted, Decided(decide, k));
    if allow.Some? then Some((AllowLike, allow.value))
    else if decided.Some? then Some((decide(decided.value), decided.value)) else None
  }

  lemma {:induction false} MatchInGroup(rows: seq<Row>, k: Key, inGroup: Row -> bool, p: Row -> bool)
    requires forall r :: inGroup(r) <==> KeyOf(r) == k && p(r)
    ensures FirstMatch(GroupRows(rows, k), p) == FirstMatch(rows, inGroup)
  {
    if rows != [] {
      MatchInGroup(rows[..|rows| - 1], k, inGroup, p);
      var g, last := GroupRows(rows[..|rows| - 1], k), rows[|rows| - 1];
      if KeyOf(last) == k { assert (g + [last])[..|g|] == g; }
      else { assert g + [] == g; }
    }
  }

  /** The groups in order of first appearance. */
  ghost predicate GroupsOf(keys: seq<Key>, groups: map<Key, seq<Row>>, rows: seq<Row>) {
    && Distinct(keys)
    && (forall k :: k in keys <==> k in groups)
    && (forall k :: k in groups <==> GroupRows(rows, k) != [])
    && (forall k :: k in groups ==> groups[k] == GroupRows(rows, k))
  }

  method GroupByKey(sorted: seq<Row>) returns (keys: seq<Key>, groups: map<Key, seq<Row>>)
    ensures GroupsOf(keys, groups, sorted)
  {
    keys, groups := [], map[];
    for i := 0 to |sorted|
      invariant GroupsOf(keys, groups, sorted[..i])
    {
      assert sorted[..i + 1][..i] == sorted[..i];
      var k := KeyOf(sorted[i]);
      if k !in groups {
        keys, groups := keys + [k], groups[k := []];
      }
      groups := groups[k := groups[k] + [sorted[i]]];
    }
    assert sorted[..|sorted|] == sorted;
  }

  ghost predicate OneDecisionPerGroup(decisions: seq<(Decision, Row)>, keys: seq<Key>, sorted: seq<Row>,
                                      decide: Row -> Decision) {
    && (forall i, j :: 0 <= i < j < |decisions| ==> KeyOf(decisions[i].1) != KeyOf(decisions[j].1))
    && (forall i :: 0 <= i < |decisions| ==>
          KeyOf(decisions[i].1) in keys && GroupDecision(sorted, decide, KeyOf(decisions[i].1)) == Some(decisions[i]))
    && (forall k :: k in keys && GroupDecision(sorted, decide, k).Some? ==>
          exists j :: 0 <= j < |decisions| && KeyOf(decisions[j].1) == k)
  }

  /** Every group that comes to a decision has exactly one. */
  ghost predicate DecidesGroups(decisions: seq<(Decision, Row)>, sorted: seq<Row>, decide: Row -> Decision) {
    && (forall i, j :: 0 <= i < j < |decisions| ==> KeyOf(decisions[i].1) != KeyOf(decisions[j].1))
    && (forall i :: 0 <= i < |decisions| ==> GroupDecision(sorted, decide, KeyOf(decisions[i].1)) == Some(decisions[i]))
    && (forall k :: GroupDecision(sorted, decide, k).Some? ==>
          exists j :: 0 <= j < |decisions| && KeyOf(decisions[j].1) == k)
  }

  lemma {:induction false} GroupNonEmpty(rows: seq<Row>, i: nat)
    requires i < |rows|
    ensures GroupRows(rows, KeyOf(rows[i])) != []
  {
    if i < |rows| - 1 { GroupNonEmpty(rows[..|rows| - 1], i); }
  }

  /** Only a group with rows comes to a decision. */
  lemma DecidedIsGrouped(sorted: seq<Row>, decide: Row -> Decision, k: Key)
    requires GroupDecision(sorted, decide, k).Some?
    ensures GroupRows(sorted, k) != []
  {
    FirstMatchIsFirst(sorted, Allowed(decide, k));
    FirstMatchIsFirst(sorted, Decided(decide, k));
    var at :| 0 <= at < |sorted| && KeyOf(sorted[at]) == k;
    GroupNonEmpty(sorted, at);
  }

  /** Appends the decision of the next group. */
  method Decide(decisions: seq<(Decision, Row)>, order: seq<Key>, i: nat, sorted: seq<Row>,
                decide: Row -> Decision, d: (Decision, Row))
      returns (next: seq<(Decision, Row)>)
    requires i < |order| && Distinct(order) && OneDecisionPerGroup(decisions, order[..i], sorted, decide)
    requires GroupDecision(sorted, decide, order[i]) == Some(d) && KeyOf(d.1) == order[i]
    ensures next == decisions + [d] && OneDecisionPerGroup(next, order[..i + 1], sorted, decide)
  {
    next := decisions + [d];
    assert order[..i + 1] == order[..i] + [order[i]] && order[i] !in order[..i];
    forall k | k in order[..i + 1] && GroupDecision(sorted, decide, k).Some?
      ensures exists j :: 0 <= j < |next| && KeyOf(next[j].1) == k
    {
      if k == order[i] {
        assert next[|decisions|] == d;
      } else {
        assert k in order[..i];
        var j :| 0 <= j < |decisions| && KeyOf(decisions[j].1) == k;
        assert next[j] == decisions[j];
      }
    }
  }

  /** A group's decision names a row of the group. */
  lemma DecisionKey(sorted: seq<Row>, decide: Row -> Decision, k: Key)
    ensures GroupDecision(sorted, decide, k).Some? ==> KeyOf(GroupDecision(sorted, decide, k).value.1) == k
    ensures GroupDecision(sorted, decide, k).Some? && GroupDecision(sorted, decide, k).value.0 == AllowLike ==>
      FirstMatch(sorted, Allowed(decide, k)) == Some(GroupDecision(sorted, decide, k).value.1)
  {
    FirstMatchIsFirst(sorted, Allowed(decide, k));
    FirstMatchIsFirst(sorted, Decided(decide, k));
    var allow, decided := FirstMatch(sorted, Allowed(decide, k)), FirstMatch(sorted, Decided(decide, k));
    if allow.None? && decided.Some? {
      assert !Allowed(decide, k)(decided.value);
    }
  }

  /** One turn of the loop below. */
  method DecideNext(decisions: seq<(Decision, Row)>, order: seq<Key>, i: nat, sorted: seq<Row>, group: seq<Row>,
                    decide: Row -> Decision)
      returns (next: seq<(Decision, Row)>)
    requires i < |order| && Distinct(order) && OneDecisionPerGroup(decisions, order[..i], sorted, decide)
    requires group == GroupRows(sorted, order[i])
    ensures OneDecisionPerGroup(next, order[..i + 1], sorted, decide)
  {
    var k := order[i];
    MatchInGroup(sorted, k, Allowed(decide, k), (r: Row) => decide(r) == AllowLike);
    MatchInGroup(sorted, k, Decided(decide, k), (r: Row) => decide(r) == AllowLike || decide(r) == AvoidLike);
    DecisionKey(sorted, decide, k);
    var allowRow := FirstMatch(group, (r: Row) => decide(r) == AllowLike);
    if allowRow.Some? {
      next := Decide(decisions, order, i, sorted, decide, (AllowLike, allowRow.value));
    } else {
      var decidedRow := FirstMatch(group, (r: Row) => decide(r) == AllowLike || decide(r) == AvoidLike);
      if decidedRow.Some? {
        next := Decide(decisions, order, i, sorted, decide, (decide(decidedRow.value), decidedRow.value));
      } else {
        next := decisions;
        assert order[..i + 1] == order[..i] + [k];
      }
    }
  }

  ghost predicate NoneAllowed(rows: seq<Row>, decide: Row -> Decision, r: Row) {
    forall x :: x in rows && x.market == r.market && x.direction == r.direction ==> decide(x) != AllowLike
  }

  ghost predicate HasDecision(decisions: seq<(Decision, Row)>, x: Row) {
    exists d :: d in decisions && d.1.market == x.market && d.1.direction == x.direction
  }

  /** The first allowed row of its group, or its first avoided one where none is allowed. */
  ghost predicate FirstDecision(d: (Decision, Row), rows: seq<Row>, decide: Row -> Decision) {
    || (d.0 == AllowLike && FirstOf(rows, decide, false, d.1))
    || (d.0 == AvoidLike && NoneAllowed(rows, decide, d.1) && FirstOf(rows, decide, true, d.1))
  }

  /** One decision for every market and direction with a decided row. */
  ghost predicate FirstDecisions(decisions: seq<(Decision, Row)>, rows: seq<Row>, decide: Row -> Decision) {
    && (forall i, j :: 0 <= i < j < |decisions| ==>
          decisions[i].1.market != decisions[j].1.market || decisions[i].1.direction != decisions[j].1.direction)
    && (forall d :: d in decisions ==> FirstDecision(d, rows, decide))
    && (forall x :: x in rows && (decide(x) == AllowLike || decide(x) == AvoidLike) ==> HasDecision(decisions, x))
  }

  lemma DecisionIsFirst(d: (Decision, Row), rows: seq<Row>, decide: Row -> Decision)
    requires GroupDecision(ByTime(rows), decide, KeyOf(d.1)) == Some(d)
    ensures FirstDecision(d, rows, decide)
  {
    var sorted, k := ByTime(rows), KeyOf(d.1);
    FitsGroup(decide, d.1);
    FirstMatchIsFirst(sorted, Allowed(decide, k));
    if FirstMatch(sorted, Allowed(decide, k)).Some? {
      FirstInTime(rows, Allowed(decide, k), decide, false, d.1);
    } else {
      FirstInTime(rows, Decided(decide, k), decide, true, d.1);
      forall x | x in rows && KeyOf(x) == k ensures decide(x) != AllowLike {
        var i := InSorted(rows, x);
        assert !Allowed(decide, k)(sorted[i]);
      }
      var i :| FirstAt(rows, decide, true, d.1, i);
      assert rows[i] in rows;
    }
  }

  lemma DecisionsAreFirst(decisions: seq<(Decision, Row)>, rows: seq<Row>, decide: Row -> Decision)
    requires DecidesGroups(decisions, ByTime(rows), decide)
    ensures FirstDecisions(decisions, rows, decide)
  {
    forall i, j | 0 <= i < j < |decisions|
      ensures decisions[i].1.market != decisions[j].1.market || decisions[i].1.direction != decisions[j].1.direction
    {
      assert KeyOf(decisions[i].1) != KeyOf(decisions[j].1);
    }
    forall d | d in decisions ensures FirstDecision(d, rows, decide) {
      var i :| 0 <= i < |decisions| && decisions[i] == d;
      DecisionIsFirst(d, rows, decide);
    }
    forall x | x in rows && (decide(x) == AllowLike || decide(x) == AvoidLike) ensures HasDecision(decisions, x) {
      var i := InSorted(rows, x);
      FirstMatchIsFirst(ByTime(rows), Decided(decide, KeyOf(x)));
      assert Decided(decide, KeyOf(x))(ByTime(rows)[i]);
      assert GroupDecision(ByTime(rows), decide, KeyOf(x)).Some?;
      var j :| 0 <= j < |decisions| && KeyOf(decisions[j].1) == KeyOf(x);
      assert decisions[j] in decisions;
    }
  }

  method FirstEntryDecisions(rows: seq<Row>, decide: Row -> Decision) returns (decisions: seq<(Decision, Row)>)
    ensures DecidesGroups(decisions, ByTime(rows), decide) && FirstDecisions(decisions, rows, decide)
  {
    var sorted := ByTime(rows);
    var order, groups := GroupByKey(sorted);
    decisions := [];
    for i := 0 to |order|
      invariant OneDecisionPerGroup(decisions, order[..i], sorted, decide)
    {
      assert order[i] in order;
      decisions := DecideNext(decisions, order, i, sorted, groups[order[i]], decide);
    }
    assert order[..|order|] == order;
    forall k | GroupDecision(sorted, decide, k).Some? ensures k in order { DecidedIsGrouped(sorted, decide, k); }
    DecisionsAreFirst(decisions, rows, decide);
  }

  function AllowRows(decisions: seq<(Decision, Row)>): seq<Row> {
    if decisions == [] then []
    else
      var front, last := AllowRows(decisions[..|decisions| - 1]), decisions[|decisions| - 1];
      if last.0 == AllowLike then front + [last.1] else front
  }

  lemma {:induction false} AllowRowsOf(decisions: seq<(Decision, Row)>)
    requires forall i, j :: 0 <= i < j < |decisions| ==> KeyOf(decisions[i].1) != KeyOf(decisions[j].1)
    ensures forall r :: r in AllowRows(decisions) <==> (AllowLike, r) in decisions
    ensures Distinct(AllowRows(decisions))
  {
    if decisions != [] {
      var n := |decisions| - 1;
      var front, last := decisions[..n], decisions[n];
      AllowRowsOf(front);
      assert decisions == front + [last];
      forall r | r in AllowRows(front) ensures r != last.1 {
        var i :| 0 <= i < n && front[i] == (AllowLike, r);
        assert decisions[i] == (AllowLike, r);
      }
    }
  }

  ghost function TotalPnl(rows: seq<Row>): real {
    if rows == [] then 0.0 else TotalPnl(rows[..|rows| - 1]) + rows[|rows| - 1].pnl
  }

  /** Removing a row anywhere takes away its profit. */
  lemma {:induction false} TotalWithout(rows: seq<Row>, i: nat)
    requires i < |rows|
    ensures TotalPnl(rows) == TotalPnl(rows[..i] + rows[i + 1..]) + rows[i].pnl
  {
    var n := |rows| - 1;
    if i == n {
      assert rows[..i] + rows[i + 1..] == rows[..n];
    } else {
      TotalWithout(rows[..n], i);
      var rest := rows[..i] + rows[i + 1..];
      assert rest[..|rest| - 1] == rows[..n][..i] + rows[..n][i + 1..];
    }
  }

  lemma {:induction false} SameTotal(s: seq<Row>, t: seq<Row>)
    requires multiset(s) == multiset(t)
    ensures TotalPnl(s) == TotalPnl(t) && |s| == |t|
  {
    assert forall x :: x in t <==> x in multiset(t);
    if s == [] {
      HeadIn(t);
    } else {
      var n := |s| - 1;
      assert s[n] in multiset(s);
      var i :| 0 <= i < |t| && t[i] == s[n];
      var s', t' := s[..n], t[..i] + t[i + 1..];
      RemoveOne(s, n);
      assert s' + s[n + 1..] == s';
      RemoveOne(t, i);
      CancelOne(multiset(s'), multiset(t'), s[n]);
      SameTotal(s', t');
      TotalWithout(t, i);
    }
  }

  lemma PickedIsDecided(sorted: seq<Row>, decide: Row -> Decision, decisions: seq<(Decision, Row)>, r: Row)
    requires DecidesGroups(decisions, sorted, decide)
    requires FirstMatch(sorted, Allowed(decide, KeyOf(r))) == Some(r)
    ensures (AllowLike, r) in decisions
  {
    assert GroupDecision(sorted, decide, KeyOf(r)) == Some((AllowLike, r));
    var j :| 0 <= j < |decisions| && KeyOf(decisions[j].1) == KeyOf(r);
    assert decisions[j] == (AllowLike, r);
  }

  lemma DecidedIsPicked(sorted: seq<Row>, decide: Row -> Decision, picked: seq<Row>, r: Row)
    requires OnePerGroup(picked, sorted, decide)
    requires FirstMatch(sorted, Allowed(decide, KeyOf(r))) == Some(r)
    ensures r in picked
  {
    FirstMatchIsFirst(sorted, Allowed(decide, KeyOf(r)));
    var at :| 0 <= at < |sorted| && sorted[at] == r && Allowed(decide, KeyOf(r))(r);
    assert decide(sorted[at]) == AllowLike;
    var j :| 0 <= j < |picked| && KeyOf(picked[j]) == KeyOf(sorted[at]);
    assert picked[j] == r;
  }

  /** The two selections pick the same allowed rows, so counts and totals computed from either agree. */
  lemma SelectionsAgree(rows: seq<Row>, decide: Row -> Decision, picked: seq<Row>, decisions: seq<(Decision, Row)>)
    requires OnePerGroup(picked, ByTime(rows), decide) && DecidesGroups(decisions, ByTime(rows), decide)
    ensures multiset(picked) == multiset(AllowRows(decisions))
    ensures |picked| == |AllowRows(decisions)| && TotalPnl(picked) == TotalPnl(AllowRows(decisions))
  {
    var sorted := ByTime(rows);
    AllowRowsOf(decisions);
    forall r ensures r in picked <==> r in AllowRows(decisions) {
      if r in picked {
        var i :| 0 <= i < |picked| && picked[i] == r;
        PickedIsDecided(sorted, decide, decisions, r);
      }
      if r in AllowRows(decisions) {
        var i :| 0 <= i < |decisions| && decisions[i] == (AllowLike, r);
        DecisionKey(sorted, decide, KeyOf(r));
        DecidedIsPicked(sorted, decide, picked, r);
      }
    }
    SameMembers(picked, AllowRows(decisions));
    SameTotal(picked, AllowRows(decisions));
  }

  // Thresholds

  function ThresholdDecision(r: Row, entryMin: real, riskMax: real): Decision {
    if r.entryScore.None? || r.riskScore.None? then Undecided
    else if r.entryScore.value >= entryMin && r.riskScore.value <= riskMax then AllowLike
    else AvoidLike
  }

  function Thresholds(entryMin: real, riskMax: real): Row -> Decision {
    (r: Row) => ThresholdDecision(r, entryMin, riskMax)
  }

  /** Loosening both thresholds never drops an allowed group and never moves its entry to a later time. */
  lemma LooseningEntersNoLater(rows: seq<Row>, entryMin: real, riskMax: real, entryMin': real, riskMax': real, k: Key)
    requires entryMin' <= entryMin && riskMax <= riskMax'
    requires FirstAllowed(rows, Thresholds(entryMin, riskMax), k).Some?
    ensures
      var strict := FirstAllowed(rows, Thresholds(entryMin, riskMax), k);
      var loose := FirstAllowed(rows, Thresholds(entryMin', riskMax'), k);
      loose.Some? && StringLeq(loose.value.eventTs, strict.value.eventTs)
  {
    var sorted := ByTime(rows);
    var p, q := Allowed(Thresholds(entryMin, riskMax), k), Allowed(Thresholds(entryMin', riskMax'), k);
    ByTimeIsSorted(rows);
    FirstMatchIsFirst(sorted, p);
    FirstMatchIsFirst(sorted, q);
    var i :| 0 <= i < |sorted| && sorted[i] == FirstMatch(sorted, p).value && p(sorted[i]);
    assert q(sorted[i]);
    var j :| 0 <= j < |sorted| && sorted[j] == FirstMatch(sorted, q).value && forall m :: 0 <= m < j ==> !q(sorted[m]);
    assert j <= i;
    if j < i {
      assert EarlierOrSame(sorted[j], sorted[i]);
    } else {
      StringLeqTotal(sorted[i].eventTs, sorted[i].eventTs);
    }
  }
}
