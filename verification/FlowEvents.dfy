/** The bounded list of flow events in `trade-flow-realtime-context.tsx`: each event replaces an older copy of
    itself, the list is sorted by descending id and cut to 200. */
module FlowEvents {
  import opened Common
  import opened Sorting

  datatype FlowEvent<P> = FlowEvent(id: int, payload: P)

  const SHOWN_MAX := 200

  predicate NewerFirst<P>(a: FlowEvent<P>, b: FlowEvent<P>) {
    a.id >= b.id
  }

  function Others<P>(list: seq<FlowEvent<P>>, id: int): seq<FlowEvent<P>> {
    if list == [] then []
    else if list[0].id == id then Others(list[1..], id)
    else [list[0]] + Others(list[1..], id)
  }

  function OnFlowEvent<P>(prev: seq<FlowEvent<P>>, e: FlowEvent<P>): seq<FlowEvent<P>> {
    var next := Sort([e] + Others(prev, e.id), NewerFirst);
    next[..Min(|next|, SHOWN_MAX)]
  }

  /** The list after a stream of events. */
  function Shown<P>(stream: seq<FlowEvent<P>>): seq<FlowEvent<P>> {
    if stream == [] then [] else OnFlowEvent(Shown(stream[..|stream| - 1]), stream[|stream| - 1])
  }

  ghost predicate Descending<P>(list: seq<FlowEvent<P>>) {
    forall i, j :: 0 <= i < j < |list| ==> list[i].id > list[j].id
  }

  ghost predicate HasId<P>(list: seq<FlowEvent<P>>, id: int) {
    exists i :: 0 <= i < |list| && list[i].id == id
  }

  /** `e` is the last event of its id in the stream. */
  ghost predicate Latest<P>(stream: seq<FlowEvent<P>>, e: FlowEvent<P>) {
    exists i :: 0 <= i < |stream| && stream[i] == e && forall j :: i < j < |stream| ==> stream[j].id != e.id
  }

  /** The list holds the latest payloads of the largest ids received, in strictly descending order: an id that
      was received is missing only if the list is full of larger ones. */
  ghost predicate LargestShown<P>(list: seq<FlowEvent<P>>, stream: seq<FlowEvent<P>>) {
    && |list| <= 200 && Descending(list)
    && (forall e :: e in list ==> Latest(stream, e))
    && (forall i :: 0 <= i < |stream| && !HasId(list, stream[i].id) ==>
          |list| == 200 && forall k :: 0 <= k < |list| ==> list[k].id > stream[i].id)
  }

  lemma {:induction false} OthersMembers<P>(list: seq<FlowEvent<P>>, id: int)
    ensures forall e :: e in Others(list, id) <==> e in list && e.id != id
  {
    if list != [] {
      OthersMembers(list[1..], id);
      assert list == [list[0]] + list[1..];
    }
  }

  lemma {:induction false} OthersBelow<P>(list: seq<FlowEvent<P>>, id: int, top: int)
    requires forall i :: 0 <= i < |list| ==> list[i].id < top
    ensures forall i :: 0 <= i < |Others(list, id)| ==> Others(list, id)[i].id < top
  {
    if list != [] {
      OthersBelow(list[1..], id, top);
    }
  }

  /** In a descending list the first id does not come again, so removing it leaves the rest. */
  lemma NoLater<P>(list: seq<FlowEvent<P>>)
    requires Descending(list) && list != []
    ensures !HasId(list[1..], list[0].id)
  {
  }

  lemma {:induction false} OthersOf<P>(list: seq<FlowEvent<P>>, id: int)
    requires Descending(list)
    ensures Descending(Others(list, id)) && !HasId(Others(list, id), id)
    ensures |Others(list, id)| >= |list| - 1 && (!HasId(list, id) ==> Others(list, id) == list)
  {
    if list != [] {
      OthersOf(list[1..], id);
      assert list == [list[0]] + list[1..];
      assert forall i :: 0 <= i < |list[1..]| ==> list[1..][i] == list[i + 1];
      if list[0].id == id {
        NoLater(list);
      } else {
        OthersBelow(list[1..], id, list[0].id);
        if !HasId(list, id) {
          assert !HasId(list[1..], id);
        }
      }
    }
  }

  /** A new id in front of a descending list that does not hold it. */
  lemma IdsDistinct<P>(input: seq<FlowEvent<P>>)
    requires input != [] && Descending(input[1..]) && !HasId(input[1..], input[0].id)
    ensures Distinct(input)
    ensures forall x, y :: x in input && y in input && x.id == y.id ==> x == y
  {
  }

  /** Sorting the new event into the others gives a strictly descending list of just those. */
  lemma Resorted<P(!new)>(prev: seq<FlowEvent<P>>, e: FlowEvent<P>) returns (all: seq<FlowEvent<P>>)
    requires Descending(prev)
    ensures all == Sort([e] + Others(prev, e.id), NewerFirst) && Descending(all)
    ensures |all| == |Others(prev, e.id)| + 1
    ensures forall x :: x in all <==> x == e || (x in prev && x.id != e.id)
  {
    var others := Others(prev, e.id);
    OthersOf(prev, e.id);
    OthersMembers(prev, e.id);
    var input := [e] + others;
    all := Sort(input, NewerFirst);
    SortSorts(input, NewerFirst);
    assert |multiset(all)| == |all| && |multiset(input)| == |input|;
    forall x ensures x in all <==> x in input {
      assert x in all <==> x in multiset(all);
      assert x in input <==> x in multiset(input);
    }
    assert forall x :: x in input <==> x == e || x in others;
    IdsDistinct(input);
    DistinctByCount(input);
    DistinctByCount(all);
    forall i, j | 0 <= i < j < |all| ensures all[i].id > all[j].id {
      assert all[i] in all && all[j] in all && all[i] != all[j];
      assert NewerFirst(all[i], all[j]);
    }
  }

  lemma LatestGrows<P>(stream: seq<FlowEvent<P>>, e: FlowEvent<P>, x: FlowEvent<P>)
    ensures Latest(stream + [e], e)
    ensures Latest(stream, x) && x.id != e.id ==> Latest(stream + [e], x)
  {
    var grown := stream + [e];
    assert grown[|stream|] == e;
    if Latest(stream, x) && x.id != e.id {
      var i :| 0 <= i < |stream| && stream[i] == x && forall j :: i < j < |stream| ==> stream[j].id != x.id;
      assert grown[i] == x;
    }
  }

  /** What the cut removes is smaller than everything it leaves. */
  lemma CutIsSmaller<P>(all: seq<FlowEvent<P>>, list: seq<FlowEvent<P>>, id: int)
    requires Descending(all) && list == all[..Min(|all|, SHOWN_MAX)]
    requires HasId(all, id) && !HasId(list, id)
    ensures |list| == SHOWN_MAX && forall k :: 0 <= k < |list| ==> list[k].id > id
  {
  }

  /** An id below a full list stays below the next one. */
  lemma MissingStaysSmaller<P>(prev: seq<FlowEvent<P>>, e: FlowEvent<P>, all: seq<FlowEvent<P>>, id: int)
    requires Descending(all) && |all| == |Others(prev, e.id)| + 1 && Descending(prev)
    requires forall x :: x in all <==> x == e || (x in prev && x.id != e.id)
    requires |prev| == SHOWN_MAX && (forall k :: 0 <= k < |prev| ==> prev[k].id > id) && id != e.id
    ensures |all| >= SHOWN_MAX && forall k :: 0 <= k < SHOWN_MAX ==> all[k].id > id
  {
    OthersOf(prev, e.id);
    forall k | 0 <= k < SHOWN_MAX ensures all[k].id > id {
      assert all[k] in all;
      if all[k] in prev {
        var m :| 0 <= m < |prev| && prev[m] == all[k];
      } else if HasId(prev, e.id) {
        var m :| 0 <= m < |prev| && prev[m].id == e.id;
      } else {
        assert |all| == SHOWN_MAX + 1;
        var last := all[SHOWN_MAX];
        assert last in all && last.id < all[k].id;
        var m :| 0 <= m < |prev| && prev[m] == last;
      }
    }
  }

  lemma NotInPrev<P>(prev: seq<FlowEvent<P>>, e: FlowEvent<P>, all: seq<FlowEvent<P>>, id: int)
    requires forall x :: x in all <==> x == e || (x in prev && x.id != e.id)
    requires !HasId(all, id)
    ensures !HasId(prev, id) && id != e.id
  {
  }

  /** After any stream of events, with repeats and in any order. */
  lemma {:induction false} ShowsLargest<P(!new)>(stream: seq<FlowEvent<P>>)
    ensures LargestShown(Shown(stream), stream)
  {
    if stream != [] {
      var n := |stream| - 1;
      var front, e := stream[..n], stream[n];
      ShowsLargest(front);
      var prev, list := Shown(front), Shown(stream);
      var all := Resorted(prev, e);
      assert stream == front + [e];
      assert list == all[..Min(|all|, SHOWN_MAX)];
      forall x | x in list ensures Latest(stream, x) {
        assert x in all;
        LatestGrows(front, e, x);
      }
      forall i | 0 <= i < |stream| && !HasId(list, stream[i].id)
        ensures |list| == SHOWN_MAX && forall k :: 0 <= k < |list| ==> list[k].id > stream[i].id
      {
        var id := stream[i].id;
        if HasId(all, id) {
          CutIsSmaller(all, list, id);
        } else {
          assert e in all;
          NotInPrev(prev, e, all, id);
          assert stream[i] == front[i];
          MissingStaysSmaller(prev, e, all, id);
        }
      }
    }
  }

  /** Two lists that agree before `k` and both show the largest ids: the other one reaches at least as high at `k`. */
  lemma ReachesAsHigh<P>(a: seq<FlowEvent<P>>, b: seq<FlowEvent<P>>, stream: seq<FlowEvent<P>>, k: nat)
    requires LargestShown(a, stream) && LargestShown(b, stream)
    requires k < |a| && k <= |b| && forall m :: 0 <= m < k ==> a[m] == b[m]
    ensures k < |b| && b[k].id >= a[k].id
  {
    assert a[k] in a;
    var at :| 0 <= at < |stream| && stream[at] == a[k];
    if HasId(b, a[k].id) {
      var m :| 0 <= m < |b| && b[m].id == a[k].id;
      assert forall j :: 0 <= j < k ==> b[j].id > a[k].id;
    }
  }

  lemma {:induction false} AgreeUpTo<P>(a: seq<FlowEvent<P>>, b: seq<FlowEvent<P>>, stream: seq<FlowEvent<P>>, k: nat)
    requires LargestShown(a, stream) && LargestShown(b, stream) && k <= |a|
    ensures k <= |b| && forall m :: 0 <= m < k ==> a[m] == b[m]
  {
    if k > 0 {
      var at := k - 1;
      AgreeUpTo(a, b, stream, at);
      ReachesAsHigh(a, b, stream, at);
      ReachesAsHigh(b, a, stream, at);
      assert a[at] in a && b[at] in b;
    }
  }

  /** There is only one such list, so the one shown depends on the latest event of each id and not on arrival order. */
  lemma LargestIsUnique<P(!new)>(list: seq<FlowEvent<P>>, stream: seq<FlowEvent<P>>)
    ensures LargestShown(list, stream) <==> list == Shown(stream)
  {
    ShowsLargest(stream);
    if LargestShown(list, stream) {
      AgreeUpTo(list, Shown(stream), stream, |list|);
      AgreeUpTo(Shown(stream), list, stream, |Shown(stream)|);
    }
  }

  lemma LastOf<P>(stream: seq<FlowEvent<P>>, i: nat) returns (e: FlowEvent<P>)
    requires i < |stream|
    ensures Latest(stream, e) && e.id == stream[i].id
    decreases |stream| - i
  {
    if later :| i < later < |stream| && stream[later].id == stream[i].id {
      e := LastOf(stream, later);
    } else {
      e := stream[i];
    }
  }

  /** Streams that end up with the same latest event of every id show the same list, whatever order they came in. */
  lemma ArrivalOrderIrrelevant<P(!new)>(first: seq<FlowEvent<P>>, second: seq<FlowEvent<P>>)
    requires forall e :: Latest(first, e) <==> Latest(second, e)
    ensures Shown(first) == Shown(second)
  {
    ShowsLargest(second);
    var list := Shown(second);
    forall i | 0 <= i < |first| && !HasId(list, first[i].id)
      ensures |list| == SHOWN_MAX && forall k :: 0 <= k < |list| ==> list[k].id > first[i].id
    {
      var e := LastOf(first, i);
      assert Latest(second, e);
      var j :| 0 <= j < |second| && second[j] == e;
    }
    LargestIsUnique(list, first);
  }
}
