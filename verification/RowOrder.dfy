/** `ORDER BY … LIMIT` over the ids of a table, and fresh ids. */
module RowOrder {
  import opened Sorting

  lemma SomeMember<T>(s: set<T>) returns (x: T)
    requires s != {}
    ensures x in s
  {
    x :| x in s;
  }

  /** Row order of a listing: by rank, then by id. */
  predicate Ordered(rank: int -> (int, int), a: int, b: int) {
    var ra, rb := rank(a), rank(b);
    ra.0 < rb.0 || (ra.0 == rb.0 && (ra.1 < rb.1 || (ra.1 == rb.1 && a <= b)))
  }

  /** `ids` are the first `limit` members of `rows`, in order. */
  ghost predicate FirstRows(rows: set<int>, rank: int -> (int, int), limit: nat, ids: seq<int>) {
    && Distinct(ids) && |ids| <= limit
    && (forall id :: id in ids ==> id in rows)
    && (forall i, j :: 0 <= i < j < |ids| ==> Ordered(rank, ids[i], ids[j]))
    && (forall id :: id in rows && id !in ids ==> |ids| == limit && forall x :: x in ids ==> Ordered(rank, x, id))
  }

  lemma {:induction false} LeastRow(rows: set<int>, rank: int -> (int, int)) returns (m: int)
    requires rows != {}
    ensures m in rows && forall x :: x in rows ==> Ordered(rank, m, x)
  {
    var first := SomeMember(rows);
    var others := rows - {first};
    m := first;
    if others != {} {
      var least := LeastRow(others, rank);
      if !Ordered(rank, first, least) { m := least; }
      forall x | x in rows ensures Ordered(rank, m, x) {
        if x != first { assert x in others; }
      }
    } else {
      forall x | x in rows ensures x == first {
        assert x !in others;
      }
    }
  }

  /** `ORDER BY … LIMIT`: takes the least remaining row until the limit is reached. */
  method Select(rows: set<int>, rank: int -> (int, int), limit: nat) returns (ids: seq<int>)
    ensures FirstRows(rows, rank, limit, ids)
  {
    ids := [];
    var rest := rows;
    while |ids| < limit && rest != {}
      invariant |ids| <= limit && Distinct(ids)
      invariant rest <= rows && forall id :: id in rows <==> id in rest || id in ids
      invariant forall id :: id in rest ==> id !in ids
      invariant forall i, j :: 0 <= i < j < |ids| ==> Ordered(rank, ids[i], ids[j])
      invariant forall x, id :: x in ids && id in rest ==> Ordered(rank, x, id)
      decreases rest
    {
      ghost var least := LeastRow(rest, rank);
      var m :| m in rest && forall x :: x in rest ==> Ordered(rank, m, x);
      ids := ids + [m];
      rest := rest - {m};
    }
  }

  /** BIGSERIAL: an id above all others. */
  method FreshId(used: set<int>) returns (id: int)
    ensures id !in used
  {
    id := 0;
    var rest := used;
    while rest != {}
      invariant rest <= used && forall x :: x in used && x !in rest ==> x < id
      decreases rest
    {
      ghost var member := SomeMember(rest);
      var x :| x in rest;
      if x >= id { id := x + 1; }
      rest := rest - {x};
    }
  }
}
