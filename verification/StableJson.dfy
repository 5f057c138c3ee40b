/** The stable signature of `flow-engine-definition-switch.ts`, which decides whether saving a draft before a
    definition switch can be skipped. `Norm` is the canonical form and `Meaning` what a payload says as JSON; normal
    forms agree exactly when meanings do. */
module StableJson {
  import opened Common
  import opened Sorting

  /** A finite double by its place in some enumeration of them; minus zero, which is written as zero, is zero. */
  type Number = int

  /** `Absent` is undefined, a function or a symbol. An object is its keys in insertion order and their values. */
  datatype Js =
    | Absent
    | Null
    | Bool(b: bool)
    | Num(n: Number)
    | Str(s: string)
    | Arr(items: seq<Js>)
    | Obj(keys: seq<string>, fields: map<string, Js>)

  /** Objects have each key once. */
  ghost predicate Proper(v: Js) {
    match v
    case Arr(items) => forall i :: 0 <= i < |items| ==> Proper(items[i])
    case Obj(keys, fields) =>
      && Distinct(keys)
      && (forall k :: k in keys <==> k in fields)
      && (forall k :: k in fields ==> Proper(fields[k]))
    case _ => true
  }

  function Present(v: Js, keys: seq<string>): seq<string>
    requires v.Obj? && forall k :: k in keys ==> k in v.fields
  {
    if keys == [] then []
    else if v.fields[keys[0]].Absent? then Present(v, keys[1..])
    else [keys[0]] + Present(v, keys[1..])
  }

  function SortedKeys(v: Js): (r: seq<string>)
    requires v.Obj?
  {
    Sort(v.keys, StringLeq)
  }

  /** Sorting an object's keys loses none and repeats none. */
  lemma SortedKeysOf(v: Js)
    requires v.Obj? && Proper(v)
    ensures Sorted(SortedKeys(v), StringLeq) && Distinct(SortedKeys(v))
    ensures forall k :: k in SortedKeys(v) <==> k in v.fields
  {
    StringLeqOrders();
    SortSorts(v.keys, StringLeq);
    DistinctByCount(v.keys);
    DistinctByCount(SortedKeys(v));
    assert forall k :: k in v.keys <==> k in multiset(v.keys);
    assert forall k :: k in SortedKeys(v) <==> k in multiset(SortedKeys(v));
  }

  function Norm(v: Js): Js
    requires Proper(v)
  {
    match v
    case Arr(items) =>
      Arr(seq(|items|, i requires 0 <= i < |items| => if items[i].Absent? then Null else Norm(items[i])))
    case Obj(keys, fields) =>
      SortedKeysOf(v);
      Obj(Present(v, SortedKeys(v)), map k | k in fields && !fields[k].Absent? :: Norm(fields[k]))
    case _ => v
  }

  // The keys

  lemma {:induction false} PresentKeeps(v: Js, keys: seq<string>)
    requires v.Obj? && (forall k :: k in keys ==> k in v.fields)
    requires Sorted(keys, StringLeq) && Distinct(keys)
    ensures Sorted(Present(v, keys), StringLeq) && Distinct(Present(v, keys))
    ensures forall k :: k in Present(v, keys) <==> k in keys && !v.fields[k].Absent?
  {
    if keys != [] {
      PresentKeeps(v, keys[1..]);
      forall k ensures k in keys <==> k == keys[0] || k in keys[1..] { assert keys == [keys[0]] + keys[1..]; }
      assert forall j :: 0 < j < |keys| ==> StringLeq(keys[0], keys[j]) && keys[0] != keys[j];
      assert forall k :: k in keys[1..] ==> StringLeq(keys[0], k) && keys[0] != k;
    }
  }

  /** The keys of a normal form are the present keys, sorted. */
  lemma NormKeys(v: Js)
    requires v.Obj? && Proper(v)
    ensures Sorted(Norm(v).keys, StringLeq) && Distinct(Norm(v).keys)
    ensures forall k :: k in Norm(v).keys <==> k in v.fields && !v.fields[k].Absent?
  {
    SortedKeysOf(v);
    PresentKeeps(v, SortedKeys(v));
  }

  lemma SameKeys(s: seq<string>, t: seq<string>)
    requires Sorted(s, StringLeq) && Sorted(t, StringLeq) && Distinct(s) && Distinct(t)
    requires forall k :: k in s <==> k in t
    ensures s == t
  {
    forall x, y | StringLeq(x, y) && StringLeq(y, x) ensures x == y { StringLeqTotal(x, y); }
    SortedUnique(s, t, StringLeq);
  }

  // What a payload means

  datatype Json =
    | JNull
    | JBool(b: bool)
    | JNum(n: Number)
    | JStr(s: string)
    | JArr(elements: seq<Json>)
    | JObj(members: map<string, Json>)

  /** Key order is ignored, absent members do not exist and absent array items are null. */
  ghost function Meaning(v: Js): Json
    requires !v.Absent?
  {
    match v
    case Null => JNull
    case Bool(b) => JBool(b)
    case Num(n) => JNum(n)
    case Str(s) => JStr(s)
    case Arr(items) =>
      JArr(seq(|items|, i requires 0 <= i < |items| => if items[i].Absent? then JNull else Meaning(items[i])))
    case Obj(_, fields) => JObj(map k | k in fields && !fields[k].Absent? :: Meaning(fields[k]))
  }

  lemma {:induction false} NormIsProper(v: Js)
    requires Proper(v)
    ensures Proper(Norm(v))
  {
    match v
    case Arr(items) =>
      forall i | 0 <= i < |items| ensures Proper(Norm(v).items[i]) {
        if !items[i].Absent? { NormIsProper(items[i]); }
      }
    case Obj(_, fields) =>
      NormKeys(v);
      forall k | k in Norm(v).fields ensures Proper(Norm(v).fields[k]) { NormIsProper(fields[k]); }
    case _ =>
  }

  /** Normalising does not change what a payload means. */
  lemma {:induction false} NormKeepsMeaning(v: Js)
    requires Proper(v) && !v.Absent?
    ensures !Norm(v).Absent? && Meaning(Norm(v)) == Meaning(v)
  {
    match v
    case Arr(items) =>
      var n := Norm(v);
      var l, r := Meaning(n).elements, Meaning(v).elements;
      forall i | 0 <= i < |items| ensures l[i] == r[i] {
        if !items[i].Absent? { NormKeepsMeaning(items[i]); }
        assert !n.items[i].Absent?;
        assert l[i] == Meaning(n.items[i]);
      }
      assert l == r;
    case Obj(_, fields) =>
      var l, r := Meaning(Norm(v)).members, Meaning(v).members;
      forall k | k in fields && !fields[k].Absent? ensures k in l && l[k] == r[k] { NormKeepsMeaning(fields[k]); }
      assert l.Keys == r.Keys;
      assert l == r;
    case _ =>
  }

  /** The normal form is determined by the meaning. */
  lemma {:induction false} MeaningFixesNorm(v: Js, w: Js)
    requires Proper(v) && Proper(w) && !v.Absent? && !w.Absent?
    requires Meaning(v) == Meaning(w)
    ensures Norm(v) == Norm(w)
    decreases v, 1
  {
    if v.Arr? {
      ItemsFixNorm(v, w);
    } else if v.Obj? {
      FieldsFixNorm(v, w);
    }
  }

  /** An absent item and a null mean the same, and normalise alike. */
  lemma NullIsNorm(v: Js, w: Js)
    requires Proper(v) && Proper(w)
    requires (if v.Absent? then JNull else Meaning(v)) == (if w.Absent? then JNull else Meaning(w))
    ensures v.Absent? && !w.Absent? ==> Norm(w) == Null
    ensures w.Absent? && !v.Absent? ==> Norm(v) == Null
  {
  }

  lemma {:induction false} ItemsFixNorm(v: Js, w: Js)
    requires Proper(v) && Proper(w) && v.Arr? && w.Arr? && Meaning(v) == Meaning(w)
    ensures Norm(v) == Norm(w)
    decreases v, 0
  {
    assert |v.items| == |Meaning(v).elements| == |w.items|;
    forall i | 0 <= i < |v.items| ensures Norm(v).items[i] == Norm(w).items[i] {
      assert Meaning(v).elements[i] == Meaning(w).elements[i];
      NullIsNorm(v.items[i], w.items[i]);
      if !v.items[i].Absent? && !w.items[i].Absent? { MeaningFixesNorm(v.items[i], w.items[i]); }
    }
    assert Norm(v).items == Norm(w).items;
  }

  /** Objects that mean the same have the same keys in their normal forms. */
  lemma SameNormKeys(v: Js, w: Js)
    requires Proper(v) && Proper(w) && v.Obj? && w.Obj? && Meaning(v).members.Keys == Meaning(w).members.Keys
    ensures Norm(v).keys == Norm(w).keys && Norm(v).fields.Keys == Norm(w).fields.Keys
  {
    NormKeys(v);
    NormKeys(w);
    forall k ensures k in Norm(v).keys <==> k in Norm(w).keys {
      assert k in Norm(v).keys <==> k in Meaning(v).members;
      assert k in Norm(w).keys <==> k in Meaning(w).members;
    }
    SameKeys(Norm(v).keys, Norm(w).keys);
    assert Norm(v).fields.Keys == Meaning(v).members.Keys && Norm(w).fields.Keys == Meaning(w).members.Keys;
  }

  lemma {:induction false} FieldsFixNorm(v: Js, w: Js)
    requires Proper(v) && Proper(w) && v.Obj? && w.Obj? && Meaning(v) == Meaning(w)
    ensures Norm(v) == Norm(w)
    decreases v, 0
  {
    forall k | k in v.fields && !v.fields[k].Absent?
      ensures k in w.fields && !w.fields[k].Absent? && Norm(v.fields[k]) == Norm(w.fields[k])
    {
      assert k in Meaning(v).members && k in Meaning(w).members;
      assert Meaning(v).members[k] == Meaning(w).members[k];
      MeaningFixesNorm(v.fields[k], w.fields[k]);
    }
    SameNormKeys(v, w);
    assert Norm(v).fields == Norm(w).fields;
  }

  lemma NormIffMeaning(v: Js, w: Js)
    requires Proper(v) && Proper(w) && !v.Absent? && !w.Absent?
    ensures Norm(v) == Norm(w) <==> Meaning(v) == Meaning(w)
  {
    NormKeepsMeaning(v);
    NormKeepsMeaning(w);
    if Meaning(v) == Meaning(w) { MeaningFixesNorm(v, w); }
  }

  lemma NormIdempotent(v: Js)
    requires Proper(v)
    ensures Proper(Norm(v)) && Norm(Norm(v)) == Norm(v)
  {
    NormIsProper(v);
    if !v.Absent? {
      NormKeepsMeaning(v);
      MeaningFixesNorm(Norm(v), v);
    }
  }

  /** The recursion, with its two loops: over the items of an array and over the sorted keys of an object. */
  method NormalizeStableJson(value: Js) returns (r: Js)
    requires Proper(value)
    ensures r == Norm(value)
    decreases value, 1
  {
    if value.Arr? {
      r := NormalizeItems(value);
    } else if value.Obj? {
      r := NormalizeFields(value);
    } else {
      r := value;
    }
  }

  method NormalizeItems(value: Js) returns (r: Js)
    requires Proper(value) && value.Arr?
    ensures r == Norm(value)
    decreases value, 0
  {
    var output: seq<Js> := [];
    for i := 0 to |value.items|
      invariant output == Norm(value).items[..i]
    {
      if value.items[i].Absent? {
        output := output + [Null];
      } else {
        var item := NormalizeStableJson(value.items[i]);
        output := output + [item];
      }
    }
    r := Arr(output);
  }

  ghost predicate KeysOf(v: Js, keys: seq<string>) {
    v.Obj? && Proper(v) && forall k :: k in keys ==> k in v.fields
  }

  /** The output object after the given keys. */
  ghost function Output(v: Js, keys: seq<string>): map<string, Js>
    requires KeysOf(v, keys)
  {
    map k | k in keys && !v.fields[k].Absent? :: Norm(v.fields[k])
  }

  lemma {:induction false} PresentSplits(v: Js, first: seq<string>, rest: seq<string>)
    requires KeysOf(v, first) && KeysOf(v, rest)
    ensures KeysOf(v, first + rest) && Present(v, first + rest) == Present(v, first) + Present(v, rest)
  {
    if first == [] {
      assert first + rest == rest;
    } else {
      assert (first + rest)[1..] == first[1..] + rest;
      PresentSplits(v, first[1..], rest);
    }
  }

  /** The loop over the sorted keys has written the first `i` of them. */
  ghost predicate Written(v: Js, sorted: seq<string>, i: nat, keys: seq<string>, fields: map<string, Js>) {
    && i <= |sorted| && KeysOf(v, sorted)
    && KeysOf(v, sorted[..i]) && keys == Present(v, sorted[..i]) && fields == Output(v, sorted[..i])
  }

  lemma WritesNext(v: Js, sorted: seq<string>, i: nat, keys: seq<string>, fields: map<string, Js>)
    requires i < |sorted| && Written(v, sorted, i, keys, fields)
    ensures
      var key := sorted[i];
      key in v.fields && Proper(v.fields[key]) &&
      if v.fields[key].Absent? then Written(v, sorted, i + 1, keys, fields)
      else Written(v, sorted, i + 1, keys + [key], fields[key := Norm(v.fields[key])])
  {
    assert sorted[i] in sorted && sorted[..i + 1] == sorted[..i] + [sorted[i]];
    PresentSplits(v, sorted[..i], [sorted[i]]);
  }

  lemma WrittenIsNorm(v: Js, keys: seq<string>, fields: map<string, Js>)
    requires v.Obj? && Proper(v) && Written(v, SortedKeys(v), |SortedKeys(v)|, keys, fields)
    ensures Obj(keys, fields) == Norm(v)
  {
    SortedKeysOf(v);
    assert SortedKeys(v)[..|SortedKeys(v)|] == SortedKeys(v);
    assert fields == Norm(v).fields;
  }

  method NormalizeFields(value: Js) returns (r: Js)
    requires Proper(value) && value.Obj?
    ensures r == Norm(value)
    decreases value, 0
  {
    SortedKeysOf(value);
    var sorted := SortedKeys(value);
    var keys: seq<string>, fields: map<string, Js> := [], map[];
    for i := 0 to |sorted|
      invariant Written(value, sorted, i, keys, fields)
    {
      WritesNext(value, sorted, i, keys, fields);
      var key := sorted[i];
      if !value.fields[key].Absent? {
        var next := NormalizeStableJson(value.fields[key]);
        keys, fields := keys + [key], fields[key := next];
      }
    }
    WrittenIsNorm(value, keys, fields);
    r := Obj(keys, fields);
  }

  // What is left to write out

  /** Values `JSON.stringify` writes out in full: nothing absent at any depth. */
  ghost predicate Solid(v: Js) {
    match v
    case Absent => false
    case Arr(items) => forall i :: 0 <= i < |items| ==> Solid(items[i])
    case Obj(keys, fields) =>
      && Distinct(keys)
      && (forall k :: k in keys <==> k in fields)
      && (forall k :: k in fields ==> Solid(fields[k]))
    case _ => true
  }

  lemma {:induction false} NormIsSolid(v: Js)
    requires Proper(v) && !v.Absent?
    ensures Solid(Norm(v))
  {
    match v
    case Arr(items) =>
      forall i | 0 <= i < |items| ensures Solid(Norm(v).items[i]) {
        if !items[i].Absent? { NormIsSolid(items[i]); }
      }
    case Obj(_, fields) =>
      NormKeys(v);
      forall k | k in Norm(v).fields ensures Solid(Norm(v).fields[k]) { NormIsSolid(fields[k]); }
    case _ =>
  }
}
