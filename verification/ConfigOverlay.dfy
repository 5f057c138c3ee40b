/** The configuration overlay of `config/load.rs`: a TOML base overlaid with the JSON stored in the
    database. `Merge` is the value the recursion computes, `MergeJsonValues` the loop that computes it,
    and the lemmas are its algebra, ending in the exact condition for three layers to associate. */
module ConfigOverlay {
  import opened Common

  datatype Value =
    | Null
    | Bool(b: bool)
    | Number(n: real)
    | Str(s: string)
    | Array(items: seq<Value>)
    | Object(fields: map<string, Value>)

  /** Null and the empty string mean "not set" inside an object. */
  predicate Empty(v: Value) {
    v == Null || v == Str("")
  }

  function Merge(base: Value, overlay: Value): Value
    decreases overlay, 1
  {
    if base.Object? && overlay.Object? then
      Object(map k | k in base.fields.Keys + overlay.fields.Keys :: MergeAt(base, overlay, k))
    else overlay
  }

  /** The merged entry at one key: the only value held, or the two combined. */
  function MergeAt(base: Value, overlay: Value, k: string): Value
    requires base.Object? && overlay.Object? && k in base.fields.Keys + overlay.fields.Keys
    decreases overlay, 0
  {
    if k !in overlay.fields then base.fields[k]
    else if k !in base.fields then overlay.fields[k]
    else Over(base.fields[k], overlay.fields[k])
  }

  /** Two entries of one key: objects merge, otherwise the overlay's is taken unless it is "not set". */
  function Over(base: Value, overlay: Value): Value
    decreases overlay, 2
  {
    if base.Object? && overlay.Object? then Merge(base, overlay)
    else if Empty(overlay) then base
    else overlay
  }

  /** The loop over the overlay's entries, inserting into the base map. For a key that both objects hold, null and the
      empty string leave the base's value, two objects merge, and any other value of the overlay is taken. */
  method MergeJsonValues(base: Value, overlay: Value) returns (merged: Value)
    ensures merged == Merge(base, overlay)
    ensures !base.Object? || !overlay.Object? ==> merged == overlay
    ensures base.Object? && overlay.Object? ==>
      && merged.Object? && merged.fields.Keys == base.fields.Keys + overlay.fields.Keys
      && (forall k :: k in base.fields && k !in overlay.fields ==> merged.fields[k] == base.fields[k])
      && (forall k :: k in overlay.fields && k !in base.fields ==> merged.fields[k] == overlay.fields[k])
      && (forall k :: k in base.fields && k in overlay.fields ==>
            match overlay.fields[k]
            case Null => merged.fields[k] == base.fields[k]
            case Bool(_) => merged.fields[k] == overlay.fields[k]
            case Number(_) => merged.fields[k] == overlay.fields[k]
            case Str(text) => merged.fields[k] == if |text| == 0 then base.fields[k] else overlay.fields[k]
            case Array(_) => merged.fields[k] == overlay.fields[k]
            case Object(_) =>
              merged.fields[k] ==
                if base.fields[k].Object? then Merge(base.fields[k], overlay.fields[k]) else overlay.fields[k])
    decreases overlay
  {
    if !base.Object? || !overlay.Object? {
      return overlay;
    }
    var baseMap := base.fields;
    var todo := overlay.fields.Keys;
    while todo != {}
      invariant todo <= overlay.fields.Keys
      invariant baseMap.Keys == base.fields.Keys + (overlay.fields.Keys - todo)
      invariant forall k :: k in baseMap ==>
        baseMap[k] == if k in todo then base.fields[k] else MergeAt(base, overlay, k)
      decreases todo
    {
      var key :| key in todo;
      todo := todo - {key};
      var overlayVal := overlay.fields[key];
      if key in baseMap {
        if baseMap[key].Object? && overlayVal.Object? {
          var inner := MergeJsonValues(baseMap[key], overlayVal);
          baseMap := baseMap[key := inner];
        } else if !Empty(overlayVal) {
          baseMap := baseMap[key := overlayVal];
        }
      } else {
        baseMap := baseMap[key := overlayVal];
      }
    }
    merged := Object(baseMap);
  }

  /** Corollary of the definition: merging two objects keeps every key of both and invents none. */
  lemma MergeKeys(base: Value, overlay: Value)
    requires base.Object? && overlay.Object?
    ensures Merge(base, overlay).Object?
    ensures Merge(base, overlay).fields.Keys == base.fields.Keys + overlay.fields.Keys
  {
  }

  /** Equal maps are equal objects; stated once so that the algebra below works key by key. */
  lemma SameFields(v: Value, w: Value)
    requires v.Object? && w.Object? && v.fields.Keys == w.fields.Keys
    requires forall k :: k in v.fields ==> v.fields[k] == w.fields[k]
    ensures v == w
  {
  }

  lemma {:induction false} MergeSelf(v: Value)
    ensures Merge(v, v) == v
  {
    if v.Object? {
      forall k | k in v.fields ensures MergeAt(v, v, k) == v.fields[k] {
        if v.fields[k].Object? { MergeSelf(v.fields[k]); }
      }
      SameFields(Merge(v, v), v);
    }
  }

  /** Applying the same overlay a second time changes nothing. */
  lemma {:induction false} MergeTwice(base: Value, overlay: Value)
    ensures Merge(Merge(base, overlay), overlay) == Merge(base, overlay)
    decreases overlay
  {
    if base.Object? && overlay.Object? {
      var once := Merge(base, overlay);
      forall k | k in once.fields ensures MergeAt(once, overlay, k) == once.fields[k] {
        assert once.fields[k] == MergeAt(base, overlay, k);
        if k in overlay.fields && overlay.fields[k].Object? {
          if k in base.fields && base.fields[k].Object? {
            MergeTwice(base.fields[k], overlay.fields[k]);
          } else {
            MergeSelf(overlay.fields[k]);
          }
        }
      }
      SameFields(Merge(once, overlay), once);
    } else {
      MergeSelf(overlay);
    }
  }

  /** The overlay decides everything the base holds: it has each of the base's keys, and where it says
      "not set" the base already says the same. */
  ghost predicate Hides(overlay: Value, base: Value)
    decreases overlay
  {
    base.Object? && overlay.Object? ==>
      forall k :: k in base.fields ==>
        && k in overlay.fields
        && (if base.fields[k].Object? && overlay.fields[k].Object? then Hides(overlay.fields[k], base.fields[k])
            else Empty(overlay.fields[k]) ==> base.fields[k] == overlay.fields[k])
  }

  lemma {:induction false} HidesExactly(overlay: Value, base: Value)
    ensures Merge(base, overlay) == overlay <==> Hides(overlay, base)
    decreases overlay
  {
    if base.Object? && overlay.Object? {
      var m := Merge(base, overlay);
      forall k | k in base.fields && k in overlay.fields && base.fields[k].Object? && overlay.fields[k].Object?
        ensures MergeAt(base, overlay, k) == overlay.fields[k] <==> Hides(overlay.fields[k], base.fields[k])
      {
        HidesExactly(overlay.fields[k], base.fields[k]);
      }
      if Hides(overlay, base) {
        assert m.fields.Keys == overlay.fields.Keys;
        forall k | k in m.fields ensures m.fields[k] == overlay.fields[k] {
          assert m.fields[k] == MergeAt(base, overlay, k);
        }
        SameFields(m, overlay);
      } else {
        var k :| k in base.fields && !(
          && k in overlay.fields
          && (if base.fields[k].Object? && overlay.fields[k].Object? then Hides(overlay.fields[k], base.fields[k])
              else Empty(overlay.fields[k]) ==> base.fields[k] == overlay.fields[k]));
        assert k in m.fields;
        assert k in overlay.fields ==> m.fields[k] == MergeAt(base, overlay, k) != overlay.fields[k];
      }
    }
  }

  /** Some path holds an object in the first layer, a set non-object in the second and an object in the
      third, and the third layer does not decide everything the first held there. */
  ghost predicate Conflict(a: Value, b: Value, c: Value)
    decreases c
  {
    && a.Object? && c.Object?
    && if b.Object? then
         exists k :: k in a.fields && k in b.fields && k in c.fields
                  && !Empty(b.fields[k]) && Conflict(a.fields[k], b.fields[k], c.fields[k])
       else !Hides(c, a)
  }

  /** Three entries of one key combine in either order unless a set middle one conflicts. */
  lemma OverAssociates(x: Value, y: Value, z: Value)
    ensures Over(Over(x, y), z) == Over(x, Over(y, z)) <==> Empty(y) || !Conflict(x, y, z)
    decreases z, 2
  {
    if x.Object? && z.Object? {
      if y.Object? { MergeAssociates(x, y, z); } else { HidesExactly(z, x); }
    }
  }

  /** At one key, the two ways of merging three objects agree unless the layers conflict below it. */
  lemma MergeAtAssociates(a: Value, b: Value, c: Value, k: string)
    requires a.Object? && b.Object? && c.Object?
    requires k in a.fields.Keys + b.fields.Keys + c.fields.Keys
    ensures
      MergeAt(Merge(a, b), c, k) == MergeAt(a, Merge(b, c), k) <==>
      !(k in a.fields && k in b.fields && k in c.fields
        && !Empty(b.fields[k]) && Conflict(a.fields[k], b.fields[k], c.fields[k]))
    decreases c, 0
  {
    if k in a.fields && k in b.fields && k in c.fields {
      OverAssociates(a.fields[k], b.fields[k], c.fields[k]);
    }
  }

  /** Three layers may be merged in either order exactly when they do not conflict. */
  lemma {:induction false} MergeAssociates(a: Value, b: Value, c: Value)
    ensures Merge(Merge(a, b), c) == Merge(a, Merge(b, c)) <==> !Conflict(a, b, c)
    decreases c, 1
  {
    if a.Object? && b.Object? && c.Object? {
      var l, r := Merge(Merge(a, b), c), Merge(a, Merge(b, c));
      assert l.fields.Keys == r.fields.Keys == a.fields.Keys + b.fields.Keys + c.fields.Keys;
      forall k | k in l.fields
        ensures l.fields[k] == r.fields[k] <==>
          !(k in a.fields && k in b.fields && k in c.fields
            && !Empty(b.fields[k]) && Conflict(a.fields[k], b.fields[k], c.fields[k]))
      {
        MergeAtAssociates(a, b, c, k);
      }
      if !Conflict(a, b, c) { SameFields(l, r); }
    } else if a.Object? && c.Object? {
      HidesExactly(c, a);
    }
  }

  /** Layers that do not associate: the middle one replaces an object, and the last one brings an object back. */
  lemma ConflictWitness()
    ensures
      var a := Object(map["k" := Object(map["x" := Number(1.0)])]);
      var b := Object(map["k" := Bool(true)]);
      var c := Object(map["k" := Object(map["y" := Number(2.0)])]);
      Merge(Merge(a, b), c) != Merge(a, Merge(b, c))
  {
    var a := Object(map["k" := Object(map["x" := Number(1.0)])]);
    var b := Object(map["k" := Bool(true)]);
    var c := Object(map["k" := Object(map["y" := Number(2.0)])]);
    assert "x" in a.fields["k"].fields && "x" !in c.fields["k"].fields;
    assert !Hides(c.fields["k"], a.fields["k"]);
    assert Conflict(a.fields["k"], b.fields["k"], c.fields["k"]);
    MergeAssociates(a, b, c);
  }
}
