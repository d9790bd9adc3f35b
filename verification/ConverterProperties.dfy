// What container conversion guarantees: well-typed results for every input, the
// exact values it leaves alone, and the decimal round trip.
module ConverterProperties {
  import opened Common
  import opened GoValues
  import opened Converter

  // ----- Soundness -----------------------------------------------------------

  // v is a value of type t with no nil pointer, slice, map or address inside.
  predicate Full(v: Val, t: Type)
    decreases t
  {
    match t
    case TPtr(e) => v.PtrV? && v.elem == e && v.pointee.Some? && Full(v.pointee.value, e)
    case TSlice(e) =>
      v.SliceV? && v.elem == e && !v.isNil && forall i :: 0 <= i < |v.items| ==> Full(v.items[i], e)
    case TMap(k, e) =>
      v.MapV? && v.key == k && v.elem == e && !v.isNil && DistinctKeys(v.entries)
      && forall i :: 0 <= i < |v.entries| ==> Full(v.entries[i].0, k) && Full(v.entries[i].1, e)
    case TIP => v.IPV? && v.octets != []
    case _ => HasType(v, t)
  }

  lemma {:induction false} FullIsTyped(v: Val, t: Type)
    requires Full(v, t)
    ensures HasType(v, t)
    decreases t
  {
    match t
    case TPtr(e) => FullIsTyped(v.pointee.value, e);
    case TSlice(e) =>
      forall i | 0 <= i < |v.items| ensures HasType(v.items[i], e) { FullIsTyped(v.items[i], e); }
    case TMap(k, e) =>
      forall i | 0 <= i < |v.entries|
        ensures HasType(v.entries[i].0, k) && HasType(v.entries[i].1, e)
      {
        FullIsTyped(v.entries[i].0, k);
        FullIsTyped(v.entries[i].1, e);
      }
    case _ =>
  }

  // Every input converts to a valid value of the target type with nothing nil
  // inside. Hence no entry is ever skipped and no element is ever zero-filled;
  // in particular a nil element of a Nullable column becomes a pointer to zero.
  lemma {:induction false} ConvertElemSound(lib: GoLib, val: Val, t: Type)
    requires Target(t)
    ensures var r := ConvertElem(lib, val, t); r.Some? && Full(r.value, t)
    decreases t, 2
  {
    match t
    case TPtr(e) => ConvertElemSound(lib, val, e);
    case TSlice(_) => BuildSliceSound(lib, val, t);
    case TMap(_, _) => BuildMapSound(lib, val, t);
    case _ => LeafSound(lib, val, t);
  }

  lemma LeafSound(lib: GoLib, val: Val, t: Type)
    requires IsScalar(t) || t.TOther?
    ensures ConvertElem(lib, val, t) == Some(CoerceTo(lib, if t.TOther? then val else ScalarConvert(lib, val, t), t))
    ensures Full(ConvertElem(lib, val, t).value, t)
  {
    if IsScalar(t) {
      CoercedScalarTyped(lib, val, t);
    }
  }

  lemma CoercedScalarTyped(lib: GoLib, val: Val, t: Type)
    requires IsScalar(t)
    ensures Full(CoerceTo(lib, ScalarConvert(lib, val, t), t), t)
  {
    var c := ScalarConvert(lib, val, t);
    match t
    case TString => assert c.Str?;
    case TInt(_) => assert c.IntV?;
    case TBool => assert c.BoolV?;
    case TFloat32 => assert c.F64?;
    case TFloat64 => assert c.F64?;
    case TTime => assert c.TimeV?;
    case TDecimal => assert c.DecimalV?;
    case TIP => assert c.IPV?;
  }

  lemma {:induction false} BuildSliceSound(lib: GoLib, val: Val, t: Type)
    requires t.TSlice? && Target(t)
    ensures Full(BuildSlice(lib, val, t), t)
    decreases t, 1
  {
    var src := SliceInput(lib, val);
    if src.Some? { BuildItemsSound(lib, src.value, t); }
  }

  lemma {:induction false} BuildMapSound(lib: GoLib, val: Val, t: Type)
    requires t.TMap? && Target(t)
    ensures Full(BuildMap(lib, val, t), t)
    decreases t, 1
  {
    var src := MapInput(lib, val);
    if src.Some? { BuildEntriesSound(lib, src.value, t); }
  }

  lemma {:induction false} BuildItemsSound(lib: GoLib, src: seq<Val>, t: Type)
    requires t.TSlice? && Target(t)
    ensures var items := BuildItems(lib, src, t);
            |items| == |src|
            && forall i :: 0 <= i < |src| ==>
                 Full(items[i], t.elem) && ConvertElem(lib, src[i], t.elem) == Some(items[i])
    decreases t, 0, |src|
  {
    if src != [] {
      var before := src[..|src| - 1];
      BuildItemsSound(lib, before, t);
      ConvertElemSound(lib, src[|src| - 1], t.elem);
      var e := ConvertElem(lib, src[|src| - 1], t.elem).value;
      assert BuildItems(lib, src, t) == BuildItems(lib, before, t) + [e];
      forall i | 0 <= i < |src|
        ensures var items := BuildItems(lib, src, t);
          Full(items[i], t.elem) && ConvertElem(lib, src[i], t.elem) == Some(items[i])
      {
        if i < |src| - 1 { assert before[i] == src[i]; }
      }
    }
  }

  lemma {:induction false} BuildEntriesSound(lib: GoLib, src: seq<(Val, Val)>, t: Type)
    requires t.TMap? && Target(t)
    ensures var es := BuildEntries(lib, src, t);
            DistinctKeys(es) && forall i :: 0 <= i < |es| ==> Full(es[i].0, t.key) && Full(es[i].1, t.elem)
    decreases t, 0, |src|
  {
    if src != [] {
      var last := src[|src| - 1];
      var done := BuildEntries(lib, src[..|src| - 1], t);
      BuildEntriesSound(lib, src[..|src| - 1], t);
      ConvertElemSound(lib, last.0, t.key);
      ConvertElemSound(lib, last.1, t.elem);
      SetIndexEntries(done, ConvertElem(lib, last.0, t.key).value, ConvertElem(lib, last.1, t.elem).value);
    }
  }

  predicate HasKey(es: seq<(Val, Val)>, k: Val) {
    exists i :: 0 <= i < |es| && es[i].0 == k
  }

  lemma KeyOfCons(e: (Val, Val), es: seq<(Val, Val)>, x: Val)
    ensures HasKey([e] + es, x) <==> x == e.0 || HasKey(es, x)
  {
    var r := [e] + es;
    if x == e.0 { assert r[0].0 == x; }
    if HasKey(es, x) {
      var i :| 0 <= i < |es| && es[i].0 == x;
      assert r[i + 1].0 == x;
    }
  }

  lemma {:induction false} SetIndexKeys(es: seq<(Val, Val)>, k: Val, v: Val, x: Val)
    ensures HasKey(SetIndex(es, k, v), x) <==> x == k || HasKey(es, x)
  {
    if es == [] {
      KeyOfCons((k, v), [], x);
    } else {
      assert es == [es[0]] + es[1..];
      KeyOfCons(es[0], es[1..], x);
      KeyOfCons((k, v), es[1..], x);
      KeyOfCons(es[0], SetIndex(es[1..], k, v), x);
      SetIndexKeys(es[1..], k, v, x);
    }
  }

  lemma DistinctCons(e: (Val, Val), es: seq<(Val, Val)>)
    ensures DistinctKeys([e] + es) <==> DistinctKeys(es) && !HasKey(es, e.0)
  {
    var r := [e] + es;
    assert forall i :: 0 <= i < |es| ==> r[i + 1] == es[i];
    if DistinctKeys(r) {
      forall i, j | 0 <= i < j < |es| ensures es[i].0 != es[j].0 { assert r[i + 1].0 != r[j + 1].0; }
      forall i | 0 <= i < |es| ensures es[i].0 != e.0 { assert r[0].0 != r[i + 1].0; }
    }
  }

  // Setting a key keeps the keys different and adds nothing but its own entry,
  // at the end when the key is new.
  lemma {:induction false} SetIndexEntries(es: seq<(Val, Val)>, k: Val, v: Val)
    requires DistinctKeys(es)
    ensures var r := SetIndex(es, k, v);
            DistinctKeys(r)
            && (forall i :: 0 <= i < |r| ==> r[i] == (k, v) || r[i] in es)
            && (HasKey(es, k) ==> |r| == |es|)
            && (!HasKey(es, k) ==> r == es + [(k, v)])
  {
    if es != [] {
      assert es == [es[0]] + es[1..];
      KeyOfCons(es[0], es[1..], k);
      DistinctCons(es[0], es[1..]);
      if es[0].0 == k {
        DistinctCons((k, v), es[1..]);
      } else {
        var s := SetIndex(es[1..], k, v);
        SetIndexEntries(es[1..], k, v);
        SetIndexKeys(es[1..], k, v, es[0].0);
        DistinctCons(es[0], s);
      }
    }
  }

  // The converted value, for targets that always have one.
  function Converted(lib: GoLib, val: Val, t: Type): (r: Val)
    requires Target(t)
    ensures Full(r, t) && HasType(r, t)
  {
    ConvertElemSound(lib, val, t);
    FullIsTyped(ConvertElem(lib, val, t).value, t);
    ConvertElem(lib, val, t).value
  }

  // ----- Shape of converted containers --------------------------------------

  // A slice keeps its length, and index i holds the conversion of element i.
  lemma SliceShape(lib: GoLib, val: Val, t: Type)
    requires t.TSlice? && Target(t) && SliceInput(lib, val).Some?
    ensures var src, r := SliceInput(lib, val).value, Converted(lib, val, t);
            |r.items| == |src| && forall i :: 0 <= i < |src| ==> r.items[i] == Converted(lib, src[i], t.elem)
  {
    var src := SliceInput(lib, val).value;
    BuildItemsSound(lib, src, t);
    assert ConvertElem(lib, val, t) == Some(SliceV(t.elem, false, BuildItems(lib, src, t)));
  }

  lemma NilConvertsToZero(lib: GoLib, e: Type)
    requires e.TString? || e.TInt? || e.TBool? || e.TFloat64?
    ensures Converted(lib, Nil, e) == Zero(e)
  {
    if e.TInt? { WrapInRange(e.kind, 0); }
  }

  // A nil becomes a pointer to what a nil converts to, never a nil pointer: for
  // strings, numbers and booleans a pointer to zero.
  lemma NilBehindPointer(lib: GoLib, e: Type)
    requires Target(e)
    ensures Converted(lib, Nil, TPtr(e)) == PtrV(e, Some(Converted(lib, Nil, e)))
    ensures e.TString? || e.TInt? || e.TBool? || e.TFloat64? ==> Converted(lib, Nil, e) == Zero(e)
  {
    ConvertElemSound(lib, Nil, e);
    if e.TString? || e.TInt? || e.TBool? || e.TFloat64? { NilConvertsToZero(lib, e); }
  }

  // So does a nil element of a container column with Nullable elements.
  lemma NilElementIsNotNull(lib: GoLib, items: seq<Val>, i: nat, t: Type, e: Type)
    requires t == TSlice(TPtr(e)) && Target(t) && Target(e) && i < |items| && items[i] == Nil
    ensures var r := Converted(lib, SliceV(TAny, false, items), t);
            |r.items| == |items| && r.items[i] == PtrV(e, Some(Converted(lib, Nil, e)))
  {
    SliceShape(lib, SliceV(TAny, false, items), t);
    NilBehindPointer(lib, e);
  }

  function Lookup(es: seq<(Val, Val)>, k: Val): Option<Val> {
    if es == [] then None
    else if es[0].0 == k then Some(es[0].1)
    else Lookup(es[1..], k)
  }

  lemma {:induction false} LookupOfSetIndex(es: seq<(Val, Val)>, k: Val, v: Val, x: Val)
    ensures Lookup(SetIndex(es, k, v), x) == if x == k then Some(v) else Lookup(es, x)
  {
    if es != [] {
      LookupOfSetIndex(es[1..], k, v, x);
      assert ([(k, v)] + es[1..])[1..] == es[1..];
      assert ([es[0]] + SetIndex(es[1..], k, v))[1..] == SetIndex(es[1..], k, v);
    }
  }

  // Setting every pair in turn in an empty map.
  function InsertAll(ps: seq<(Val, Val)>): seq<(Val, Val)> {
    if ps == [] then []
    else SetIndex(InsertAll(ps[..|ps| - 1]), ps[|ps| - 1].0, ps[|ps| - 1].1)
  }

  // The converted source entries, one by one.
  function Pairs(lib: GoLib, src: seq<(Val, Val)>, t: Type): (ps: seq<(Val, Val)>)
    requires t.TMap? && Target(t)
    ensures |ps| == |src|
    ensures forall i :: 0 <= i < |src| ==>
              ps[i] == (Converted(lib, src[i].0, t.key), Converted(lib, src[i].1, t.elem))
  {
    seq(|src|, i requires 0 <= i < |src| =>
      (Converted(lib, src[i].0, t.key), Converted(lib, src[i].1, t.elem)))
  }

  lemma {:induction false} BuildEntriesInserts(lib: GoLib, src: seq<(Val, Val)>, t: Type)
    requires t.TMap? && Target(t)
    ensures BuildEntries(lib, src, t) == InsertAll(Pairs(lib, src, t))
  {
    if src != [] {
      var n := |src| - 1;
      BuildEntriesInserts(lib, src[..n], t);
      assert Pairs(lib, src, t)[..n] == Pairs(lib, src[..n], t);
      ConvertElemSound(lib, src[n].0, t.key);
      ConvertElemSound(lib, src[n].1, t.elem);
    }
  }

  lemma {:induction false} InsertAllLookup(ps: seq<(Val, Val)>, k: Val, j: int)
    requires -1 <= j < |ps| && (j >= 0 ==> ps[j].0 == k)
    requires forall l :: j < l < |ps| ==> ps[l].0 != k
    ensures Lookup(InsertAll(ps), k) == if j < 0 then None else Some(ps[j].1)
  {
    if ps != [] {
      var n := |ps| - 1;
      LookupOfSetIndex(InsertAll(ps[..n]), ps[n].0, ps[n].1, k);
      if j < n {
        InsertAllLookup(ps[..n], k, j);
      }
    }
  }

  lemma {:induction false} LastWith(ps: seq<(Val, Val)>, k: Val) returns (j: int)
    ensures -1 <= j < |ps| && (j >= 0 ==> ps[j].0 == k)
    ensures forall l :: j < l < |ps| ==> ps[l].0 != k
  {
    j := |ps| - 1;
    while j >= 0 && ps[j].0 != k
      invariant -1 <= j < |ps|
      invariant forall l :: j < l < |ps| ==> ps[l].0 != k
    {
      j := j - 1;
    }
  }

  lemma InsertAllShape(ps: seq<(Val, Val)>, k: Val)
    ensures Lookup(InsertAll(ps), k).Some? <==> exists i :: 0 <= i < |ps| && ps[i].0 == k
    ensures forall j :: 0 <= j < |ps| && ps[j].0 == k && (forall l :: j < l < |ps| ==> ps[l].0 != k)
              ==> Lookup(InsertAll(ps), k) == Some(ps[j].1)
  {
    var last := LastWith(ps, k);
    InsertAllLookup(ps, k, last);
  }

  lemma MapIsInsertAll(lib: GoLib, val: Val, t: Type)
    requires t.TMap? && Target(t) && MapInput(lib, val).Some?
    ensures Converted(lib, val, t) == MapV(t.key, t.elem, false, InsertAll(Pairs(lib, MapInput(lib, val).value, t)))
  {
    var src := MapInput(lib, val).value;
    BuildEntriesInserts(lib, src, t);
    assert ConvertElem(lib, val, t) == Some(MapV(t.key, t.elem, false, BuildEntries(lib, src, t)));
  }

  // A converted map has a key exactly when some source key converts to it, and
  // the key then holds the conversion of the value last seen with such a key.
  lemma MapShape(lib: GoLib, src: seq<(Val, Val)>, val: Val, t: Type, k: Val)
    requires t.TMap? && Target(t) && MapInput(lib, val) == Some(src)
    ensures Lookup(Converted(lib, val, t).entries, k).Some?
       <==> exists i :: 0 <= i < |src| && Converted(lib, src[i].0, t.key) == k
    ensures forall j :: 0 <= j < |src| && Converted(lib, src[j].0, t.key) == k
              && (forall l :: j < l < |src| ==> Converted(lib, src[l].0, t.key) != k)
              ==> Lookup(Converted(lib, val, t).entries, k) == Some(Converted(lib, src[j].1, t.elem))
  {
    MapIsInsertAll(lib, val, t);
    InsertAllShape(Pairs(lib, src, t), k);
  }

  // When no two pairs share a key, inserting them all keeps the list; and a map
  // as long as the list was built that way.
  lemma {:induction false} InsertAllPointwise(ps: seq<(Val, Val)>)
    ensures DistinctKeys(InsertAll(ps)) && |InsertAll(ps)| <= |ps|
    ensures DistinctKeys(ps) ==> InsertAll(ps) == ps
    ensures |InsertAll(ps)| == |ps| ==> InsertAll(ps) == ps
  {
    if ps != [] {
      var n := |ps| - 1;
      var done := InsertAll(ps[..n]);
      InsertAllPointwise(ps[..n]);
      SetIndexEntries(done, ps[n].0, ps[n].1);
      assert ps == ps[..n] + [ps[n]];
    }
  }
}
