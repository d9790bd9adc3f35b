// Which values of the target type container conversion returns unchanged, when
// converting twice is converting once, and the two integer paths.
module ConverterIdentity {
  import opened Common
  import opened Strconv
  import opened GoValues
  import opened Converter
  import opened ConverterProperties

  // Widening a float32 and narrowing it again loses nothing, and zero is zero.
  ghost predicate Ieee(lib: GoLib) {
    lib.narrow(0) == 0 && forall f :: lib.narrow(lib.widen(f)) == f
  }

  // ----- The values conversion leaves alone ---------------------------------

  // What a scalar converter answers for an input it does not know.
  function Default(lib: GoLib, t: Type): Val
    requires IsScalar(t)
  {
    CoerceTo(lib, ScalarConvert(lib, Nil, t), t)
  }

  // v, sitting below `depth` pointers of the value being converted, comes back
  // unchanged. The converters look through one pointer to a scalar, through none
  // to an address or an opaque value, and through any number to a container.
  predicate Kept(lib: GoLib, v: Val, t: Type, depth: nat)
    requires HasType(v, t)
    decreases t
  {
    match t
    case TPtr(e) => v.pointee.Some? && Kept(lib, v.pointee.value, e, depth + 1)
    case TSlice(e) => !v.isNil && forall i :: 0 <= i < |v.items| ==> Kept(lib, v.items[i], e, 0)
    case TMap(k, e) => !v.isNil && forall i :: 0 <= i < |v.entries| ==>
        Kept(lib, v.entries[i].0, k, 0) && Kept(lib, v.entries[i].1, e, 0)
    case TIP => if depth == 0 then v.octets != [] else v == Default(lib, t)
    case TInt(_) => if depth <= 1 then v.n.i <= MAX_INT64 else v == Default(lib, t)
    case TOther(_) => depth == 0 || v == Zero(t)
    case _ => depth <= 1 || v == Default(lib, t)
  }

  // v under d more pointers.
  function Under(v: Val, t: Type, d: nat): Val
    decreases d
  {
    if d == 0 then v else Under(PtrV(t, Some(v)), TPtr(t), d - 1)
  }

  lemma {:induction false} UnderIsPointer(v: Val, t: Type, d: nat)
    requires d > 0
    ensures Under(v, t, d).PtrV? && Deref(Under(v, t, d)) == Deref(PtrV(t, Some(v)))
    ensures d > 1 || v.PtrV? ==> Operand(Under(v, t, d)).Nil?
    decreases d
  {
    if d > 1 {
      UnderIsPointer(PtrV(t, Some(v)), TPtr(t), d - 1);
    }
  }

  lemma ScalarKept(lib: GoLib, v: Val, t: Type, depth: nat)
    requires Ieee(lib) && IsScalar(t) && HasType(v, t)
    ensures ConvertElem(lib, Under(v, t, depth), t) == Some(v) <==> Kept(lib, v, t, depth)
  {
    var u := Under(v, t, depth);
    LeafSound(lib, u, t);
    if depth > 1 || (depth == 1 && t.TIP?) {
      UnderIsPointer(v, t, depth);
      assert ScalarConvert(lib, u, t) == ScalarConvert(lib, Nil, t);
    } else {
      ShallowScalarKept(lib, v, t, depth);
    }
  }

  lemma ShallowScalarKept(lib: GoLib, v: Val, t: Type, depth: nat)
    requires Ieee(lib) && IsScalar(t) && HasType(v, t) && depth <= 1 && (t.TIP? ==> depth == 0)
    ensures CoerceTo(lib, ScalarConvert(lib, Under(v, t, depth), t), t) == v <==> Kept(lib, v, t, depth)
  {
    TypeOfTyped(v, t);
    assert !t.TIP? ==> Operand(Under(v, t, depth)) == v;
    if t.TInt? { WrapOfSaturated(t.kind, v.n); }
  }

  lemma WrapOfSaturated(k: IntKind, n: GoInt)
    ensures WrapTo(k, Saturate(n.i)) == n.i <==> InRange(k, n.i) && n.i <= MAX_INT64
    ensures !(n.kind == Uint64 || n.kind == Uint) ==> Saturate(n.i) == n.i
  {
    if InRange(k, n.i) && n.i <= MAX_INT64 {
      WrapInRange(k, n.i);
    } else if n.i > MAX_INT64 && InRange(k, n.i) {
      WrapInRange(k, MAX_INT64);
    }
  }

  lemma {:induction false} KeptUnder(lib: GoLib, v: Val, t: Type, depth: nat)
    requires Ieee(lib) && Target(t) && HasType(v, t)
    ensures ConvertElem(lib, Under(v, t, depth), t) == Some(v) <==> Kept(lib, v, t, depth)
    decreases t
  {
    match t
    case TPtr(e) =>
      ConvertElemSound(lib, Under(v, t, depth), e);
      if v.pointee.Some? {
        KeptUnder(lib, v.pointee.value, e, depth + 1);
      }
    case TSlice(_) => SliceKept(lib, v, t, depth);
    case TMap(_, _) => MapKept(lib, v, t, depth);
    case TOther(_) =>
      TypeOfTyped(v, t);
      if depth > 0 { UnderIsPointer(v, t, depth); }
    case _ => ScalarKept(lib, v, t, depth);
  }

  lemma {:induction false} SliceKept(lib: GoLib, v: Val, t: Type, depth: nat)
    requires Ieee(lib) && Target(t) && HasType(v, t) && t.TSlice?
    ensures ConvertElem(lib, Under(v, t, depth), t) == Some(v) <==> Kept(lib, v, t, depth)
    decreases t, 0
  {
    var u := Under(v, t, depth);
    ContainerInput(lib, v, t, depth);
    SliceShape(lib, u, t);
    var w := Converted(lib, u, t);
    forall i | 0 <= i < |v.items|
      ensures w.items[i] == v.items[i] <==> Kept(lib, v.items[i], t.elem, 0)
    {
      KeptUnder(lib, v.items[i], t.elem, 0);
    }
    if Kept(lib, v, t, depth) {
      assert w.items == v.items;
    }
    assert w == SliceV(t.elem, false, w.items);
    assert v == SliceV(t.elem, v.isNil, v.items);
  }

  lemma ContainerInput(lib: GoLib, v: Val, t: Type, depth: nat)
    requires HasType(v, t) && (t.TSlice? || t.TMap?)
    ensures t.TSlice? ==> SliceInput(lib, Under(v, t, depth)) == Some(v.items)
    ensures t.TMap? ==> MapInput(lib, Under(v, t, depth)) == Some(v.entries)
  {
    if depth > 0 { UnderIsPointer(v, t, depth); }
  }

  lemma {:induction false} PairsKept(lib: GoLib, v: Val, t: Type)
    requires Ieee(lib) && Target(t) && HasType(v, t) && t.TMap?
    ensures Pairs(lib, v.entries, t) == v.entries <==>
      forall i :: 0 <= i < |v.entries| ==>
        Kept(lib, v.entries[i].0, t.key, 0) && Kept(lib, v.entries[i].1, t.elem, 0)
    decreases t, 0
  {
    var ps := Pairs(lib, v.entries, t);
    forall i | 0 <= i < |v.entries|
      ensures ps[i] == v.entries[i] <==>
        Kept(lib, v.entries[i].0, t.key, 0) && Kept(lib, v.entries[i].1, t.elem, 0)
    {
      KeptUnder(lib, v.entries[i].0, t.key, 0);
      KeptUnder(lib, v.entries[i].1, t.elem, 0);
    }
  }

  lemma {:induction false} MapKept(lib: GoLib, v: Val, t: Type, depth: nat)
    requires Ieee(lib) && Target(t) && HasType(v, t) && t.TMap?
    ensures ConvertElem(lib, Under(v, t, depth), t) == Some(v) <==> Kept(lib, v, t, depth)
    decreases t, 1
  {
    var u := Under(v, t, depth);
    ContainerInput(lib, v, t, depth);
    MapIsInsertAll(lib, u, t);
    InsertAllPointwise(Pairs(lib, v.entries, t));
    PairsKept(lib, v, t);
    assert v == MapV(t.key, t.elem, v.isNil, v.entries);
  }

  lemma DistinctMap(lib: GoLib, v: Val, t: Type)
    requires v.MapV? && t.TMap? && Target(t)
    requires DistinctKeys(Pairs(lib, v.entries, t))
    ensures Converted(lib, v, t) == MapV(t.key, t.elem, false, Pairs(lib, v.entries, t))
  {
    PlainMapInput(lib, v);
    MapIsInsertAll(lib, v, t);
    InsertAllPointwise(Pairs(lib, v.entries, t));
  }

  lemma PlainMapInput(lib: GoLib, v: Val)
    requires v.MapV?
    ensures MapInput(lib, v) == Some(v.entries)
  {
  }

  // Converting a value that already has the target type returns it unchanged
  // exactly when it is Kept: no nil inside, no unsigned number above 2^63-1, no
  // empty address, and no scalar behind two pointers, address or opaque value
  // behind one.
  lemma ConvertElemIdentity(lib: GoLib, v: Val, t: Type)
    requires Ieee(lib) && Target(t) && HasType(v, t)
    ensures ConvertElem(lib, v, t) == Some(v) <==> Kept(lib, v, t, 0)
  {
    KeptUnder(lib, v, t, 0);
  }

  // ----- Converting twice ----------------------------------------------------

  // Target types whose conversions are all Kept.
  predicate Stable(t: Type, depth: nat)
    decreases t
  {
    match t
    case TPtr(e) => Stable(e, depth + 1)
    case TSlice(e) => Stable(e, 0)
    case TMap(k, e) => Stable(k, 0) && Stable(e, 0)
    case TIP => depth == 0
    case TInt(k) => depth <= 1 && k != Uint64 && k != Uint
    case TOther(_) => depth == 0
    case _ => depth <= 1
  }

  lemma {:induction false} StableIsKept(lib: GoLib, v: Val, t: Type, depth: nat)
    requires Full(v, t) && HasType(v, t) && Stable(t, depth)
    ensures Kept(lib, v, t, depth)
    decreases t
  {
    match t
    case TPtr(e) => StableIsKept(lib, v.pointee.value, e, depth + 1);
    case TSlice(e) =>
      forall i | 0 <= i < |v.items| ensures Kept(lib, v.items[i], e, 0) {
        StableIsKept(lib, v.items[i], e, 0);
      }
    case TMap(k, e) =>
      forall i | 0 <= i < |v.entries|
        ensures Kept(lib, v.entries[i].0, k, 0) && Kept(lib, v.entries[i].1, e, 0)
      {
        StableIsKept(lib, v.entries[i].0, k, 0);
        StableIsKept(lib, v.entries[i].1, e, 0);
      }
    case _ =>
  }

  // A second conversion changes nothing.
  predicate SameTwice(lib: GoLib, val: Val, t: Type)
    requires Target(t)
  {
    Converted(lib, Converted(lib, val, t), t) == Converted(lib, val, t)
  }

  lemma TwiceIsKept(lib: GoLib, val: Val, t: Type)
    requires Ieee(lib) && Target(t)
    ensures SameTwice(lib, val, t) <==> Kept(lib, Converted(lib, val, t), t, 0)
  {
    var w := Converted(lib, val, t);
    ConvertElemIdentity(lib, w, t);
    ConvertElemSound(lib, w, t);
  }

  // A value of a scalar type that conversion gives for some input, but not for
  // an input it does not know; of an unsigned 64-bit type, one above 2^63-1.
  function Odd(lib: GoLib, t: Type, depth: nat): Val
    requires IsScalar(t)
  {
    match t
    case TString => Str("x")
    case TInt(_) => IntV(GoInt(Int64, if depth > 1 then 1 else -1))
    case TBool => BoolV(true)
    case TFloat32 => F32(1)
    case TFloat64 => F64(1)
    case TTime => TimeV(lib.toTime(Nil) + 1)
    case TDecimal => DecimalV(lib.toDecimal(Nil) + 1)
    case TIP => IPV([1])
  }

  lemma UnstableInt(lib: GoLib, t: Type, depth: nat)
    requires t.TInt? && !Stable(t, depth)
    ensures !Kept(lib, Converted(lib, Odd(lib, t, depth), t), t, depth)
  {
    var n := if depth > 1 then 1 else -1;
    assert IntConvert(lib, IntV(GoInt(Int64, n))) == IntV(GoInt(Int64, n));
    if depth > 1 {
      WrapInRange(t.kind, 1);
      WrapInRange(t.kind, 0);
      assert Default(lib, t) == IntV(GoInt(t.kind, 0));
    }
  }

  lemma UnstableScalar(lib: GoLib, t: Type, depth: nat)
    requires Ieee(lib) && IsScalar(t) && !Stable(t, depth)
    ensures !Kept(lib, Converted(lib, Odd(lib, t, depth), t), t, depth)
  {
    var v := Odd(lib, t, depth);
    LeafSound(lib, v, t);
    if t.TInt? {
      UnstableInt(lib, t, depth);
    } else {
      assert ScalarConvert(lib, v, t) == if t.TFloat32? then F64(lib.widen(1)) else v;
    }
  }

  lemma UnstableSlice(lib: GoLib, t: Type, x: Val)
    requires t.TSlice? && Target(t) && !Kept(lib, Converted(lib, x, t.elem), t.elem, 0)
    ensures forall depth :: !Kept(lib, Converted(lib, SliceV(TAny, false, [x]), t), t, depth)
  {
    var v := SliceV(TAny, false, [x]);
    SliceShape(lib, v, t);
    assert Converted(lib, v, t).items[0] == Converted(lib, x, t.elem);
  }

  lemma UnstableMap(lib: GoLib, t: Type, x: Val, y: Val, depth: nat)
    requires t.TMap? && Target(t)
    requires !Kept(lib, Converted(lib, x, t.key), t.key, 0) || !Kept(lib, Converted(lib, y, t.elem), t.elem, 0)
    ensures !Kept(lib, Converted(lib, MapV(TAny, TAny, false, [(x, y)]), t), t, depth)
  {
    var r := Converted(lib, MapV(TAny, TAny, false, [(x, y)]), t);
    DistinctMap(lib, MapV(TAny, TAny, false, [(x, y)]), t);
    assert r.entries[0] == (Converted(lib, x, t.key), Converted(lib, y, t.elem));
  }

  // An unstable type has an input whose conversion is not Kept.
  lemma {:induction false} UnstableInput(lib: GoLib, t: Type, depth: nat) returns (v: Val)
    requires Ieee(lib) && Target(t) && !Stable(t, depth)
    ensures !Kept(lib, Converted(lib, v, t), t, depth)
    decreases t
  {
    if t.TPtr? {
      v := UnstableInput(lib, t.elem, depth + 1);
      assert Converted(lib, v, t) == PtrV(t.elem, Some(Converted(lib, v, t.elem)));
    } else if t.TSlice? {
      var x := UnstableInput(lib, t.elem, 0);
      v := SliceV(TAny, false, [x]);
      UnstableSlice(lib, t, x);
    } else if t.TMap? {
      var x, y := Nil, Nil;
      if !Stable(t.key, 0) {
        x := UnstableInput(lib, t.key, 0);
      } else {
        y := UnstableInput(lib, t.elem, 0);
      }
      v := MapV(TAny, TAny, false, [(x, y)]);
      UnstableMap(lib, t, x, y, depth);
    } else if t.TOther? {
      v := Other(t.name, 1);
    } else {
      v := Odd(lib, t, depth);
      UnstableScalar(lib, t, depth);
    }
  }

  // Converting twice is converting once, for every input, if and only if the
  // target has no 64-bit unsigned integer, no scalar behind two pointers, and no
  // address or opaque value behind one.
  lemma ConvertTwice(lib: GoLib, t: Type)
    requires Ieee(lib) && Target(t)
    ensures (forall val :: SameTwice(lib, val, t)) <==> Stable(t, 0)
  {
    if Stable(t, 0) {
      forall val ensures SameTwice(lib, val, t) {
        StableIsKept(lib, Converted(lib, val, t), t, 0);
        TwiceIsKept(lib, val, t);
      }
    } else {
      var val := UnstableInput(lib, t, 0);
      TwiceIsKept(lib, val, t);
    }
  }

  // Two instances. An int64 -1 turns into 2^64-1 as a uint64, which a second
  // conversion cuts at 2^63-1.
  lemma ConvertTwiceCutsUnsigned(lib: GoLib)
    ensures var t := TInt(Uint64); var w := Converted(lib, IntV(GoInt(Int64, -1)), t);
            w == IntV(GoInt(Uint64, 0xFFFF_FFFF_FFFF_FFFF)) && Converted(lib, w, t) == IntV(GoInt(Uint64, MAX_INT64))
  {
  }

  // And a string below two pointers is emptied by the second conversion.
  lemma ConvertTwiceEmptiesDoublePointer(lib: GoLib, s: string)
    ensures Converted(lib, Str(s), TPtr(TPtr(TString))) == Under(Str(s), TString, 2)
    ensures Converted(lib, Under(Str(s), TString, 2), TPtr(TPtr(TString))) == Under(Str(""), TString, 2)
  {
    UnderIsPointer(Str(s), TString, 2);
    assert Under(Str(s), TString, 2) == PtrV(TPtr(TString), Some(PtrV(TString, Some(Str(s)))));
    assert Under(Str(""), TString, 2) == PtrV(TPtr(TString), Some(PtrV(TString, Some(Str("")))));
  }

  // ----- Integers ------------------------------------------------------------

  // An integer of any Go type becomes the N-bit target's residue of its value
  // cut at 2^63-1, and keeps its value exactly when the target holds it and it
  // is at most 2^63-1.
  lemma IntegerCoercion(lib: GoLib, v: GoInt, k: IntKind)
    ensures ConvertElem(lib, IntV(v), TInt(k)) == Some(IntV(GoInt(k, WrapTo(k, Saturate(v.i)))))
    ensures WrapTo(k, Saturate(v.i)) == v.i
       <==> InRange(k, v.i) && v.i <= MAX_INT64
  {
    WrapOfSaturated(k, v);
    IntConvertSaturates(lib, v);
    if k == Int64 { WrapInRange(k, Saturate(v.i)); }
  }

  lemma IntConvertSaturates(lib: GoLib, v: GoInt)
    ensures InRange(Int64, Saturate(v.i)) && IntConvert(lib, IntV(v)) == IntV(GoInt(Int64, Saturate(v.i)))
  {
    WrapOfSaturated(v.kind, v);
  }

  // Printing an integer and reading it back through the string converter gives
  // its value for the types that converter knows, if it is at most 2^63-1; a
  // larger one, or one of another type, comes back as zero.
  lemma IntThroughString(lib: GoLib, v: GoInt)
    ensures IntConvert(lib, StringConvert(lib, IntV(v)))
         == IntV(GoInt(Int64, if v.kind in COMMON_INTS && v.i <= MAX_INT64 then v.i else 0))
  {
    ParseOfFormat(v.i);
  }

  // Types over the integers that print and parse, nested to any depth.
  predicate Numeric(t: Type) {
    match t
    case TInt(k) => k == Int64 || k == Int || k == Int32
    case TString => true
    case TSlice(e) => Numeric(e)
    case TMap(k, e) => KeyType(k) && Numeric(k) && Numeric(e)
    case _ => false
  }

  // The same nesting with every integer printed.
  function AsText(t: Type): Type {
    match t
    case TInt(_) => TString
    case TSlice(e) => TSlice(AsText(e))
    case TMap(k, e) => TMap(AsText(k), AsText(e))
    case _ => t
  }

  lemma {:induction false} AsTextIsTarget(t: Type)
    requires Numeric(t)
    ensures Target(t) && Target(AsText(t))
  {
    match t
    case TSlice(e) => AsTextIsTarget(e);
    case TMap(k, e) => AsTextIsTarget(e);
    case _ =>
  }

  function Printed(lib: GoLib, v: Val, t: Type): Val
    requires Numeric(t)
  {
    AsTextIsTarget(t);
    Converted(lib, v, AsText(t))
  }

  // Converting to text and back restores every number, key and element.
  lemma {:induction false} TextRoundTrip(lib: GoLib, v: Val, t: Type)
    requires Numeric(t) && Full(v, t)
    ensures Target(t) && Converted(lib, Printed(lib, v, t), t) == v
    decreases t
  {
    AsTextIsTarget(t);
    match t
    case TInt(_) => IntTextRoundTrip(lib, v, t);
    case TSlice(e) => SliceTextRoundTrip(lib, v, t);
    case TMap(k, e) => MapTextRoundTrip(lib, v, t);
    case _ =>
  }

  lemma IntAsText(lib: GoLib, v: Val)
    requires v.IntV? && v.n.kind in COMMON_INTS
    ensures Converted(lib, v, TString) == Str(FormatInt(v.n.i))
  {
    assert StringConvert(lib, v) == Str(FormatInt(v.n.i));
  }

  lemma TextAsInt(lib: GoLib, i: int, k: IntKind)
    requires InRange(Int64, i) && InRange(k, i)
    ensures Converted(lib, Str(FormatInt(i)), TInt(k)) == IntV(GoInt(k, i))
  {
    ParseOfFormat(i);
    WrapInRange(k, i);
    assert IntConvert(lib, Str(FormatInt(i))) == IntV(GoInt(Int64, i));
  }

  lemma IntTextRoundTrip(lib: GoLib, v: Val, t: Type)
    requires Numeric(t) && t.TInt? && HasType(v, t)
    ensures Converted(lib, Converted(lib, v, TString), t) == v
  {
    IntAsText(lib, v);
    TextAsInt(lib, v.n.i, t.kind);
  }

  lemma {:induction false} SliceTextRoundTrip(lib: GoLib, v: Val, t: Type)
    requires Numeric(t) && Full(v, t) && t.TSlice?
    ensures Target(t) && Converted(lib, Printed(lib, v, t), t) == v
    decreases t, 0
  {
    AsTextIsTarget(t);
    var p := Printed(lib, v, t);
    SliceShape(lib, v, AsText(t));
    SliceShape(lib, p, t);
    var w := Converted(lib, p, t);
    forall i | 0 <= i < |v.items| ensures w.items[i] == v.items[i] {
      TextRoundTrip(lib, v.items[i], t.elem);
    }
    assert w.items == v.items;
  }

  lemma {:induction false} EntriesTextRoundTrip(lib: GoLib, v: Val, t: Type)
    requires Numeric(t) && Full(v, t) && t.TMap?
    ensures Target(t) && Target(AsText(t))
    ensures var there := Pairs(lib, v.entries, AsText(t));
            DistinctKeys(there) && Pairs(lib, there, t) == v.entries
    decreases t, 0
  {
    AsTextIsTarget(t);
    AsTextIsTarget(t.key);
    var there := Pairs(lib, v.entries, AsText(t));
    forall i | 0 <= i < |v.entries|
      ensures Converted(lib, there[i].0, t.key) == v.entries[i].0
      ensures Converted(lib, there[i].1, t.elem) == v.entries[i].1
    {
      TextRoundTrip(lib, v.entries[i].0, t.key);
      TextRoundTrip(lib, v.entries[i].1, t.elem);
    }
  }

  lemma MapTextRoundTrip(lib: GoLib, v: Val, t: Type)
    requires Numeric(t) && Full(v, t) && t.TMap?
    ensures Target(t) && Converted(lib, Printed(lib, v, t), t) == v
    decreases t, 1
  {
    EntriesTextRoundTrip(lib, v, t);
    var there := Pairs(lib, v.entries, AsText(t));
    DistinctMap(lib, v, AsText(t));
    DistinctMap(lib, MapV(AsText(t.key), AsText(t.elem), false, there), t);
  }
}
