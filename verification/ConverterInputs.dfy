// What the converters make of inputs of another type than the target's: scalars
// across types, JSON texts, bytes, arrays and addresses.
module ConverterInputs {
  import opened Common
  import opened Strconv
  import opened GoValues
  import opened Converter
  import opened ConverterProperties

  // ----- Scalars -------------------------------------------------------------

  // A truth value survives text and integers both ways.
  lemma BoolThroughTextAndInt(lib: GoLib, b: bool)
    ensures BoolConvert(lib, StringConvert(lib, BoolV(b))) == BoolV(b)
    ensures BoolConvert(lib, IntConvert(lib, BoolV(b))) == BoolV(b)
    ensures IntConvert(lib, BoolV(true)) == IntV(GoInt(Int64, 1))
  {
  }

  // A text is true exactly when it is one of three.
  lemma TrueTexts(lib: GoLib, s: string)
    ensures BoolConvert(lib, Str(s)) == BoolV(true) <==> s == "true" || s == "1" || s == "TRUE"
  {
  }

  // An integer of one of the four kinds the converter knows is true unless zero;
  // of another kind it is false.
  lemma TrueIntegers(lib: GoLib, n: GoInt)
    ensures BoolConvert(lib, IntV(n)) == BoolV(true)
       <==> n.i != 0 && (n.kind == Int64 || n.kind == Int || n.kind == Int32 || n.kind == Uint64)
  {
  }

  // Text that holds no printed integer of 64 bits reads as zero.
  lemma TextWithoutInteger(lib: GoLib, s: string)
    ensures ParseInt(s).None? ==> IntConvert(lib, Str(s)) == IntV(GoInt(Int64, 0))
    ensures ParseInt(s).Some? ==> IntConvert(lib, Str(s)) == IntV(GoInt(Int64, ParseInt(s).value))
    ensures IntConvert(lib, JsonNumber(s)) == IntConvert(lib, Str(s))
  {
  }

  // Floats: a single one is widened, an integer of the four kinds and text that
  // parses become their float, and the float of a smaller target is narrowed.
  lemma Floats(lib: GoLib, f: int, n: GoInt, s: string)
    ensures FloatConvert(lib, F32(f)) == F64(lib.widen(f))
    ensures FloatConvert(lib, IntV(n)) == F64(if n.kind in {Int64, Int, Int32, Uint64} then lib.floatOfInt(n.i) else 0)
    ensures lib.parseFloat(s).Some? ==> FloatConvert(lib, Str(s)) == F64(lib.parseFloat(s).value)
    ensures lib.parseFloat(s).None? ==> FloatConvert(lib, Str(s)) == F64(0)
    ensures ConvertElem(lib, F64(f), TFloat32) == Some(F32(lib.narrow(f)))
    ensures ConvertElem(lib, F32(f), TFloat64) == Some(F64(lib.widen(f)))
  {
  }

  // A float becomes an integer by dropping its fraction and keeping the low 64
  // bits, a truth value by being nonzero, and text as the library prints it.
  lemma FloatsElsewhere(lib: GoLib, f: int)
    ensures IntConvert(lib, F64(f)) == IntV(GoInt(Int64, WrapTo(Int64, lib.truncF64(f))))
    ensures IntConvert(lib, F32(f)) == IntV(GoInt(Int64, WrapTo(Int64, lib.truncF32(f))))
    ensures BoolConvert(lib, F64(f)) == BoolV(!lib.f64IsZero(f)) && BoolConvert(lib, F32(f)) == BoolV(!lib.f32IsZero(f))
    ensures StringConvert(lib, F64(f)) == Str(lib.formatF64(f)) && StringConvert(lib, F32(f)) == Str(lib.formatF32(f))
  {
  }

  // Anything but a decimal or a time becomes what the library makes of it.
  lemma DecimalsAndTimes(lib: GoLib, v: Val)
    requires v.Str? || v.IntV? || v.F64? || v.F32? || v.JsonNumber?
    ensures DecimalConvert(lib, v) == DecimalV(lib.toDecimal(v)) && DateTimeConvert(lib, v) == TimeV(lib.toTime(v))
  {
  }

  // An address in text or bytes is what the library reads, and :: when it reads
  // none; a pointer to an address is none.
  lemma Addresses(lib: GoLib, v: Val)
    requires v.Str? || v.SliceV? || v.PtrV?
    ensures IPConvert(lib, v) == IPV(if v.PtrV? || lib.toIP(v) == [] then ZERO_IP else lib.toIP(v))
  {
  }

  // A scalar converter looks through one pointer, and a second one hides the
  // value from it.
  lemma OnePointer(lib: GoLib, t: Type, e: Type, v: Val)
    requires IsScalar(t) && !t.TIP? && TypeOf(v) == e && !v.PtrV? && !v.JsonNumber? && !v.Nil?
    ensures ScalarConvert(lib, PtrV(e, Some(v)), t) == ScalarConvert(lib, v, t)
    ensures ScalarConvert(lib, PtrV(TPtr(e), Some(PtrV(e, Some(v)))), t) == ScalarConvert(lib, Nil, t)
  {
  }

  // ----- Containers ----------------------------------------------------------

  lemma EmptyMapInput(lib: GoLib, v: Val, t: Type)
    requires t.TMap? && Target(t) && MapInput(lib, v).None?
    ensures Converted(lib, v, t) == MapV(t.key, t.elem, false, [])
  {
    assert ConvertElem(lib, v, t) == Some(BuildMap(lib, v, t));
  }

  lemma EmptySliceInput(lib: GoLib, v: Val, t: Type)
    requires t.TSlice? && Target(t) && SliceInput(lib, v).None?
    ensures Converted(lib, v, t) == SliceV(t.elem, false, [])
  {
    assert ConvertElem(lib, v, t) == Some(BuildSlice(lib, v, t));
  }

  lemma SameMapInput(lib: GoLib, v: Val, w: Val, t: Type)
    requires t.TMap? && Target(t) && MapInput(lib, v) == MapInput(lib, w)
    ensures Converted(lib, v, t) == Converted(lib, w, t)
  {
    assert ConvertElem(lib, v, t) == Some(BuildMap(lib, v, t)) && ConvertElem(lib, w, t) == Some(BuildMap(lib, w, t));
    assert BuildMap(lib, v, t) == BuildMap(lib, w, t);
  }

  lemma SameSliceInput(lib: GoLib, v: Val, w: Val, t: Type)
    requires t.TSlice? && Target(t) && SliceInput(lib, v) == SliceInput(lib, w)
    ensures Converted(lib, v, t) == Converted(lib, w, t)
  {
    assert ConvertElem(lib, v, t) == Some(BuildSlice(lib, v, t))
        && ConvertElem(lib, w, t) == Some(BuildSlice(lib, w, t));
    assert BuildSlice(lib, v, t) == BuildSlice(lib, w, t);
  }

  // A JSON object, as text or as bytes, converts as the map it decodes to; empty
  // text, no bytes and anything that is no object become an empty map.
  lemma JsonMap(lib: GoLib, v: Val, t: Type)
    requires t.TMap? && Target(t) && (v.Str? || (v.SliceV? && v.elem == TInt(Uint8)))
    ensures var empty := v == Str("") || (v.SliceV? && v.items == []);
            if !empty && lib.decodeJson(v).MapV?
            then Converted(lib, v, t) == Converted(lib, lib.decodeJson(v), t)
            else Converted(lib, v, t) == MapV(t.key, t.elem, false, [])
  {
    assert MapInput(lib, v) == DecodeMap(lib, v);
    if MapInput(lib, v).None? {
      EmptyMapInput(lib, v, t);
    } else {
      SameMapInput(lib, v, lib.decodeJson(v), t);
    }
  }

  // A JSON array given as text converts as the slice it decodes to.
  lemma JsonSlice(lib: GoLib, s: string, t: Type)
    requires t.TSlice? && Target(t)
    ensures if s != "" && lib.decodeJson(Str(s)).SliceV?
            then Converted(lib, Str(s), t) == Converted(lib, lib.decodeJson(Str(s)), t)
            else Converted(lib, Str(s), t) == SliceV(t.elem, false, [])
  {
    assert SliceInput(lib, Str(s)) == DecodeSlice(lib, Str(s));
    if SliceInput(lib, Str(s)).None? {
      EmptySliceInput(lib, Str(s), t);
    } else {
      SameSliceInput(lib, Str(s), lib.decodeJson(Str(s)), t);
    }
  }

  // An array converts as a slice of the same elements, and containers are found
  // behind any number of pointers.
  lemma ArrayLikeSlice(lib: GoLib, e: Type, isNil: bool, items: seq<Val>, t: Type)
    requires t.TSlice? && Target(t)
    ensures Converted(lib, ArrayV(e, items), t) == Converted(lib, SliceV(e, isNil, items), t)
  {
    SameSliceInput(lib, ArrayV(e, items), SliceV(e, isNil, items), t);
  }

  lemma PointerToSlice(lib: GoLib, e: Type, v: Val, t: Type)
    requires t.TSlice? && Target(t) && !v.Str? && !v.Nil?
    ensures Converted(lib, PtrV(e, Some(v)), t) == Converted(lib, v, t)
  {
    SameSliceInput(lib, PtrV(e, Some(v)), v, t);
  }

  lemma PointerToMap(lib: GoLib, e: Type, v: Val, t: Type)
    requires t.TMap? && Target(t) && !v.Str? && !v.Nil? && TypeOf(v) != TSlice(TInt(Uint8))
    ensures Converted(lib, PtrV(e, Some(v)), t) == Converted(lib, v, t)
  {
    SameMapInput(lib, PtrV(e, Some(v)), v, t);
  }

  // Anything else becomes an empty container.
  lemma OtherInputsAreEmpty(lib: GoLib, v: Val, t: Type)
    requires Target(t) && (v.Nil? || v.IntV? || v.BoolV? || v.F64? || v.TimeV? || v.DecimalV?)
    ensures t.TSlice? ==> Converted(lib, v, t) == SliceV(t.elem, false, [])
    ensures t.TMap? ==> Converted(lib, v, t) == MapV(t.key, t.elem, false, [])
  {
    if t.TSlice? { EmptySliceInput(lib, v, t); }
    if t.TMap? { EmptyMapInput(lib, v, t); }
  }
}
