// Coercion of column values to the Go types the ClickHouse driver expects, after
// the container part of ch/converter.go.
module Converter {
  import opened Common
  import opened Strconv
  import opened GoValues

  // What the converters take from Go's libraries and is not modelled: floating
  // point, times, decimals, addresses and JSON decoding.
  datatype GoLib = GoLib(
    formatF64: int -> string,
    formatF32: int -> string,
    truncF64: int -> int,
    truncF32: int -> int,
    widen: int -> int,
    narrow: int -> int,
    floatOfInt: int -> int,
    parseFloat: string -> Option<int>,
    f64IsZero: int -> bool,
    f32IsZero: int -> bool,
    toDecimal: Val -> int,
    toTime: Val -> int,
    toIP: Val -> seq<int>,
    decodeJson: Val -> Val)

  // ----- Scalar converters ---------------------------------------------------

  // The converters' type switches accept a plain value or one pointer to it; a
  // nil pointer, a longer pointer chain or *any falls to the default branch.
  function Operand(v: Val): Val {
    match v
    case PtrV(e, Some(x)) => if TypeOf(x) == e && !x.PtrV? && !x.JsonNumber? then x else Nil
    case PtrV(_, None) => Nil
    case _ => v
  }

  // The integer kinds that the string, float and bool converters know.
  const COMMON_INTS: set<IntKind> := {Int64, Int, Int32, Uint64}

  function StringConvert(lib: GoLib, val: Val): (r: Val)
    ensures r.Str?
  {
    match Operand(val)
    case Str(s) => Str(s)
    case IntV(n) => if n.kind in COMMON_INTS then Str(FormatInt(n.i)) else Str("")
    case F64(f) => Str(lib.formatF64(f))
    case F32(f) => Str(lib.formatF32(f))
    case BoolV(b) => Str(if b then "true" else "false")
    case _ => Str("")
  }

  function Saturate(i: int): int {
    if i > MAX_INT64 then MAX_INT64 else i
  }

  function ParsedOrZero(s: string): int {
    match ParseInt(s) case Some(i) => i case None => 0
  }

  function IntConvert(lib: GoLib, val: Val): (r: Val)
    ensures r.IntV? && r.n.kind == Int64
  {
    match Operand(val)
    case IntV(n) => IntV(GoInt(Int64, if n.kind == Uint64 || n.kind == Uint then Saturate(n.i) else n.i))
    case JsonNumber(s) => IntV(GoInt(Int64, ParsedOrZero(s)))
    case F64(f) => IntV(GoInt(Int64, WrapTo(Int64, lib.truncF64(f))))
    case F32(f) => IntV(GoInt(Int64, WrapTo(Int64, lib.truncF32(f))))
    case Str(s) => IntV(GoInt(Int64, ParsedOrZero(s)))
    case BoolV(b) => IntV(GoInt(Int64, if b then 1 else 0))
    case _ => IntV(GoInt(Int64, 0))
  }

  function FloatConvert(lib: GoLib, val: Val): (r: Val)
    ensures r.F64?
  {
    match Operand(val)
    case F64(f) => F64(f)
    case F32(f) => F64(lib.widen(f))
    case IntV(n) => if n.kind in COMMON_INTS then F64(lib.floatOfInt(n.i)) else F64(0)
    case JsonNumber(s) => F64(match lib.parseFloat(s) case Some(f) => f case None => 0)
    case Str(s) => F64(match lib.parseFloat(s) case Some(f) => f case None => 0)
    case _ => F64(0)
  }

  function BoolConvert(lib: GoLib, val: Val): (r: Val)
    ensures r.BoolV?
  {
    match Operand(val)
    case BoolV(b) => BoolV(b)
    case IntV(n) => BoolV(n.kind in COMMON_INTS && n.i != 0)
    case F64(f) => BoolV(!lib.f64IsZero(f))
    case F32(f) => BoolV(!lib.f32IsZero(f))
    case Str(s) => BoolV(s == "true" || s == "1" || s == "TRUE")
    case _ => BoolV(false)
  }

  function DecimalConvert(lib: GoLib, val: Val): (r: Val)
    ensures r.DecimalV?
  {
    match Operand(val)
    case DecimalV(d) => DecimalV(d)
    case other => DecimalV(lib.toDecimal(other))
  }

  function DateTimeConvert(lib: GoLib, val: Val): (r: Val)
    ensures r.TimeV?
  {
    match Operand(val)
    case TimeV(t) => TimeV(t)
    case other => TimeV(lib.toTime(other))
  }

  // The address converter looks through no pointer at all, and answers :: for
  // anything it cannot read.
  function IPConvert(lib: GoLib, val: Val): (r: Val)
    ensures r.IPV? && r.octets != []
  {
    var octets := match val
      case IPV(o) => o
      case PtrV(_, _) => []
      case Nil => []
      case _ => lib.toIP(val);
    IPV(if octets == [] then ZERO_IP else octets)
  }

  predicate IsScalar(t: Type) {
    t.TString? || t.TInt? || t.TBool? || t.TFloat32? || t.TFloat64? || t.TTime? || t.TDecimal? || t.TIP?
  }

  // scalarConverterForType followed by the converter it selects.
  function ScalarConvert(lib: GoLib, val: Val, t: Type): Val
    requires IsScalar(t)
  {
    match t
    case TString => StringConvert(lib, val)
    case TInt(_) => IntConvert(lib, val)
    case TBool => BoolConvert(lib, val)
    case TFloat32 => FloatConvert(lib, val)
    case TFloat64 => FloatConvert(lib, val)
    case TTime => DateTimeConvert(lib, val)
    case TDecimal => DecimalConvert(lib, val)
    case TIP => IPConvert(lib, val)
  }

  // coerceTo: assign, convert between numeric types, or fall back to zero.
  function CoerceTo(lib: GoLib, val: Val, t: Type): Val {
    if val.Nil? then Zero(t)
    else if TypeOf(val) == t then val
    else match (val, t)
      case (IntV(n), TInt(k)) => IntV(GoInt(k, WrapTo(k, n.i)))
      case (F64(f), TFloat32) => F32(lib.narrow(f))
      case (F32(f), TFloat64) => F64(lib.widen(f))
      case _ => Zero(t)
  }

  // ----- Containers ----------------------------------------------------------

  // derefValue: through every pointer, None for a nil on the way.
  function Deref(v: Val): Option<Val> {
    match v
    case PtrV(_, p) => (match p case Some(x) => Deref(x) case None => None)
    case Nil => None
    case _ => Some(v)
  }

  method DerefValue(v: Val) returns (r: Option<Val>)
    ensures r == Deref(v)
    ensures r.Some? ==> !r.value.PtrV? && !r.value.Nil?
  {
    var cur := v;
    while cur.PtrV?
      invariant Deref(cur) == Deref(v)
      decreases cur
    {
      if cur.pointee.None? {
        return None;
      }
      cur := cur.pointee.value;
    }
    if cur.Nil? {
      return None;
    }
    return Some(cur);
  }

  function EmptyJson(v: Val): bool {
    v == Str("") || (v.SliceV? && v.items == [])
  }

  function DecodeMap(lib: GoLib, v: Val): Option<seq<(Val, Val)>> {
    if EmptyJson(v) then None
    else match lib.decodeJson(v) case MapV(_, _, _, es) => Some(es) case _ => None
  }

  function DecodeSlice(lib: GoLib, v: Val): Option<seq<Val>> {
    if EmptyJson(v) then None
    else match lib.decodeJson(v) case SliceV(_, _, items) => Some(items) case _ => None
  }

  // The entries to convert: a Go map's, or those of a JSON object given as a
  // string or as bytes.
  function MapInput(lib: GoLib, v: Val): Option<seq<(Val, Val)>> {
    if v.Nil? then None
    else if v.Str? || TypeOf(v) == TSlice(TInt(Uint8)) then DecodeMap(lib, v)
    else match Deref(v) case Some(MapV(_, _, _, es)) => Some(es) case _ => None
  }

  // The elements to convert: a Go slice's or array's, or those of a JSON array
  // given as a string. An address is a byte slice to reflect.
  function SliceInput(lib: GoLib, v: Val): Option<seq<Val>> {
    if v.Nil? then None
    else if v.Str? then DecodeSlice(lib, v)
    else match Deref(v)
      case Some(SliceV(_, _, items)) => Some(items)
      case Some(ArrayV(_, items)) => Some(items)
      case Some(IPV(octets)) =>
        Some(seq(|octets|, i requires 0 <= i < |octets| => IntV(GoInt(Uint8, WrapTo(Uint8, octets[i])))))
      case _ => None
  }

  // reflect.Value.SetMapIndex
  function SetIndex(entries: seq<(Val, Val)>, k: Val, v: Val): seq<(Val, Val)> {
    if entries == [] then [(k, v)]
    else if entries[0].0 == k then [(k, v)] + entries[1..]
    else [entries[0]] + SetIndex(entries[1..], k, v)
  }

  // A reflect.Value: None is the invalid Value.
  type RValue = Option<Val>

  function ConvertElem(lib: GoLib, val: Val, t: Type): RValue
    decreases t, 2, 0
  {
    if t.TPtr? then
      match ConvertElem(lib, val, t.elem)
      case None => Some(Zero(t))
      case Some(e) => Some(PtrV(t.elem, Some(e)))
    else if IsScalar(t) then Some(CoerceTo(lib, ScalarConvert(lib, val, t), t))
    else if t.TMap? then Some(BuildMap(lib, val, t))
    else if t.TSlice? then Some(BuildSlice(lib, val, t))
    else Some(CoerceTo(lib, val, t))
  }

  function BuildMap(lib: GoLib, val: Val, t: Type): Val
    requires t.TMap?
    decreases t, 1, 0
  {
    match MapInput(lib, val)
    case None => MapV(t.key, t.elem, false, [])
    case Some(src) => MapV(t.key, t.elem, false, BuildEntries(lib, src, t))
  }

  // The loop over the source entries, last entry outermost.
  function BuildEntries(lib: GoLib, src: seq<(Val, Val)>, t: Type): seq<(Val, Val)>
    requires t.TMap?
    decreases t, 0, |src|
  {
    if src == [] then []
    else
      var done := BuildEntries(lib, src[..|src| - 1], t);
      var last := src[|src| - 1];
      var k := ConvertElem(lib, last.0, t.key);
      var v := ConvertElem(lib, last.1, t.elem);
      if k.None? || v.None? then done else SetIndex(done, k.value, v.value)
  }

  function BuildSlice(lib: GoLib, val: Val, t: Type): Val
    requires t.TSlice?
    decreases t, 1, 0
  {
    match SliceInput(lib, val)
    case None => SliceV(t.elem, false, [])
    case Some(src) => SliceV(t.elem, false, BuildItems(lib, src, t))
  }

  function BuildItems(lib: GoLib, src: seq<Val>, t: Type): seq<Val>
    requires t.TSlice?
    decreases t, 0, |src|
  {
    if src == [] then []
    else
      var done := BuildItems(lib, src[..|src| - 1], t);
      match ConvertElem(lib, src[|src| - 1], t.elem)
      case None => done + [Zero(t.elem)]
      case Some(e) => done + [e]
  }

  // ----- The loops of the source --------------------------------------------

  method RunConvertElem(lib: GoLib, val: Val, t: Type) returns (r: RValue)
    ensures r == ConvertElem(lib, val, t)
    decreases t, 1
  {
    if t.TPtr? {
      var e := RunConvertElem(lib, val, t.elem);
      if e.None? {
        return Some(Zero(t));
      }
      return Some(PtrV(t.elem, e));
    }
    if IsScalar(t) {
      return Some(CoerceTo(lib, ScalarConvert(lib, val, t), t));
    }
    if t.TMap? {
      var m := RunBuildMap(lib, val, t);
      return Some(m);
    }
    if t.TSlice? {
      var s := RunBuildSlice(lib, val, t);
      return Some(s);
    }
    return Some(CoerceTo(lib, val, t));
  }

  method RunBuildMap(lib: GoLib, val: Val, t: Type) returns (r: Val)
    requires t.TMap?
    ensures r == BuildMap(lib, val, t)
    decreases t, 0
  {
    var entries := [];
    var src := MapInput(lib, val);
    if src.None? {
      return MapV(t.key, t.elem, false, entries);
    }
    for i := 0 to |src.value|
      invariant entries == BuildEntries(lib, src.value[..i], t)
    {
      assert src.value[..i + 1][..i] == src.value[..i];
      var k := RunConvertElem(lib, src.value[i].0, t.key);
      var v := RunConvertElem(lib, src.value[i].1, t.elem);
      if k.None? || v.None? {
        continue;
      }
      entries := SetIndex(entries, k.value, v.value);
    }
    assert src.value[..|src.value|] == src.value;
    return MapV(t.key, t.elem, false, entries);
  }

  method RunBuildSlice(lib: GoLib, val: Val, t: Type) returns (r: Val)
    requires t.TSlice?
    ensures r == BuildSlice(lib, val, t)
    decreases t, 0
  {
    var src := SliceInput(lib, val);
    if src.None? {
      return SliceV(t.elem, false, []);
    }
    var items := [];
    for i := 0 to |src.value|
      invariant items == BuildItems(lib, src.value[..i], t)
    {
      assert src.value[..i + 1][..i] == src.value[..i];
      var e := RunConvertElem(lib, src.value[i], t.elem);
      if e.None? {
        e := Some(Zero(t.elem));
      }
      items := items + [e.value];
    }
    assert src.value[..|src.value|] == src.value;
    return SliceV(t.elem, false, items);
  }
}
