// The Go values and reflect types that ch/converter.go moves between: the part
// of package reflect the converters rely on.
module GoValues {
  import opened Common

  datatype IntKind =
    Int8 | Int16 | Int32 | Int64 | Int | Uint8 | Uint16 | Uint32 | Uint64 | Uint

  predicate Signed(k: IntKind) {
    k.Int8? || k.Int16? || k.Int32? || k.Int64? || k.Int?
  }

  // Number of values of the kind; int and uint are 64 bits wide.
  function Modulus(k: IntKind): int {
    match k
    case Int8 => 0x100 case Uint8 => 0x100
    case Int16 => 0x1_0000 case Uint16 => 0x1_0000
    case Int32 => 0x1_0000_0000 case Uint32 => 0x1_0000_0000
    case _ => 0x1_0000_0000_0000_0000
  }

  function MinOf(k: IntKind): int {
    if Signed(k) then -(Modulus(k) / 2) else 0
  }

  function MaxOf(k: IntKind): int {
    MinOf(k) + Modulus(k) - 1
  }

  predicate InRange(k: IntKind, v: int) {
    MinOf(k) <= v <= MaxOf(k)
  }

  // Conversion between integer types keeps the low bits.
  function WrapTo(k: IntKind, v: int): (r: int)
    ensures InRange(k, r)
  {
    var low := v % Modulus(k);
    if low > MaxOf(k) then low - Modulus(k) else low
  }

  // The wrapped value is the one value of the kind that differs from v by a
  // multiple of the kind's size.
  lemma WrapIsTheResidue(k: IntKind, v: int, q: int, r: int)
    requires v == q * Modulus(k) + r && InRange(k, r)
    ensures WrapTo(k, v) == r
  {
    var m := Modulus(k);
    if r < 0 {
      ResidueUnique(v, m, q - 1, r + m);
    } else {
      ResidueUnique(v, m, q, r);
    }
  }

  lemma ResidueUnique(v: int, m: int, q: int, r: int)
    requires m > 0 && v == q * m + r && 0 <= r < m
    ensures v % m == r
  {
    var d := v / m - q;
    assert d * m == r - v % m by { assert (v / m) * m == v - v % m; }
    MultipleIsFar(d, m);
  }

  lemma MultipleIsFar(d: int, m: int)
    requires m > 0
    ensures d > 0 ==> d * m >= m
    ensures d < 0 ==> d * m <= -m
  {
    if d > 0 {
      assert (d - 1) * m >= 0;
    } else {
      assert (-1 - d) * m >= 0 || d == 0;
    }
  }

  lemma WrapInRange(k: IntKind, v: int)
    requires InRange(k, v)
    ensures WrapTo(k, v) == v
  {
    WrapIsTheResidue(k, v, 0, v);
  }

  // An integer value of a Go integer type: always within the type's range.
  datatype AnyInt = GoInt(kind: IntKind, i: int)

  type GoInt = n: AnyInt | InRange(n.kind, n.i) witness GoInt(Int64, 0)

  // Reflect types. TOther is any other named type, opaque here.
  datatype Type =
    | TString | TInt(kind: IntKind) | TBool | TFloat32 | TFloat64
    | TTime | TDecimal | TIP
    | TPtr(elem: Type) | TSlice(elem: Type) | TMap(key: Type, elem: Type)
    | TAny | TArray(elem: Type) | TOther(name: string)

  // Dynamic values. Floats, times, decimals and addresses are opaque numbers; a
  // map lists its entries in the order one range over it visits them.
  datatype Val =
    | Nil
    | Str(s: string)
    | IntV(n: GoInt)
    | BoolV(b: bool)
    | F32(f: int)
    | F64(f: int)
    | JsonNumber(text: string)
    | TimeV(t: int)
    | DecimalV(d: int)
    | IPV(octets: seq<int>)
    | PtrV(elem: Type, pointee: Option<Val>)
    | SliceV(elem: Type, isNil: bool, items: seq<Val>)
    | ArrayV(elem: Type, items: seq<Val>)
    | MapV(key: Type, elem: Type, isNil: bool, entries: seq<(Val, Val)>)
    | Other(name: string, id: int)

  function TypeOf(v: Val): Type {
    match v
    case Nil => TAny
    case Str(_) => TString
    case IntV(n) => TInt(n.kind)
    case BoolV(_) => TBool
    case F32(_) => TFloat32
    case F64(_) => TFloat64
    case JsonNumber(_) => TOther("json.Number")
    case TimeV(_) => TTime
    case DecimalV(_) => TDecimal
    case IPV(_) => TIP
    case PtrV(e, _) => TPtr(e)
    case SliceV(e, _, _) => TSlice(e)
    case ArrayV(e, _) => TArray(e)
    case MapV(k, e, _, _) => TMap(k, e)
    case Other(n, _) => TOther(n)
  }

  const ZERO_IP: seq<int> := [0, 0, 0, 0, 0, 0, 0, 0, 0, 0, 0, 0, 0, 0, 0, 0]

  // reflect.Zero
  function Zero(t: Type): Val {
    match t
    case TString => Str("")
    case TInt(k) => IntV(GoInt(k, 0))
    case TBool => BoolV(false)
    case TFloat32 => F32(0)
    case TFloat64 => F64(0)
    case TTime => TimeV(0)
    case TDecimal => DecimalV(0)
    case TIP => IPV([])
    case TPtr(e) => PtrV(e, None)
    case TSlice(e) => SliceV(e, true, [])
    case TMap(k, e) => MapV(k, e, true, [])
    case TAny => Nil
    case TArray(e) => ArrayV(e, [])
    case TOther(n) => Other(n, 0)
  }

  // v is a value of type t through and through: nil
  // containers empty, map keys pairwise different.
  predicate HasType(v: Val, t: Type)
    decreases t
  {
    match t
    case TString => v.Str?
    case TInt(k) => v.IntV? && v.n.kind == k
    case TBool => v.BoolV?
    case TFloat32 => v.F32?
    case TFloat64 => v.F64?
    case TTime => v.TimeV?
    case TDecimal => v.DecimalV?
    case TIP => v.IPV?
    case TPtr(e) => v.PtrV? && v.elem == e && (v.pointee.Some? ==> HasType(v.pointee.value, e))
    case TSlice(e) =>
      v.SliceV? && v.elem == e && (v.isNil ==> v.items == [])
      && forall i :: 0 <= i < |v.items| ==> HasType(v.items[i], e)
    case TMap(k, e) =>
      v.MapV? && v.key == k && v.elem == e && (v.isNil ==> v.entries == [])
      && DistinctKeys(v.entries)
      && forall i :: 0 <= i < |v.entries| ==> HasType(v.entries[i].0, k) && HasType(v.entries[i].1, e)
    case TOther(n) => TypeOf(v) == t
    case _ => false
  }

  predicate DistinctKeys(entries: seq<(Val, Val)>) {
    forall i, j :: 0 <= i < j < |entries| ==> entries[i].0 != entries[j].0
  }

  // Key types whose Go equality is equality of the values modelled here.
  predicate KeyType(t: Type) {
    t.TString? || t.TInt? || t.TBool? || t.TTime?
  }

  // The types a Map or Array column can ask for.
  predicate Target(t: Type) {
    match t
    case TPtr(e) => Target(e)
    case TSlice(e) => Target(e)
    case TMap(k, e) => KeyType(k) && Target(e)
    case TAny => false
    case TArray(_) => false
    case _ => true
  }

  lemma TypeOfTyped(v: Val, t: Type)
    requires HasType(v, t)
    ensures TypeOf(v) == t
  {
  }
}
