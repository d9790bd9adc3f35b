// The stripping of LowCardinality(...) and Nullable(...) from ClickHouse type
// strings, done by ch/converter.go on the text and here related to type trees.
module TypeModifiers {

  const LOW_CARDINALITY: string := "LowCardinality("
  const NULLABLE: string := "Nullable("

  predicate HasPrefix(s: string, p: string) {
    p <= s
  }

  function TrimPrefix(s: string, p: string): string {
    if p <= s then s[|p|..] else s
  }

  // strings.TrimSuffix(s, ")"): at most one closing parenthesis goes.
  function TrimClose(s: string): string {
    if s != "" && s[|s| - 1] == ')' then s[..|s| - 1] else s
  }

  datatype Unwrapped = Unwrapped(base: string, nullable: bool)

  function Unwrap(colType: string, nullable: bool): Unwrapped
    decreases |colType|
  {
    if HasPrefix(colType, LOW_CARDINALITY) then
      Unwrap(TrimClose(TrimPrefix(colType, LOW_CARDINALITY)), nullable)
    else if HasPrefix(colType, NULLABLE) then
      Unwrap(TrimClose(TrimPrefix(colType, NULLABLE)), true)
    else Unwrapped(colType, nullable)
  }

  method UnwrapTypeModifiers(colType: string, nullable: bool) returns (r: Unwrapped)
    ensures r == Unwrap(colType, nullable)
    ensures !HasPrefix(r.base, LOW_CARDINALITY) && !HasPrefix(r.base, NULLABLE)
  {
    var s, n := colType, nullable;
    while true
      invariant Unwrap(s, n) == Unwrap(colType, nullable)
      decreases |s|
    {
      if HasPrefix(s, LOW_CARDINALITY) {
        s := TrimClose(TrimPrefix(s, LOW_CARDINALITY));
      } else if HasPrefix(s, NULLABLE) {
        n := true;
        s := TrimClose(TrimPrefix(s, NULLABLE));
      } else {
        return Unwrapped(s, n);
      }
    }
  }

  // ----- Any string under any stack of modifiers ----------------------------

  datatype Modifier = LowCardinality | Nullable

  function Opening(m: Modifier): string {
    match m case LowCardinality => LOW_CARDINALITY case Nullable => NULLABLE
  }

  function Wrap(ms: seq<Modifier>, s: string): string {
    if ms == [] then s else Opening(ms[0]) + Wrap(ms[1..], s) + ")"
  }

  lemma UnwrapOne(m: Modifier, s: string, nullable: bool)
    ensures Unwrap(Opening(m) + s + ")", nullable) == Unwrap(s, nullable || m.Nullable?)
  {
    var w := Opening(m) + s + ")";
    assert Opening(m) <= w && w[|Opening(m)|..] == s + ")";
    assert TrimClose(s + ")") == s;
    if m.Nullable? {
      assert w[0] == 'N' && LOW_CARDINALITY[0] == 'L';
      assert !HasPrefix(w, LOW_CARDINALITY);
    }
  }

  lemma {:induction false} UnwrapOfWrap(ms: seq<Modifier>, s: string, nullable: bool)
    ensures Unwrap(Wrap(ms, s), nullable) == Unwrap(s, nullable || Nullable in ms)
  {
    if ms != [] {
      UnwrapOne(ms[0], Wrap(ms[1..], s), nullable);
      UnwrapOfWrap(ms[1..], s, nullable || ms[0].Nullable?);
      assert ms == [ms[0]] + ms[1..];
    }
  }

  // The incoming flag is only ever or-ed with what the string shows.
  lemma {:induction false} FlagIsOred(s: string, nullable: bool)
    ensures Unwrap(s, nullable) == Unwrapped(Unwrap(s, false).base, nullable || Unwrap(s, false).nullable)
    decreases |s|
  {
    if HasPrefix(s, LOW_CARDINALITY) {
      FlagIsOred(TrimClose(TrimPrefix(s, LOW_CARDINALITY)), nullable);
    } else if HasPrefix(s, NULLABLE) {
      FlagIsOred(TrimClose(TrimPrefix(s, NULLABLE)), true);
    }
  }

  // Unwrapping is a projection: its result unwraps to itself.
  lemma {:induction false} UnwrapIdempotent(s: string, nullable: bool, later: bool)
    ensures var b := Unwrap(s, nullable).base;
            |b| <= |s| && Unwrap(b, later) == Unwrapped(b, later)
    decreases |s|
  {
    if HasPrefix(s, LOW_CARDINALITY) {
      UnwrapIdempotent(TrimClose(TrimPrefix(s, LOW_CARDINALITY)), nullable, later);
    } else if HasPrefix(s, NULLABLE) {
      UnwrapIdempotent(TrimClose(TrimPrefix(s, NULLABLE)), true, later);
    }
  }

  // ----- Type trees ----------------------------------------------------------

  datatype ChType =
    | Named(text: string)
    | LowCardinalityOf(inner: ChType)
    | NullableOf(inner: ChType)
    | ArrayOf(elem: ChType)
    | MapOf(key: ChType, value: ChType)

  function Print(t: ChType): string {
    match t
    case Named(text) => text
    case LowCardinalityOf(u) => LOW_CARDINALITY + Print(u) + ")"
    case NullableOf(u) => NULLABLE + Print(u) + ")"
    case ArrayOf(u) => "Array(" + Print(u) + ")"
    case MapOf(k, v) => "Map(" + Print(k) + ", " + Print(v) + ")"
  }

  function StripOuter(t: ChType): ChType {
    match t
    case LowCardinalityOf(u) => StripOuter(u)
    case NullableOf(u) => StripOuter(u)
    case _ => t
  }

  predicate OuterNullable(t: ChType) {
    match t
    case LowCardinalityOf(u) => OuterNullable(u)
    case NullableOf(_) => true
    case _ => false
  }

  // A type name is not itself spelled like one of the two modifiers.
  predicate ProperNames(t: ChType) {
    match t
    case Named(text) => !HasPrefix(text, LOW_CARDINALITY) && !HasPrefix(text, NULLABLE)
    case LowCardinalityOf(u) => ProperNames(u)
    case NullableOf(u) => ProperNames(u)
    case ArrayOf(u) => ProperNames(u)
    case MapOf(k, v) => ProperNames(k) && ProperNames(v)
  }

  // The text algorithm computes the tree operation. Modifiers below an Array or
  // a Map stay where they are.
  lemma {:induction false} UnwrapRefinesStrip(t: ChType, nullable: bool)
    requires ProperNames(t)
    ensures Unwrap(Print(t), nullable) == Unwrapped(Print(StripOuter(t)), nullable || OuterNullable(t))
  {
    match t
    case Named(_) =>
    case LowCardinalityOf(u) =>
      UnwrapOne(LowCardinality, Print(u), nullable);
      UnwrapRefinesStrip(u, nullable);
    case NullableOf(u) =>
      UnwrapOne(Nullable, Print(u), nullable);
      UnwrapRefinesStrip(u, true);
    case ArrayOf(u) =>
      assert Print(t)[0] == 'A' && LOW_CARDINALITY[0] == 'L' && NULLABLE[0] == 'N';
    case MapOf(k, v) =>
      assert Print(t)[0] == 'M' && LOW_CARDINALITY[0] == 'L' && NULLABLE[0] == 'N';
  }
}
