// Table columns as ch/converter.go parses them from DESCRIBE, and the value one
// row contributes to each column (ch/writer.go).
module Columns {
  import opened Common
  import opened GoValues
  import opened Converter
  import ConverterProperties
  import opened TypeModifiers

  datatype ColumnKind =
    | UnknownKind | StringKind | IntKind | FloatKind | DecimalKind | BoolKind
    | DateTimeKind | EnumKind | IPKind | DateKind | MapKind | ArrayKind

  // A default is a constant or a function evaluated when a row is inserted.
  datatype DefaultValue = Constant(value: Val) | Function(name: string, args: seq<string>)

  datatype TableColumn = TableColumn(
    name: string, originalType: string, baseType: string, kind: ColumnKind,
    isNullable: bool, default: Option<DefaultValue>, enumFirst: string, scanType: Option<Type>)

  // Library behaviour used while parsing columns: upper-casing, the driver's
  // answer for a container type, the regular expressions for function calls (the
  // name in lower case) and enum labels, decimals, the clock, random identifiers
  // and the Date formats.
  datatype ColumnLib = ColumnLib(
    go: GoLib,
    upper: string -> string,
    scan: string -> Option<Type>,
    functionCall: string -> Option<(string, seq<string>)>,
    parseDecimal: string -> Option<int>,
    firstEnum: string -> string,
    now: nat -> int,
    today: nat -> int,
    yesterday: nat -> int,
    uuid: nat -> string,
    toDate: Val -> int)

  // The first matching case, most specific containers first.
  function Classify(upper: string): ColumnKind {
    if HasPrefix(upper, "MAP(") then MapKind
    else if HasPrefix(upper, "ARRAY(") then ArrayKind
    else if Contains(upper, "INT") then IntKind
    else if Contains(upper, "STRING") || Contains(upper, "FIXEDSTRING") then StringKind
    else if Contains(upper, "FLOAT") then FloatKind
    else if Contains(upper, "BOOL") then BoolKind
    else if Contains(upper, "DATETIME") then DateTimeKind
    else if Contains(upper, "DATE") then DateKind
    else if Contains(upper, "DECIMAL") then DecimalKind
    else if Contains(upper, "ENUM") then EnumKind
    else if upper == "IPV4" || upper == "IPV6" then IPKind
    else UnknownKind
  }

  // The driver's type for a container column, dropped when it is not of the
  // wanted kind.
  function ResolveScanType(lib: ColumnLib, base: string, kind: ColumnKind): (r: Option<Type>)
    ensures r.Some? && kind.MapKind? ==> r.value.TMap?
    ensures r.Some? && kind.ArrayKind? ==> r.value.TSlice?
  {
    match lib.scan(base)
    case None => None
    case Some(t) =>
      if (kind.MapKind? && t.TMap?) || (kind.ArrayKind? && t.TSlice?) then Some(t) else None
  }

  // ----- Defaults ------------------------------------------------------------

  const SUPPORTED_FUNCTIONS: set<string> := {"now", "now64", "today", "yesterday", "generateuuidv4"}

  function ParseFunctionCall(lib: ColumnLib, value: string): Option<(string, seq<string>)> {
    match lib.functionCall(value)
    case Some(f) => if f.0 in SUPPORTED_FUNCTIONS then Some(f) else None
    case None => None
  }

  predicate Quoted(s: string) {
    s != "" && s[0] == '\'' && s[|s| - 1] == '\''
  }

  // strings.Trim(s, "'")
  function TrimQuotes(s: string): string {
    if s != "" && s[0] == '\'' then TrimQuotes(s[1..])
    else if s != "" && s[|s| - 1] == '\'' then TrimQuotes(s[..|s| - 1])
    else s
  }

  function ParseDefault(lib: ColumnLib, value: string, kind: ColumnKind): DefaultValue {
    var call := ParseFunctionCall(lib, value);
    if call.Some? then Function(call.value.0, call.value.1)
    else if Quoted(value) then Constant(Str(TrimQuotes(value)))
    else match kind
      case IntKind => Constant(IntV(GoInt(Int64, ParsedOrZero(value))))
      case FloatKind => Constant(F64(match lib.go.parseFloat(value) case Some(f) => f case None => 0))
      case DecimalKind => Constant(DecimalV(match lib.parseDecimal(value) case Some(d) => d case None => 0))
      case BoolKind => Constant(BoolV(value == "true" || value == "1"))
      case _ => Constant(Str(value))
  }

  // A default function, evaluated when a row is inserted.
  function Evaluate(lib: ColumnLib, name: string, clock: nat): Val {
    if name == "now" || name == "now64" then TimeV(lib.now(clock))
    else if name == "today" then TimeV(lib.today(clock))
    else if name == "yesterday" then TimeV(lib.yesterday(clock))
    else if name == "generateuuidv4" then Str(lib.uuid(clock))
    else Nil
  }

  function ParseColumn(lib: ColumnLib, name: string, colType: string, defaultExpr: string): TableColumn {
    var u := Unwrap(colType, false);
    var kind := Classify(lib.upper(u.base));
    TableColumn(name, colType, u.base, kind, u.nullable,
      if defaultExpr != "" then Some(ParseDefault(lib, defaultExpr, kind)) else None,
      if kind.EnumKind? then lib.firstEnum(u.base) else "",
      if kind.MapKind? || kind.ArrayKind? then ResolveScanType(lib, u.base, kind) else None)
  }

  // Whatever the type string, wrapping it in any stack of LowCardinality and
  // Nullable changes only the recorded original text and the nullable flag.
  lemma ModifiersOnlySetNullable(lib: ColumnLib, name: string, ms: seq<Modifier>, colType: string, dflt: string)
    ensures ParseColumn(lib, name, Wrap(ms, colType), dflt)
         == ParseColumn(lib, name, colType, dflt).(
              originalType := Wrap(ms, colType),
              isNullable := ParseColumn(lib, name, colType, dflt).isNullable || Nullable in ms)
  {
    UnwrapOfWrap(ms, colType, false);
    FlagIsOred(colType, Nullable in ms);
  }

  // Upper-casing leaves the letters of the two container prefixes recognizable.
  ghost predicate KeepsPrefixes(lib: ColumnLib) {
    (forall s :: HasPrefix(lib.upper("Map(" + s), "MAP("))
    && (forall s :: HasPrefix(lib.upper("Array(" + s), "ARRAY("))
  }

  lemma ClassifyByPrefix(upper: string)
    ensures HasPrefix(upper, "MAP(") ==> Classify(upper) == MapKind
    ensures HasPrefix(upper, "ARRAY(") ==> Classify(upper) == ArrayKind
  {
    if HasPrefix(upper, "ARRAY(") { assert upper[0] == 'A' && "MAP("[0] == 'M'; }
  }

  function MapInside(m: ChType): (s: string)
    requires m.MapOf?
    ensures Print(m) == "Map(" + s
  {
    assert Print(m) == "Map(" + (Print(m.key) + ", " + Print(m.value) + ")");
    Print(m.key) + ", " + Print(m.value) + ")"
  }

  // A Map column, under any stack of modifiers, is classified by its outermost
  // type, never by the types inside it.
  lemma MapsAreNotMistaken(lib: ColumnLib, name: string, t: ChType, dflt: string)
    requires ProperNames(t) && KeepsPrefixes(lib) && StripOuter(t).MapOf?
    ensures ParseColumn(lib, name, Print(t), dflt).kind == MapKind
  {
    UnwrapRefinesStrip(t, false);
    var inside := MapInside(StripOuter(t));
    ClassifyByPrefix(lib.upper("Map(" + inside));
  }

  // And so is an Array column.
  lemma ArraysAreNotMistaken(lib: ColumnLib, name: string, t: ChType, dflt: string)
    requires ProperNames(t) && KeepsPrefixes(lib) && StripOuter(t).ArrayOf?
    ensures ParseColumn(lib, name, Print(t), dflt).kind == ArrayKind
  {
    UnwrapRefinesStrip(t, false);
    var inside := Print(StripOuter(t).elem) + ")";
    assert Print(StripOuter(t)) == "Array(" + inside;
    ClassifyByPrefix(lib.upper("Array(" + inside));
  }

  // ----- The value of a column -----------------------------------------------

  // The first moment of 1970, in seconds from Go's zero time.
  const CLICKHOUSE_MIN_TIME: int := 62_135_596_800

  function ZeroValue(col: TableColumn): Val {
    if col.isNullable then Nil
    else match col.kind
      case UnknownKind => Nil
      case StringKind => Str("")
      case IntKind => IntV(GoInt(Int64, 0))
      case FloatKind => F64(0)
      case DecimalKind => DecimalV(0)
      case BoolKind => BoolV(false)
      case DateTimeKind => TimeV(CLICKHOUSE_MIN_TIME)
      case DateKind => TimeV(CLICKHOUSE_MIN_TIME)
      case EnumKind => Str(col.enumFirst)
      case IPKind => IPV(ZERO_IP)
      case MapKind => (match col.scanType case Some(t) => EmptyMap(t) case None => Nil)
      case ArrayKind => (match col.scanType case Some(t) => EmptySlice(t) case None => Nil)
  }

  function EmptyMap(t: Type): Val {
    if t.TMap? then MapV(t.key, t.elem, false, []) else Nil
  }

  function EmptySlice(t: Type): Val {
    if t.TSlice? then SliceV(t.elem, false, []) else Nil
  }

  function DateConvert(lib: ColumnLib, val: Val): (r: Val)
    ensures r.TimeV?
  {
    match Operand(val)
    case TimeV(t) => TimeV(t)
    case other => TimeV(lib.toDate(other))
  }

  // The converter getConverter picks, applied. No converter reports an error
  // for the inputs it is given here.
  function ConvertValue(lib: ColumnLib, val: Val, col: TableColumn): Val {
    match col.kind
    case UnknownKind => StringConvert(lib.go, val)
    case IntKind => IntConvert(lib.go, val)
    case StringKind => StringConvert(lib.go, val)
    case FloatKind => FloatConvert(lib.go, val)
    case DecimalKind => DecimalConvert(lib.go, val)
    case BoolKind => BoolConvert(lib.go, val)
    case DateTimeKind => DateTimeConvert(lib.go, val)
    case DateKind => DateConvert(lib, val)
    case EnumKind => if val == Str("") then Str(col.enumFirst) else val
    case IPKind => IPConvert(lib.go, val)
    case MapKind => (match col.scanType
      case Some(t) => if t.TMap? then BuildMap(lib.go, val, t) else Nil
      case None => Nil)
    case ArrayKind => (match col.scanType
      case Some(t) => if t.TSlice? then BuildSlice(lib.go, val, t) else Nil
      case None => Nil)
  }

  predicate Present(values: map<string, Val>, col: TableColumn) {
    col.name in values && !values[col.name].Nil?
  }

  // A missing or nil value takes the column's default, then its zero value.
  function ColumnValue(lib: ColumnLib, values: map<string, Val>, col: TableColumn, clock: nat): Val {
    if !Present(values, col) then
      match col.default
      case Some(Constant(v)) => v
      case Some(Function(name, _)) => Evaluate(lib, name, clock)
      case None => ZeroValue(col)
    else ConvertValue(lib, values[col.name], col)
  }

  // A Map or Array column receives a value of exactly the driver's type if and
  // only if the row has one, whatever it is, or the column has no default and is
  // not nullable. A default is written as text or as a time, and never has the
  // driver's type.
  lemma ContainerColumnTyped(lib: ColumnLib, values: map<string, Val>, name: string, colType: string,
                             dflt: string, clock: nat)
    requires var col := ParseColumn(lib, name, colType, dflt);
             col.scanType.Some? && Target(col.scanType.value)
    ensures var col := ParseColumn(lib, name, colType, dflt);
            ConverterProperties.Full(ColumnValue(lib, values, col, clock), col.scanType.value)
            <==> Present(values, col) || (dflt == "" && !col.isNullable)
  {
    var col := ParseColumn(lib, name, colType, dflt);
    if Present(values, col) {
      if col.kind.MapKind? {
        ConverterProperties.BuildMapSound(lib.go, values[name], col.scanType.value);
      } else {
        ConverterProperties.BuildSliceSound(lib.go, values[name], col.scanType.value);
      }
    }
  }

  // For example, a default that is a literal or any other unquoted expression but
  // a call of a supported function goes into the column as its own text.
  lemma ContainerDefaultIsText(lib: ColumnLib, values: map<string, Val>, name: string, colType: string,
                               dflt: string, clock: nat)
    requires dflt != "" && ParseFunctionCall(lib, dflt).None? && !Quoted(dflt)
    requires ParseColumn(lib, name, colType, dflt).scanType.Some?
    ensures var col := ParseColumn(lib, name, colType, dflt);
            !Present(values, col) ==> ColumnValue(lib, values, col, clock) == Str(dflt)
  {
  }

  // The Go type a scalar column's values have; None where it is not fixed.
  function ScalarType(kind: ColumnKind): Option<Type> {
    match kind
    case UnknownKind => Some(TString)
    case StringKind => Some(TString)
    case IntKind => Some(TInt(Int64))
    case FloatKind => Some(TFloat64)
    case DecimalKind => Some(TDecimal)
    case BoolKind => Some(TBool)
    case DateTimeKind => Some(TTime)
    case DateKind => Some(TTime)
    case IPKind => Some(TIP)
    case _ => None
  }

  // A value that is present is never written as NULL, nullable column or not: it
  // has the column's own type whatever type it came with.
  lemma PresentValueTyped(lib: ColumnLib, values: map<string, Val>, col: TableColumn, clock: nat)
    requires Present(values, col) && ScalarType(col.kind).Some?
    ensures HasType(ColumnValue(lib, values, col, clock), ScalarType(col.kind).value)
  {
  }

  // An absent value is NULL in a nullable column, under any stack of modifiers
  // that has a Nullable.
  lemma AbsentIsNull(lib: ColumnLib, values: map<string, Val>, name: string, ms: seq<Modifier>,
                     colType: string, clock: nat)
    requires Nullable in ms
    ensures var col := ParseColumn(lib, name, Wrap(ms, colType), "");
            !Present(values, col) ==> ColumnValue(lib, values, col, clock) == Nil
  {
    ModifiersOnlySetNullable(lib, name, ms, colType, "");
  }

  // ----- Schemas -------------------------------------------------------------

  datatype DescribeRow = DescribeRow(name: string, typeStr: string, defaultType: string, defaultExpr: string)

  predicate Insertable(r: DescribeRow) {
    r.defaultType != "MATERIALIZED" && r.defaultType != "ALIAS" && r.defaultType != "EPHEMERAL"
  }

  // The insertable columns of a DESCRIBE answer, parsed, in the server's order.
  function ParseSchema(lib: ColumnLib, rows: seq<DescribeRow>): seq<TableColumn> {
    if rows == [] then []
    else
      var last := rows[|rows| - 1];
      var before := ParseSchema(lib, rows[..|rows| - 1]);
      if Insertable(last) then before + [ParseColumn(lib, last.name, last.typeStr, last.defaultExpr)]
      else before
  }
}
