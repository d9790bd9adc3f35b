// What reaches a column: the schema a DESCRIBE answer becomes, the values of a
// row, defaults and zero values.
module ColumnProperties {
  import opened Common
  import opened Strconv
  import opened GoValues
  import opened Converter
  import opened ConverterProperties
  import opened ConverterIdentity
  import opened Columns
  import opened TypeModifiers

  // ----- Schemas -------------------------------------------------------------

  // The schema follows the server's order.
  lemma {:induction false} SchemaOfConcat(lib: ColumnLib, a: seq<DescribeRow>, b: seq<DescribeRow>)
    ensures ParseSchema(lib, a + b) == ParseSchema(lib, a) + ParseSchema(lib, b)
  {
    if b == [] {
      assert a + b == a;
    } else {
      assert (a + b)[..|a + b| - 1] == a + b[..|b| - 1];
      SchemaOfConcat(lib, a, b[..|b| - 1]);
    }
  }

  // A row of the answer gives no column exactly when its default is computed by
  // the server, and else one column with its name, its type and its default.
  lemma SchemaOfOne(lib: ColumnLib, r: DescribeRow)
    ensures ParseSchema(lib, [r]) == []
       <==> r.defaultType == "MATERIALIZED" || r.defaultType == "ALIAS" || r.defaultType == "EPHEMERAL"
    ensures ParseSchema(lib, [r]) != [] ==>
              (ParseSchema(lib, [r]) == [ParseColumn(lib, r.name, r.typeStr, r.defaultExpr)]
               && ParseSchema(lib, [r])[0].name == r.name && ParseSchema(lib, [r])[0].originalType == r.typeStr
               && (ParseSchema(lib, [r])[0].default.None? <==> r.defaultExpr == ""))
  {
    assert [r][..0] == [];
  }

  // Under any stack of modifiers a column has the base type's own text, is nullable
  // exactly when the stack says so, and takes the driver's type of a container and
  // the first label of an enum from the base type.
  lemma ColumnOfType(lib: ColumnLib, name: string, ms: seq<Modifier>, base: string, dflt: string)
    requires !HasPrefix(base, LOW_CARDINALITY) && !HasPrefix(base, NULLABLE)
    ensures var col := ParseColumn(lib, name, Wrap(ms, base), dflt);
            col.baseType == base && (col.isNullable <==> Nullable in ms)
            && (col.kind.EnumKind? ==> col.enumFirst == lib.firstEnum(base))
            && (col.kind.MapKind? && lib.scan(base).Some? && lib.scan(base).value.TMap? ==>
                  col.scanType == lib.scan(base))
            && (col.kind.ArrayKind? && lib.scan(base).Some? && lib.scan(base).value.TSlice? ==>
                  col.scanType == lib.scan(base))
  {
    ModifiersOnlySetNullable(lib, name, ms, base, dflt);
  }

  // ----- Present values ------------------------------------------------------

  // A value of the column's own Go type, given plainly or, unless it is an
  // address, behind one pointer, arrives unchanged.
  lemma OwnTypeArrives(lib: ColumnLib, values: map<string, Val>, col: TableColumn, clock: nat, v: Val, t: Type)
    requires ScalarType(col.kind) == Some(t) && HasType(v, t) && (t.TIP? ==> v.octets != [])
    requires col.name in values && (values[col.name] == v || (!t.TIP? && values[col.name] == PtrV(t, Some(v))))
    ensures ColumnValue(lib, values, col, clock) == v
  {
    TypeOfTyped(v, t);
  }

  // An integer of any Go type arrives in an integer column as itself, cut at
  // 2^63-1.
  lemma IntegerArrives(lib: ColumnLib, values: map<string, Val>, col: TableColumn, clock: nat, n: GoInt)
    requires col.kind == IntKind && col.name in values && values[col.name] == IntV(n)
    ensures ColumnValue(lib, values, col, clock)
         == IntV(GoInt(Int64, if n.i > 0x7FFF_FFFF_FFFF_FFFF then 0x7FFF_FFFF_FFFF_FFFF else n.i))
  {
    IntConvertSaturates(lib.go, n);
  }

  // A printed integer arrives as the integer.
  lemma PrintedIntegerArrives(lib: ColumnLib, values: map<string, Val>, col: TableColumn, clock: nat, i: int)
    requires col.kind == IntKind && InRange(Int64, i) && col.name in values && values[col.name] == Str(FormatInt(i))
    ensures ColumnValue(lib, values, col, clock) == IntV(GoInt(Int64, i))
  {
    ParseOfFormat(i);
  }

  // An enum column takes any value as it is, but the empty string as its first
  // label.
  lemma EnumArrives(lib: ColumnLib, values: map<string, Val>, col: TableColumn, clock: nat)
    requires col.kind == EnumKind && Present(values, col)
    ensures ColumnValue(lib, values, col, clock)
         == if values[col.name] == Str("") then Str(col.enumFirst) else values[col.name]
  {
  }

  // A Map or Array column keeps a value of the driver's type that conversion
  // leaves alone.
  lemma KeptContainerArrives(lib: ColumnLib, values: map<string, Val>, col: TableColumn, clock: nat, v: Val, t: Type)
    requires col.scanType == Some(t) && Target(t) && Ieee(lib.go)
    requires (col.kind == MapKind && t.TMap?) || (col.kind == ArrayKind && t.TSlice?)
    requires col.name in values && values[col.name] == v && HasType(v, t) && Kept(lib.go, v, t, 0)
    ensures ColumnValue(lib, values, col, clock) == v
  {
    KeptIsBuilt(lib.go, v, t);
    BuiltArrives(lib, values, col, clock, v, t);
  }

  lemma KeptIsBuilt(lib: GoLib, v: Val, t: Type)
    requires Ieee(lib) && Target(t) && HasType(v, t) && Kept(lib, v, t, 0)
    ensures t.TMap? ==> BuildMap(lib, v, t) == v
    ensures t.TSlice? ==> BuildSlice(lib, v, t) == v
  {
    ConvertElemIdentity(lib, v, t);
    BuiltIsConverted(lib, v, t);
  }

  lemma BuiltIsConverted(lib: GoLib, v: Val, t: Type)
    ensures t.TMap? ==> ConvertElem(lib, v, t) == Some(BuildMap(lib, v, t))
    ensures t.TSlice? ==> ConvertElem(lib, v, t) == Some(BuildSlice(lib, v, t))
  {
  }

  lemma BuiltArrives(lib: ColumnLib, values: map<string, Val>, col: TableColumn, clock: nat, v: Val, t: Type)
    requires col.scanType == Some(t) && col.name in values && values[col.name] == v && !v.Nil?
    requires (col.kind == MapKind && t.TMap? && BuildMap(lib.go, v, t) == v)
          || (col.kind == ArrayKind && t.TSlice? && BuildSlice(lib.go, v, t) == v)
    ensures ColumnValue(lib, values, col, clock) == v
  {
  }

  // Without a type from the driver a Map or Array column gets NULL.
  lemma UnresolvedContainer(lib: ColumnLib, values: map<string, Val>, col: TableColumn, clock: nat)
    requires (col.kind == MapKind || col.kind == ArrayKind) && col.scanType.None? && Present(values, col)
    ensures ColumnValue(lib, values, col, clock) == Nil
  {
  }

  // Nothing but the row's own value under the column's name matters.
  lemma OtherKeysDoNotMatter(lib: ColumnLib, a: map<string, Val>, b: map<string, Val>, col: TableColumn, clock: nat)
    requires col.name in a <==> col.name in b
    requires col.name in a ==> a[col.name] == b[col.name]
    ensures ColumnValue(lib, a, col, clock) == ColumnValue(lib, b, col, clock)
  {
  }

  // ----- Absent values -------------------------------------------------------

  // Without a default, a column that is not nullable gets the zero value of its
  // Go type; a time the first one ClickHouse can store, an address ::.
  lemma AbsentIsZero(lib: ColumnLib, values: map<string, Val>, col: TableColumn, clock: nat, t: Type)
    requires !Present(values, col) && col.default.None? && !col.isNullable
    requires ScalarType(col.kind) == Some(t) && col.kind != UnknownKind
    ensures ColumnValue(lib, values, col, clock)
         == if t.TTime? then TimeV(62_135_596_800) else if t.TIP? then IPV(ZERO_IP) else Zero(t)
  {
  }

  // A default that is a printed integer becomes that integer in an integer column.
  lemma IntegerDefault(lib: ColumnLib, values: map<string, Val>, name: string, colType: string, i: int, clock: nat)
    requires InRange(Int64, i) && ParseFunctionCall(lib, FormatInt(i)).None?
    ensures var col := ParseColumn(lib, name, colType, FormatInt(i));
            col.kind == IntKind && !Present(values, col)
            ==> ColumnValue(lib, values, col, clock) == IntV(GoInt(Int64, i))
  {
    IntegerConstant(lib, i);
    FormatIsPlain(i);
  }

  lemma IntegerConstant(lib: ColumnLib, i: int)
    requires InRange(Int64, i) && ParseFunctionCall(lib, FormatInt(i)).None?
    ensures ParseDefault(lib, FormatInt(i), IntKind) == Constant(IntV(GoInt(Int64, i)))
  {
    FormatIsPlain(i);
    ParseOfFormat(i);
  }

  lemma FormatIsPlain(i: int)
    ensures FormatInt(i) != "" && !Quoted(FormatInt(i))
  {
    if i >= 0 { assert IsDigit(FormatInt(i)[0]); }
  }

  lemma TrimOfQuoted(s: string)
    requires s == "" || (s[0] != '\'' && s[|s| - 1] != '\'')
    ensures Quoted("'" + s + "'") && TrimQuotes("'" + s + "'") == s
  {
    var q, rest := "'" + s + "'", s + "'";
    assert q[0] == '\'' && q[|q| - 1] == '\'' && q[1..] == rest;
    assert TrimQuotes(q) == TrimQuotes(rest);
    if s == "" {
      assert rest[0] == '\'' && rest[1..] == s && TrimQuotes(rest) == TrimQuotes(s);
    } else {
      assert rest[0] == s[0] && rest[|rest| - 1] == '\'' && rest[..|rest| - 1] == s;
      assert TrimQuotes(rest) == TrimQuotes(s) == s;
    }
  }

  // A quoted default is its text without the quotes, whatever the column.
  lemma QuotedDefault(lib: ColumnLib, values: map<string, Val>, name: string, colType: string, s: string, clock: nat)
    requires s == "" || (s[0] != '\'' && s[|s| - 1] != '\'')
    requires ParseFunctionCall(lib, "'" + s + "'").None?
    ensures var col := ParseColumn(lib, name, colType, "'" + s + "'");
            !Present(values, col) ==> ColumnValue(lib, values, col, clock) == Str(s)
  {
    TrimOfQuoted(s);
  }

  // A default that calls a function of the server's clock is evaluated when the
  // row is inserted, whatever the column.
  lemma ClockDefault(lib: ColumnLib, values: map<string, Val>, name: string, colType: string, dflt: string,
                     f: string, args: seq<string>, clock: nat)
    requires dflt != "" && lib.functionCall(dflt) == Some((f, args))
    ensures var col := ParseColumn(lib, name, colType, dflt);
            !Present(values, col) ==>
              (f == "now" || f == "now64" ==> ColumnValue(lib, values, col, clock) == TimeV(lib.now(clock)))
              && (f == "today" ==> ColumnValue(lib, values, col, clock) == TimeV(lib.today(clock)))
              && (f == "yesterday" ==> ColumnValue(lib, values, col, clock) == TimeV(lib.yesterday(clock)))
              && (f == "generateuuidv4" ==> ColumnValue(lib, values, col, clock) == Str(lib.uuid(clock)))
  {
  }
}
