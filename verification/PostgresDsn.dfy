// The keyword/value connection string printed by db/postgres_config.go, and the
// parser of section 34.1.1.1 (Keyword/Value Connection Strings) of the
// PostgreSQL 16 documentation it has to satisfy.
module PostgresDsn {
  import opened Common
  import Strconv

  // ----- The grammar's reader ------------------------------------------------

  predicate IsBlank(c: char) {
    c == ' ' || c == '\t' || c == '\n' || c == '\r' || c == '\U{0B}' || c == '\U{0C}'
  }

  predicate HasBlank(s: string) {
    exists i :: 0 <= i < |s| && IsBlank(s[i])
  }

  function SkipBlanks(s: string): (r: string)
    ensures |r| <= |s|
    ensures r != "" ==> !IsBlank(r[0])
  {
    if s != "" && IsBlank(s[0]) then SkipBlanks(s[1..]) else s
  }

  // A keyword runs up to a blank or an equal sign.
  function ReadKey(s: string): (r: (string, string))
    ensures |r.0| + |r.1| == |s|
  {
    if s == "" || s[0] == '=' || IsBlank(s[0]) then ("", s)
    else var (key, rest) := ReadKey(s[1..]); ([s[0]] + key, rest)
  }

  // An unquoted value runs up to a blank; a backslash takes the next character
  // literally.
  function ReadPlain(s: string): (r: (string, string))
    ensures |r.1| <= |s|
  {
    if s == "" || IsBlank(s[0]) then ("", s)
    else if s[0] == '\\' then
      if |s| == 1 then ("", "")
      else var (v, rest) := ReadPlain(s[2..]); ([s[1]] + v, rest)
    else var (v, rest) := ReadPlain(s[1..]); ([s[0]] + v, rest)
  }

  // The inside of a quoted value, up to and including the closing quote. A
  // missing closing quote is an error.
  function ReadQuoted(s: string): (r: Option<(string, string)>)
    ensures r.Some? ==> |r.value.1| <= |s|
  {
    if s == "" then None
    else if s[0] == '\'' then Some(("", s[1..]))
    else if s[0] == '\\' then
      if |s| == 1 then None
      else match ReadQuoted(s[2..])
        case None => None
        case Some((v, rest)) => Some(([s[1]] + v, rest))
    else match ReadQuoted(s[1..])
      case None => None
      case Some((v, rest)) => Some(([s[0]] + v, rest))
  }

  function ReadValue(s: string): (r: Option<(string, string)>)
    ensures r.Some? ==> |r.value.1| <= |s|
  {
    if s != "" && s[0] == '\'' then ReadQuoted(s[1..]) else Some(ReadPlain(s))
  }

  type Setting = (string, string)

  // keyword, optional blanks, '=', optional blanks, value.
  function ReadSetting(s: string): (r: Option<(Setting, string)>)
    ensures r.Some? ==> |r.value.1| < |s|
  {
    var (key, afterKey) := ReadKey(s);
    var eq := SkipBlanks(afterKey);
    if eq == "" || eq[0] != '=' then None
    else match ReadValue(SkipBlanks(eq[1..]))
      case None => None
      case Some((v, rest)) => Some(((key, v), rest))
  }

  function Parse(s: string): Option<seq<Setting>>
    decreases |s|
  {
    var t := SkipBlanks(s);
    if t == "" then Some([])
    else match ReadSetting(t)
      case None => None
      case Some((setting, rest)) =>
        match Parse(rest)
        case None => None
        case Some(more) => Some([setting] + more)
  }

  // ----- The printer ---------------------------------------------------------

  predicate NeedsQuotes(v: string) {
    exists i :: 0 <= i < |v| && (v[i] == ' ' || v[i] == '\'' || v[i] == '\\')
  }

  // The replacer's single pass: every backslash and quote gets a backslash.
  function Escape(v: string): string {
    if v == "" then ""
    else (if v[0] == '\\' || v[0] == '\'' then ['\\', v[0]] else [v[0]]) + Escape(v[1..])
  }

  function PgEscape(v: string): string {
    if v == "" then "''"
    else if !NeedsQuotes(v) then v
    else "'" + Escape(v) + "'"
  }

  datatype PostgresConfig = PostgresConfig(
    host: string, port: int, user: string, password: string, database: string,
    sslMode: string, timeZone: string, searchPath: string, applicationName: string)

  // The settings a configuration means to send, in order.
  function Settings(c: PostgresConfig): seq<Setting> {
    [("host", c.host), ("port", Strconv.FormatInt(c.port)), ("user", c.user),
     ("password", c.password), ("dbname", c.database), ("sslmode", c.sslMode),
     ("TimeZone", c.timeZone), ("search_path", c.searchPath)]
    + if c.applicationName != "" then [("application_name", c.applicationName)] else []
  }

  function Part(key: string, text: string): string {
    key + "=" + text
  }

  function Print(ss: seq<Setting>): string {
    if ss == [] then ""
    else Part(ss[0].0, PgEscape(ss[0].1)) + (if |ss| == 1 then "" else " " + Print(ss[1..]))
  }

  function Join(parts: seq<string>, sep: string): string {
    if parts == [] then ""
    else if |parts| == 1 then parts[0]
    else parts[0] + sep + Join(parts[1..], sep)
  }

  lemma PortIsPlain(port: int)
    ensures PgEscape(Strconv.FormatInt(port)) == Strconv.FormatInt(port)
    ensures !HasBlank(Strconv.FormatInt(port))
  {
    var s := Strconv.FormatInt(port);
    forall i | 0 <= i < |s|
      ensures Strconv.IsDigit(s[i]) || s[i] == '-'
    {
      if port < 0 && i > 0 { assert s[i] == Strconv.FormatNat(-port)[i - 1]; }
    }
  }

  lemma {:induction false} JoinIsPrint(parts: seq<string>, ss: seq<Setting>)
    requires |parts| == |ss|
    requires forall i :: 0 <= i < |ss| ==> parts[i] == Part(ss[i].0, PgEscape(ss[i].1))
    ensures Join(parts, " ") == Print(ss)
  {
    if |ss| > 1 {
      JoinIsPrint(parts[1..], ss[1..]);
      assert parts[0] + " " + Join(parts[1..], " ")
          == Part(ss[0].0, PgEscape(ss[0].1)) + (" " + Print(ss[1..]));
    }
  }

  // ----- Reading back what was printed --------------------------------------

  // The values the printer can carry: pgEscape looks only for a space, a quote
  // or a backslash, so another blank survives only next to one of those.
  predicate Carried(v: string) {
    NeedsQuotes(v) || !HasBlank(v)
  }

  predicate IsKey(k: string) {
    k != "" && forall i :: 0 <= i < |k| ==> !IsBlank(k[i]) && k[i] != '='
  }

  // What may follow a printed value: nothing, or a space and another setting.
  predicate IsTail(t: string) {
    t == "" || (|t| > 1 && t[0] == ' ' && !IsBlank(t[1]) && t[1] != '\'' && t[1] != '\\')
  }

  lemma {:induction false} ReadKeyOfKey(k: string, rest: string)
    requires forall i :: 0 <= i < |k| ==> !IsBlank(k[i]) && k[i] != '='
    requires rest != "" && rest[0] == '='
    ensures ReadKey(k + rest) == (k, rest)
  {
    if k == "" {
      assert k + rest == rest;
    } else {
      assert (k + rest)[1..] == k[1..] + rest;
      ReadKeyOfKey(k[1..], rest);
      assert [k[0]] + k[1..] == k;
    }
  }

  lemma {:induction false} ReadPlainOfPlain(v: string, t: string)
    requires !HasBlank(v) && !NeedsQuotes(v)
    requires t == "" || IsBlank(t[0])
    ensures ReadPlain(v + t) == (v, t)
  {
    if v == "" {
      assert v + t == t;
    } else {
      assert (v + t)[1..] == v[1..] + t;
      assert forall i :: 0 <= i < |v[1..]| ==> v[1..][i] == v[i + 1];
      ReadPlainOfPlain(v[1..], t);
      assert [v[0]] + v[1..] == v;
    }
  }

  lemma ReadQuotedEscaped(c: char, rest: string)
    requires ReadQuoted(rest).Some?
    ensures ReadQuoted(['\\', c] + rest) == Some(([c] + ReadQuoted(rest).value.0, ReadQuoted(rest).value.1))
  {
    assert (['\\', c] + rest)[2..] == rest;
  }

  lemma ReadQuotedLiteral(c: char, rest: string)
    requires ReadQuoted(rest).Some? && c != '\'' && c != '\\'
    ensures ReadQuoted([c] + rest) == Some(([c] + ReadQuoted(rest).value.0, ReadQuoted(rest).value.1))
  {
    assert ([c] + rest)[1..] == rest;
  }

  lemma {:induction false} ReadQuotedOfEscape(v: string, t: string)
    ensures ReadQuoted(Escape(v) + "'" + t) == Some((v, t))
  {
    if v == "" {
      var s := Escape(v) + "'" + t;
      assert s[0] == '\'' && s[1..] == t;
    } else {
      var rest := Escape(v[1..]) + "'" + t;
      ReadQuotedOfEscape(v[1..], t);
      assert [v[0]] + v[1..] == v;
      if v[0] == '\\' || v[0] == '\'' {
        assert Escape(v) + "'" + t == ['\\', v[0]] + rest;
        ReadQuotedEscaped(v[0], rest);
      } else {
        assert Escape(v) + "'" + t == [v[0]] + rest;
        ReadQuotedLiteral(v[0], rest);
      }
    }
  }

  lemma ReadSettingOfPart(k: string, text: string, t: string)
    requires IsKey(k)
    ensures ReadSetting(Part(k, text) + t)
         == match ReadValue(SkipBlanks(text + t))
            case None => None
            case Some((v, rest)) => Some(((k, v), rest))
  {
    var eq := "=" + text + t;
    assert Part(k, text) + t == k + eq;
    ReadKeyOfKey(k, eq);
    assert eq[1..] == text + t;
  }

  // A carried value is read back exactly, whatever follows.
  lemma ReadSettingOfCarried(k: string, v: string, t: string)
    requires IsKey(k) && Carried(v)
    requires t == "" || IsBlank(t[0])
    ensures ReadSetting(Part(k, PgEscape(v)) + t) == Some(((k, v), t))
  {
    var after := PgEscape(v) + t;
    ReadSettingOfPart(k, PgEscape(v), t);
    if v == "" {
      assert after[1..][0] == '\'' && after[1..][1..] == t;
    } else if NeedsQuotes(v) {
      assert after[1..] == Escape(v) + "'" + t;
      ReadQuotedOfEscape(v, t);
    } else {
      assert after[0] == v[0];
      ReadPlainOfPlain(v, t);
    }
  }

  lemma {:induction false} SkipBlanksSplit(v: string, t: string)
    ensures SkipBlanks(v + t) == if SkipBlanks(v) == "" then SkipBlanks(t) else SkipBlanks(v) + t
    ensures |SkipBlanks(v)| <= |v| && SkipBlanks(v) == v[|v| - |SkipBlanks(v)|..]
  {
    if v == "" {
      assert v + t == t;
    } else if IsBlank(v[0]) {
      assert (v + t)[1..] == v[1..] + t;
      SkipBlanksSplit(v[1..], t);
    }
  }

  // Without backslashes before the first blank, an unquoted read has no blank.
  lemma {:induction false} ReadPlainHasNoBlank(v: string, t: string)
    requires !NeedsQuotes(v)
    requires t == "" || IsBlank(t[0])
    ensures !HasBlank(ReadPlain(v + t).0)
  {
    if v == "" {
      assert v + t == t;
    } else if !IsBlank(v[0]) {
      assert (v + t)[1..] == v[1..] + t;
      assert forall i :: 0 <= i < |v[1..]| ==> v[1..][i] == v[i + 1];
      ReadPlainHasNoBlank(v[1..], t);
    }
  }

  // A value that is not carried is never read back: the reader fails or stores
  // a different value under the key.
  lemma ReadSettingOfLost(k: string, v: string, t: string)
    requires IsKey(k) && !Carried(v) && IsTail(t)
    ensures var r := ReadSetting(Part(k, PgEscape(v)) + t);
            r.Some? ==> r.value.0 != (k, v)
  {
    ReadSettingOfPart(k, PgEscape(v), t);
    SkipBlanksSplit(v, t);
    var w := SkipBlanks(v);
    if w == "" {
      assert IsBlank(v[0]) by { assert v != ""; }
      if t != "" {
        assert SkipBlanks(t) == t[1..] by { assert SkipBlanks(t[1..]) == t[1..]; }
      }
    } else {
      assert forall i :: 0 <= i < |w| ==> w[i] == v[|v| - |w| + i];
      ReadPlainHasNoBlank(w, t);
    }
  }

  lemma PrintStart(ss: seq<Setting>)
    requires ss != [] && IsKey(ss[0].0)
    ensures Print(ss) != "" && Print(ss)[0] == ss[0].0[0] && SkipBlanks(Print(ss)) == Print(ss)
  {
  }

  predicate WellKeyed(ss: seq<Setting>) {
    forall i :: 0 <= i < |ss| ==> IsKey(ss[i].0) && ss[i].0[0] != '\'' && ss[i].0[0] != '\\'
  }

  // The printed text parses to exactly the printed settings if and only if every
  // value is carried.
  lemma {:induction false} ParseOfPrint(ss: seq<Setting>)
    requires WellKeyed(ss)
    ensures Parse(Print(ss)) == Some(ss) <==> forall i :: 0 <= i < |ss| ==> Carried(ss[i].1)
  {
    if ss != [] {
      PrintStart(ss);
      var (k, v) := ss[0];
      var more := ss[1..];
      var t := if more == [] then "" else " " + Print(more);
      assert Print(ss) == Part(k, PgEscape(v)) + t;
      ParseOfPrint(more);
      assert ss == [(k, v)] + more;
      if more != [] {
        PrintStart(more);
        assert t[1..] == Print(more);
        assert SkipBlanks(t) == Print(more);
      }
      assert Parse(t) == Parse(Print(more));
      if Carried(v) {
        ReadSettingOfCarried(k, v, t);
        assert (forall i :: 0 <= i < |ss| ==> Carried(ss[i].1))
          <==> (forall i :: 0 <= i < |more| ==> Carried(more[i].1)) by {
          assert forall i :: 0 <= i < |more| ==> more[i] == ss[i + 1];
          assert forall i :: 0 < i < |ss| ==> ss[i] == more[i - 1];
        }
        if Parse(Print(more)).Some? {
          assert ([(k, v)] + Parse(Print(more)).value)[1..] == Parse(Print(more)).value;
        }
      } else {
        ReadSettingOfLost(k, v, t);
        assert !Carried(ss[0].1);
      }
    }
  }

  // ----- The configuration's string -----------------------------------------

  // What a caller can check on a configuration before printing it.
  predicate Printable(c: PostgresConfig) {
    Carried(c.host) && Carried(c.user) && Carried(c.password) && Carried(c.database)
    && Carried(c.sslMode) && Carried(c.timeZone) && Carried(c.searchPath) && Carried(c.applicationName)
  }

  lemma SettingsWellKeyed(c: PostgresConfig)
    ensures WellKeyed(Settings(c))
  {
    assert IsKey("host") && IsKey("port") && IsKey("user") && IsKey("password");
    assert IsKey("dbname") && IsKey("sslmode") && IsKey("TimeZone") && IsKey("search_path");
    assert IsKey("application_name");
  }

  lemma DsnRoundTrip(c: PostgresConfig)
    ensures Parse(Print(Settings(c))) == Some(Settings(c)) <==> Printable(c)
  {
    var ss := Settings(c);
    PortIsPlain(c.port);
    SettingsWellKeyed(c);
    ParseOfPrint(ss);
    assert ss[0].1 == c.host && ss[1].1 == Strconv.FormatInt(c.port) && ss[2].1 == c.user
        && ss[3].1 == c.password && ss[4].1 == c.database && ss[5].1 == c.sslMode
        && ss[6].1 == c.timeZone && ss[7].1 == c.searchPath;
    if |ss| > 8 { assert ss[8].1 == c.applicationName; }
  }

  method Dsn(c: PostgresConfig) returns (s: string)
    ensures s == Print(Settings(c))
    ensures Parse(s) == Some(Settings(c)) <==> Printable(c)
  {
    var parts := [
      Part("host", PgEscape(c.host)),
      Part("port", Strconv.FormatInt(c.port)),
      Part("user", PgEscape(c.user)),
      Part("password", PgEscape(c.password)),
      Part("dbname", PgEscape(c.database)),
      Part("sslmode", PgEscape(c.sslMode)),
      Part("TimeZone", PgEscape(c.timeZone)),
      Part("search_path", PgEscape(c.searchPath))
    ];
    if c.applicationName != "" {
      parts := parts + [Part("application_name", PgEscape(c.applicationName))];
    }
    PortIsPlain(c.port);
    JoinIsPrint(parts, Settings(c));
    DsnRoundTrip(c);
    s := Join(parts, " ");
  }

  // The value of a keyword, the first one given.
  function ValueOf(ss: seq<Setting>, key: string): Option<string> {
    if ss == [] then None
    else if ss[0].0 == key then Some(ss[0].1)
    else ValueOf(ss[1..], key)
  }

  predicate UniqueKeys(ss: seq<Setting>) {
    forall i, j :: 0 <= i < j < |ss| ==> ss[i].0 != ss[j].0
  }

  lemma {:induction false} ValueAt(ss: seq<Setting>, i: nat)
    requires UniqueKeys(ss) && i < |ss|
    ensures ValueOf(ss, ss[i].0) == Some(ss[i].1)
  {
    if i > 0 { ValueAt(ss[1..], i - 1); }
  }

  lemma {:induction false} NoValue(ss: seq<Setting>, key: string)
    requires forall j :: 0 <= j < |ss| ==> ss[j].0 != key
    ensures ValueOf(ss, key) == None
  {
    if ss != [] { NoValue(ss[1..], key); }
  }

  // The keywords differ in length or in their first letter.
  function Sign(key: string): (nat, char) {
    (|key|, if key == "" then ' ' else key[0])
  }

  lemma SettingsUnique(c: PostgresConfig)
    ensures UniqueKeys(Settings(c))
    ensures forall i :: 0 <= i < 8 ==> Settings(c)[i].0 != "application_name"
  {
    assert Sign("host") == (4, 'h') && Sign("port") == (4, 'p') && Sign("user") == (4, 'u');
    assert Sign("password") == (8, 'p') && Sign("dbname") == (6, 'd') && Sign("sslmode") == (7, 's');
    assert Sign("TimeZone") == (8, 'T') && Sign("search_path") == (11, 's') && Sign("application_name") == (16, 'a');
    var ss := Settings(c);
    assert forall i, j :: 0 <= i < j < |ss| ==> Sign(ss[i].0) != Sign(ss[j].0);
    assert forall i :: 0 <= i < 8 ==> Sign(ss[i].0) != Sign("application_name");
  }

  lemma ValuesOfSettings(c: PostgresConfig)
    ensures var ss := Settings(c);
            ValueOf(ss, "host") == Some(c.host) && ValueOf(ss, "port") == Some(Strconv.FormatInt(c.port))
            && ValueOf(ss, "user") == Some(c.user) && ValueOf(ss, "password") == Some(c.password)
            && ValueOf(ss, "dbname") == Some(c.database) && ValueOf(ss, "sslmode") == Some(c.sslMode)
            && ValueOf(ss, "TimeZone") == Some(c.timeZone) && ValueOf(ss, "search_path") == Some(c.searchPath)
            && ValueOf(ss, "application_name") == (if c.applicationName == "" then None else Some(c.applicationName))
  {
    var ss := Settings(c);
    SettingsUnique(c);
    forall i: nat | i < |ss| ensures ValueOf(ss, ss[i].0) == Some(ss[i].1) { ValueAt(ss, i); }
    assert ss[0].0 == "host" && ss[1].0 == "port" && ss[2].0 == "user" && ss[3].0 == "password";
    assert ss[4].0 == "dbname" && ss[5].0 == "sslmode" && ss[6].0 == "TimeZone" && ss[7].0 == "search_path";
    if c.applicationName == "" { NoValue(ss, "application_name"); } else { assert ss[8].0 == "application_name"; }
  }

  // A reader of the connection string finds every field of a printable
  // configuration under its keyword, the application name only if there is one,
  // and nothing else.
  lemma FieldsUnderTheirKeys(c: PostgresConfig)
    requires Printable(c)
    ensures Parse(Print(Settings(c))).Some?
    ensures var ss := Parse(Print(Settings(c))).value;
            ValueOf(ss, "host") == Some(c.host) && ValueOf(ss, "port") == Some(Strconv.FormatInt(c.port))
            && ValueOf(ss, "user") == Some(c.user) && ValueOf(ss, "password") == Some(c.password)
            && ValueOf(ss, "dbname") == Some(c.database) && ValueOf(ss, "sslmode") == Some(c.sslMode)
            && ValueOf(ss, "TimeZone") == Some(c.timeZone) && ValueOf(ss, "search_path") == Some(c.searchPath)
            && ValueOf(ss, "application_name") == (if c.applicationName == "" then None else Some(c.applicationName))
            && |ss| == if c.applicationName == "" then 8 else 9
  {
    DsnRoundTrip(c);
    ValuesOfSettings(c);
  }

  // No two printable configurations share a connection string.
  lemma DsnInjective(c: PostgresConfig, d: PostgresConfig)
    requires Printable(c) && Printable(d)
    requires Print(Settings(c)) == Print(Settings(d))
    ensures c == d
  {
    DsnRoundTrip(c);
    DsnRoundTrip(d);
    var a, b := Settings(c), Settings(d);
    assert a == b;
    assert a[0] == b[0] && a[1] == b[1] && a[2] == b[2] && a[3] == b[3] && a[4] == b[4]
        && a[5] == b[5] && a[6] == b[6] && a[7] == b[7];
    if |a| == 9 { assert a[8] == b[8]; }
    Strconv.FormatInjective(c.port, d.port);
  }

  // For one value the condition is exact: a lone tab is printed bare and lost.
  lemma PgEscapeExact(k: string, v: string)
    requires IsKey(k) && k[0] != '\'' && k[0] != '\\'
    ensures Parse(Part(k, PgEscape(v))) == Some([(k, v)]) <==> Carried(v)
  {
    ParseOfPrint([(k, v)]);
    assert Print([(k, v)]) == Part(k, PgEscape(v)) + "" == Part(k, PgEscape(v));
    assert [(k, v)][0].1 == v;
  }

  lemma TabIsLost()
    ensures !Carried("a\tb") && Parse(Part("password", PgEscape("a\tb"))) != Some([("password", "a\tb")])
    ensures Carried("a\t b") && Parse(Part("password", PgEscape("a\t b"))) == Some([("password", "a\t b")])
  {
    assert IsBlank("a\tb"[1]);
    assert !NeedsQuotes("a\tb");
    assert "a\t b"[2] == ' ';
    PgEscapeExact("password", "a\tb");
    PgEscapeExact("password", "a\t b");
  }
}
