// Decimal printing and parsing of integers, as Go's strconv does for base 10
// and 64 bits. Shared by the column converters and the DSN printer.
module Strconv {
  import opened Common

  const MAX_INT64: int := 0x7FFF_FFFF_FFFF_FFFF
  const MIN_INT64: int := -0x8000_0000_0000_0000

  predicate IsDigit(c: char) {
    '0' <= c <= '9'
  }

  predicate AllDigits(s: string) {
    forall i :: 0 <= i < |s| ==> IsDigit(s[i])
  }

  function DigitValue(c: char): nat
    requires IsDigit(c)
  {
    c as int - '0' as int
  }

  function FormatNat(n: nat): (s: string)
    ensures s != "" && AllDigits(s)
  {
    if n < 10 then [('0' as int + n) as char]
    else FormatNat(n / 10) + [('0' as int + n % 10) as char]
  }

  function FormatInt(v: int): string {
    if v < 0 then "-" + FormatNat(-v) else FormatNat(v)
  }

  function NatValue(s: string): nat
    requires AllDigits(s)
  {
    if s == "" then 0 else 10 * NatValue(s[..|s| - 1]) + DigitValue(s[|s| - 1])
  }

  // strconv.ParseInt(s, 10, 64): an optional sign, at least one digit, nothing
  // else, and a value that fits 64 bits; every other input is an error.
  function ParseInt(s: string): Option<int> {
    if s == "" then None
    else
      var negative := s[0] == '-';
      var body := if s[0] == '-' || s[0] == '+' then s[1..] else s;
      if body == "" || !AllDigits(body) then None
      else
        var n: int := NatValue(body);
        if negative then (if -n < MIN_INT64 then None else Some(-n))
        else (if n > MAX_INT64 then None else Some(n))
  }

  lemma {:induction false} NatValueOfFormat(n: nat)
    ensures NatValue(FormatNat(n)) == n
  {
    if n >= 10 {
      NatValueOfFormat(n / 10);
      var s := FormatNat(n);
      assert s[..|s| - 1] == FormatNat(n / 10);
    }
  }

  // Printing then parsing gives the number back exactly when it fits 64 bits;
  // a larger or smaller number is a range error, never a different number.
  lemma ParseOfFormat(v: int)
    ensures ParseInt(FormatInt(v)) == if MIN_INT64 <= v <= MAX_INT64 then Some(v) else None
  {
    if v < 0 { ParseOfNegative(v); } else { ParseOfNat(v); }
  }

  lemma ParseOfNat(n: nat)
    ensures ParseInt(FormatNat(n)) == if n <= MAX_INT64 then Some(n) else None
  {
    NatValueOfFormat(n);
    assert IsDigit(FormatNat(n)[0]);
  }

  lemma ParseOfNegative(v: int)
    requires v < 0
    ensures ParseInt(FormatInt(v)) == if v >= MIN_INT64 then Some(v) else None
  {
    var s := FormatInt(v);
    NatValueOfFormat(-v);
    assert s[0] == '-' && s[1..] == FormatNat(-v);
  }

  lemma FormatInjective(v: int, w: int)
    requires FormatInt(v) == FormatInt(w)
    ensures v == w
  {
    if v >= 0 { assert IsDigit(FormatNat(v)[0]); }
    if w >= 0 { assert IsDigit(FormatNat(w)[0]); }
    var a, b := if v < 0 then -v else v, if w < 0 then -w else w;
    NatValueOfFormat(a);
    NatValueOfFormat(b);
    if v < 0 && w < 0 {
      assert FormatInt(v)[1..] == FormatNat(a);
      assert FormatInt(w)[1..] == FormatNat(b);
    }
  }

  // Nothing else parses: there must be a digit, and only the first character may
  // be a sign.
  lemma ParseNeedsDigits(s: string)
    requires ParseInt(s).Some?
    ensures |s| >= 1 && (IsDigit(s[0]) || ((s[0] == '-' || s[0] == '+') && |s| >= 2))
    ensures forall i :: 1 <= i < |s| ==> IsDigit(s[i])
  {
    forall i | 1 <= i < |s| ensures IsDigit(s[i]) {
      if s[0] == '-' || s[0] == '+' { assert s[1..][i - 1] == s[i]; }
    }
  }

  // Leading zeros and a plus sign do not change a number.
  lemma PlusAndZeros(n: nat)
    requires n <= MAX_INT64
    ensures ParseInt("+" + FormatNat(n)) == ParseInt(FormatNat(n)) == Some(n)
    ensures ParseInt("0" + FormatNat(n)) == Some(n)
  {
    ParseOfFormat(n);
    assert ("+" + FormatNat(n))[1..] == FormatNat(n);
    ZeroInFront(FormatNat(n));
    assert AllDigits("0" + FormatNat(n));
  }

  lemma {:induction false} ZeroInFront(s: string)
    requires AllDigits(s)
    ensures AllDigits("0" + s) && NatValue("0" + s) == NatValue(s)
  {
    if s == "" {
      assert "0" + s == "0";
    } else {
      ZeroInFront(s[..|s| - 1]);
      assert ("0" + s)[..|s|] == "0" + s[..|s| - 1];
    }
  }
}
