// Small shared vocabulary: optional values and results.
module Common {
  datatype Option<+T> = None | Some(value: T)

  datatype Result<+T, +E> = Ok(value: T) | Err(error: E)

  // strings.Contains
  predicate Contains(s: string, p: string) {
    p <= s || (s != "" && Contains(s[1..], p))
  }

  // p stands somewhere in s.
  predicate Within(s: string, p: string) {
    exists i :: 0 <= i <= |s| && p <= s[i..]
  }

  lemma {:induction false} ContainsIsWithin(s: string, p: string)
    ensures Contains(s, p) <==> Within(s, p)
  {
    if p <= s {
      assert p <= s[0..];
    } else if s != "" {
      ContainsIsWithin(s[1..], p);
      if Within(s[1..], p) {
        var i :| 0 <= i <= |s[1..]| && p <= s[1..][i..];
        assert s[1..][i..] == s[i + 1..];
      }
      if Within(s, p) {
        var i :| 0 <= i <= |s| && p <= s[i..];
        assert i > 0 && s[i..] == s[1..][i - 1..];
      }
    }
  }
}
