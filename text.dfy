/**
 * String trimming as done by `String.prototype.trim`, by the `trim: true`
 * option of the Mongoose schemas and by the `trim()` sanitizer of the request
 * validators: every leading and trailing white-space or line-terminator code
 * point is removed.
 */
module Text {

  /** The JavaScript white-space and line-terminator code points. */
  predicate IsSpace(c: char) {
    || c == '\t' || c == '\n' || c == '\U{B}' || c == '\U{C}' || c == '\r' || c == ' '
    || c == '\U{A0}' || c == '\U{1680}' || ('\U{2000}' <= c <= '\U{200A}')
    || c == '\U{2028}' || c == '\U{2029}' || c == '\U{202F}' || c == '\U{205F}'
    || c == '\U{3000}' || c == '\U{FEFF}'
  }

  /** True when the string holds nothing but white space. */
  predicate Blank(s: string) {
    forall i :: 0 <= i < |s| ==> IsSpace(s[i])
  }

  /** True when neither end of the string is white space. */
  predicate Trimmed(s: string) {
    s == [] || (!IsSpace(s[0]) && !IsSpace(s[|s| - 1]))
  }

  /**
   * Drops the leading white space: what is dropped is all white space and
   * what is kept does not start with any. TrimStartIsSuffix shows that what
   * is kept is the rest of the input.
   */
  function TrimStart(s: string): (r: string)
    ensures |r| <= |s|
    ensures r == [] || !IsSpace(r[0])
    ensures forall i :: 0 <= i < |s| - |r| ==> IsSpace(s[i])
  {
    if |s| > 0 && IsSpace(s[0]) then TrimStart(s[1..]) else s
  }

  /** TrimStart keeps a suffix of its input. */
  lemma {:induction false} TrimStartIsSuffix(s: string)
    ensures TrimStart(s) == s[|s| - |TrimStart(s)|..]
  {
    if |s| > 0 && IsSpace(s[0]) {
      TrimStartIsSuffix(s[1..]);
      assert s[1..][|s| - 1 - |TrimStart(s)|..] == s[|s| - |TrimStart(s)|..];
    }
  }

  /**
   * Drops the trailing white space: what is dropped is all white space and
   * what is kept does not end with any. TrimEndIsPrefix shows that what is
   * kept is the start of the input.
   */
  function TrimEnd(s: string): (r: string)
    ensures |r| <= |s|
    ensures r == [] || !IsSpace(r[|r| - 1])
    ensures forall i :: |r| <= i < |s| ==> IsSpace(s[i])
  {
    if |s| > 0 && IsSpace(s[|s| - 1]) then TrimEnd(s[..|s| - 1]) else s
  }

  /** TrimEnd keeps a prefix of its input. */
  lemma {:induction false} TrimEndIsPrefix(s: string)
    ensures TrimEnd(s) == s[..|TrimEnd(s)|]
  {
    if |s| > 0 && IsSpace(s[|s| - 1]) {
      TrimEndIsPrefix(s[..|s| - 1]);
      assert s[..|s| - 1][..|TrimEnd(s)|] == s[..|TrimEnd(s)|];
    }
  }

  /** `s.trim()`: the result has no white space at either end, is no longer than the input, and is empty exactly for a blank input. */
  function Trim(s: string): (r: string)
    ensures Trimmed(r) && |r| <= |s|
    ensures r == [] <==> Blank(s)
  {
    var front := TrimStart(s);
    TrimStartIsSuffix(s);
    var r := TrimEnd(front);
    TrimEndIsPrefix(front);
    assert r == [] ==> front == [];
    r
  }

  /**
   * Trimming removes white space from the two ends and nothing else: the
   * result is the input between a blank prefix and a blank suffix.
   */
  lemma TrimIsSlice(s: string)
    ensures exists i, j :: 0 <= i <= j <= |s| && Trim(s) == s[i..j] && Blank(s[..i]) && Blank(s[j..])
  {
    var front := TrimStart(s);
    TrimStartIsSuffix(s);
    TrimEndIsPrefix(front);
    var i := |s| - |front|;
    var j := i + |Trim(s)|;
    assert front == s[i..];
    assert Trim(s) == front[..|Trim(s)|];
    assert Trim(s) == s[i..j];
    assert Blank(s[..i]);
    assert forall k :: j <= k < |s| ==> s[k] == front[k - i];
    assert Blank(s[j..]);
  }

  /** A string without white space at its ends is left alone by trimming. */
  lemma {:induction false} TrimOfTrimmed(s: string)
    requires Trimmed(s)
    ensures Trim(s) == s
  {
    assert TrimStart(s) == s;
    assert TrimEnd(s) == s;
  }

  /** Trimming twice is trimming once, so the validator's sanitizer and the schema's setter agree. */
  lemma TrimIdempotent(s: string)
    ensures Trim(Trim(s)) == Trim(s)
  {
    TrimOfTrimmed(Trim(s));
  }
}
