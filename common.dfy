/**
 * Small shared vocabulary: optional values and results, bytes, and the two
 * pieces of JavaScript string semantics the application relies on — the
 * truthiness of an optional string and `String.prototype.trim`.
 */
module Common {

  datatype Option<+T> = None | Some(value: T)

  datatype Result<+T, +E> = Success(value: T) | Failure(error: E)

  /** An unsigned 8-bit value, the element type of a `Uint8Array`. */
  newtype byte = b: int | 0 <= b < 256

  /** JavaScript truthiness of a string that may be `undefined`: present and non-empty. */
  predicate Truthy(s: Option<string>)
  {
    s.Some? && s.value != ""
  }

  /**
   * The code points `trim` removes: the WhiteSpace and LineTerminator
   * productions of ECMAScript (tab, vertical tab, form feed, space, no-break
   * space, byte order mark, every Zs space separator, line feed, carriage
   * return, line and paragraph separators).
   */
  predicate IsJsWhitespace(c: char)
  {
    var n := c as int;
    n == 0x09 || n == 0x0A || n == 0x0B || n == 0x0C || n == 0x0D || n == 0x20
    || n == 0xA0 || n == 0x1680 || (0x2000 <= n <= 0x200A)
    || n == 0x2028 || n == 0x2029 || n == 0x202F || n == 0x205F
    || n == 0x3000 || n == 0xFEFF
  }

  /** Every character of `s` is whitespace (vacuously so for the empty string). */
  predicate AllWhitespace(s: string)
  {
    forall i | 0 <= i < |s| :: IsJsWhitespace(s[i])
  }

  /** Drops leading whitespace: the result is the suffix after a whitespace-only prefix. */
  function TrimStart(s: string): (r: string)
    ensures |r| <= |s| && r == s[|s| - |r|..]
    ensures AllWhitespace(s[..|s| - |r|])
    ensures r == [] || !IsJsWhitespace(r[0])
  {
    if s != [] && IsJsWhitespace(s[0]) then
      var r := TrimStart(s[1..]);
      var w := s[..|s| - |r|];
      assert forall i | 1 <= i < |w| :: w[i] == s[1..][..|s| - 1 - |r|][i - 1];
      r
    else
      s
  }

  /** Drops trailing whitespace: the result is the prefix before a whitespace-only suffix. */
  function TrimEnd(s: string): (r: string)
    ensures |r| <= |s| && r == s[..|r|]
    ensures AllWhitespace(s[|r|..])
    ensures r == [] || !IsJsWhitespace(r[|r| - 1])
  {
    if s != [] && IsJsWhitespace(s[|s| - 1]) then
      var r := TrimEnd(s[..|s| - 1]);
      var w := s[|r|..];
      assert forall i | 0 <= i < |w| - 1 :: w[i] == s[..|s| - 1][|r|..][i];
      r
    else
      s
  }

  /** `r` is a contiguous run of `s` with nothing but whitespace before and after it. */
  predicate WhitespaceFramed(s: string, r: string)
  {
    exists k | 0 <= k <= |s| - |r| :: r == s[k..k + |r|] && AllWhitespace(s[..k]) && AllWhitespace(s[k + |r|..])
  }

  /**
   * `s.trim()`: `s` without its leading and trailing whitespace — a run of `s`
   * framed by whitespace only, that neither starts nor ends with whitespace.
   */
  function Trim(s: string): (r: string)
    ensures |r| <= |s|
    ensures r == [] || (!IsJsWhitespace(r[0]) && !IsJsWhitespace(r[|r| - 1]))
    ensures WhitespaceFramed(s, r)
  {
    var t := TrimStart(s);
    var r := TrimEnd(t);
    assert r != [] ==> r[0] == t[0];
    TrimWindow(s, t, r);
    r
  }

  /** Trimming the start and then the end leaves a run of `s` framed by whitespace. */
  lemma TrimWindow(s: string, t: string, r: string)
    requires t == TrimStart(s) && r == TrimEnd(t)
    ensures WhitespaceFramed(s, r)
  {
    var k := |s| - |t|;
    assert t == s[k..] && r == t[..|r|];
    assert r == s[k..k + |r|];
    assert s[k + |r|..] == t[|r|..];
  }

  /** `!s.trim()`: the trimmed string is empty, hence falsy; already trimming the start leaves nothing. */
  predicate IsBlank(s: string)
    ensures IsBlank(s) <==> TrimStart(s) == []
  {
    var t := TrimStart(s);
    assert TrimEnd(t) == [] ==> AllWhitespace(t[0..]) && t[0..] == t;
    Trim(s) == ""
  }

  /** A string trims to nothing exactly when it is made of whitespace only. */
  lemma BlankIffAllWhitespace(s: string)
    ensures IsBlank(s) <==> AllWhitespace(s)
  {
    var t := TrimStart(s);
    if IsBlank(s) {
      assert AllWhitespace(t[0..]);
      assert t == [];
      assert s[..|s| - |t|] == s;
    } else {
      assert Trim(s) != [];
      assert t != [];
      assert t[0] == s[|s| - |t|];
    }
  }
}
