/** JavaScript's `String.prototype.trim`, used when a member name is entered. */
module Text {

  /** The code points `trim` strips: ECMAScript WhiteSpace (tab, vertical tab,
      form feed, the byte order mark, every space separator of category Zs)
      and LineTerminator (line feed, carriage return, U+2028, U+2029). */
  predicate IsWhitespace(c: char)
  {
    var n := c as int;
    n == 0x09 || n == 0x0A || n == 0x0B || n == 0x0C || n == 0x0D ||
    n == 0x20 || n == 0xA0 || n == 0x1680 || (0x2000 <= n <= 0x200A) ||
    n == 0x2028 || n == 0x2029 || n == 0x202F || n == 0x205F ||
    n == 0x3000 || n == 0xFEFF
  }

  /** Every character is whitespace (the empty string included). */
  predicate IsBlank(s: string)
  {
    forall i :: 0 <= i < |s| ==> IsWhitespace(s[i])
  }

  lemma BlankConcat(a: string, b: string)
    ensures IsBlank(a + b) <==> IsBlank(a) && IsBlank(b)
  {
    if IsBlank(a) && IsBlank(b) {
      forall i | 0 <= i < |a + b| ensures IsWhitespace((a + b)[i]) {
        if i < |a| { assert (a + b)[i] == a[i]; } else { assert (a + b)[i] == b[i - |a|]; }
      }
    }
    if IsBlank(a + b) {
      forall i | 0 <= i < |a| ensures IsWhitespace(a[i]) { assert a[i] == (a + b)[i]; }
      forall i | 0 <= i < |b| ensures IsWhitespace(b[i]) { assert b[i] == (a + b)[|a| + i]; }
    }
  }

  /** Number of whitespace characters at the start of `s`. */
  function LeadingBlanks(s: string): (k: nat)
    ensures k <= |s|
    ensures IsBlank(s[..k])
    ensures k < |s| ==> !IsWhitespace(s[k])
  {
    if s == [] || !IsWhitespace(s[0]) then 0
    else
      var t := s[1..];
      var k' := LeadingBlanks(t);
      var k := 1 + k';
      assert s[..k] == [s[0]] + t[..k'];
      BlankConcat([s[0]], t[..k']);
      assert k < |s| ==> s[k] == t[k'];
      k
  }

  /** Number of whitespace characters at the end of `s`. */
  function TrailingBlanks(s: string): (k: nat)
    ensures k <= |s|
    ensures IsBlank(s[|s| - k..])
    ensures k < |s| ==> !IsWhitespace(s[|s| - 1 - k])
  {
    if s == [] || !IsWhitespace(s[|s| - 1]) then 0
    else
      var t := s[..|s| - 1];
      var k' := TrailingBlanks(t);
      var k := 1 + k';
      assert s[|s| - k..] == t[|t| - k'..] + [s[|s| - 1]];
      BlankConcat(t[|t| - k'..], [s[|s| - 1]]);
      assert k < |s| ==> s[|s| - 1 - k] == t[|t| - 1 - k'];
      k
  }

  /** `s.trim()`: `s` without its leading and trailing whitespace. */
  function Trim(s: string): (r: string)
    ensures |r| <= |s|
    ensures r == "" <==> IsBlank(s)
    ensures r != "" ==> !IsWhitespace(r[0]) && !IsWhitespace(r[|r| - 1])
    ensures exists i, j :: 0 <= i <= j <= |s| && r == s[i..j] && IsBlank(s[..i]) && IsBlank(s[j..])
  {
    var i := LeadingBlanks(s);
    var rest := s[i..];
    var t := TrailingBlanks(rest);
    var j := |s| - t;
    var r := rest[..|rest| - t];
    assert r == s[i..j];
    assert s[j..] == rest[|rest| - t..];
    assert s == s[..i] + r + s[j..];
    BlankConcat(s[..i] + r, s[j..]);
    BlankConcat(s[..i], r);
    assert r != "" ==> r[0] == s[i] && r[|r| - 1] == rest[|rest| - 1 - t];
    assert r == "" ==> IsBlank(s);
    assert IsBlank(s) ==> i == |s|;
    r
  }

  /** Trimming twice is the same as trimming once. */
  lemma TrimIdempotent(s: string)
    ensures Trim(Trim(s)) == Trim(s)
  {
    var r := Trim(s);
    if r != "" {
      assert LeadingBlanks(r) == 0;
      assert r[0..] == r;
      assert TrailingBlanks(r) == 0;
      assert r[..|r| - 0] == r;
    }
  }
}
