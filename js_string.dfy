/** ECMAScript's String.prototype.trim, the only string primitive the ticker needs. */
module JsString {

  /** The characters trim strips from both ends: WhiteSpace and LineTerminator of ECMAScript. */
  predicate IsTrimmable(c: char) {
    c == '\t' || c == '\n' || c == '\U{B}' || c == '\U{C}' || c == '\r' || c == ' '
    || c == '\U{A0}' || c == '\U{1680}' || ('\U{2000}' <= c <= '\U{200A}')
    || c == '\U{2028}' || c == '\U{2029}' || c == '\U{202F}' || c == '\U{205F}'
    || c == '\U{3000}' || c == '\U{FEFF}'
  }

  predicate AllTrimmable(s: string) {
    forall k :: 0 <= k < |s| ==> IsTrimmable(s[k])
  }

  /** Drops leading white space: the result is a suffix of `s`, what was dropped is all
      white space, and the result does not start with white space. */
  function TrimStart(s: string): (r: string)
    ensures |r| <= |s| && r == s[|s| - |r|..]
    ensures AllTrimmable(s[..|s| - |r|])
    ensures r == [] || !IsTrimmable(r[0])
  {
    if s == [] || !IsTrimmable(s[0]) then s
    else
      var r := TrimStart(s[1..]);
      assert s[..|s| - |r|] == [s[0]] + s[1..][..|s| - 1 - |r|];
      r
  }

  /** Drops trailing white space: the result is a prefix of `s`, what was dropped is all
      white space, and the result does not end with white space. */
  function TrimEnd(s: string): (r: string)
    ensures |r| <= |s| && r == s[..|r|]
    ensures AllTrimmable(s[|r|..])
    ensures r == [] || !IsTrimmable(r[|r| - 1])
  {
    if s == [] || !IsTrimmable(s[|s| - 1]) then s
    else
      var r := TrimEnd(s[..|s| - 1]);
      assert s[|r|..] == s[..|s| - 1][|r|..] + [s[|s| - 1]];
      r
  }

  /** String.prototype.trim: empty exactly when `s` is all white space, and otherwise
      neither starts nor ends with white space. */
  function Trim(s: string): (r: string)
    ensures |r| <= |s|
    ensures r == [] <==> AllTrimmable(s)
    ensures r != [] ==> !IsTrimmable(r[0]) && !IsTrimmable(r[|r| - 1])
  {
    var t := TrimStart(s);
    var r := TrimEnd(t);
    if t == [] then
      assert s == s[..|s|] + t;
      r
    else
      assert r[0] == t[0];
      r
  }

  lemma {:induction false} TrimStartSkips(s: string, i: nat)
    requires i <= |s| && AllTrimmable(s[..i])
    requires i == |s| || !IsTrimmable(s[i])
    ensures TrimStart(s) == s[i..]
  {
    if i > 0 {
      assert IsTrimmable(s[..i][0]);
      assert s[1..][..i - 1] == s[..i][1..];
      TrimStartSkips(s[1..], i - 1);
    }
  }

  lemma {:induction false} TrimEndSkips(s: string, j: nat)
    requires j <= |s| && AllTrimmable(s[j..])
    requires j == 0 || !IsTrimmable(s[j - 1])
    ensures TrimEnd(s) == s[..j]
  {
    if j < |s| {
      assert IsTrimmable(s[j..][|s| - 1 - j]);
      assert s[..|s| - 1][j..] == s[j..][..|s| - 1 - j];
      TrimEndSkips(s[..|s| - 1], j);
    }
  }

  /** With only white space after s[..j] and a non-blank s[i..j], trimming the end of the
      suffix from i gives s[i..j]. */
  lemma TrimEndOfCore(s: string, i: nat, j: nat)
    requires i < j <= |s|
    requires AllTrimmable(s[j..]) && !IsTrimmable(s[j - 1])
    ensures TrimEnd(s[i..]) == s[i..j]
  {
    var t := s[i..];
    assert t[j - i..] == s[j..];
    assert t[j - i - 1] == s[j - 1];
    TrimEndSkips(t, j - i);
  }

  /** Reference characterisation: when `s` has a non-blank core s[i..j] with only white space
      around it, trim returns exactly that core. */
  lemma TrimIsCore(s: string, i: nat, j: nat)
    requires i < j <= |s|
    requires AllTrimmable(s[..i]) && AllTrimmable(s[j..])
    requires !IsTrimmable(s[i]) && !IsTrimmable(s[j - 1])
    ensures Trim(s) == s[i..j]
  {
    TrimStartSkips(s, i);
    TrimEndOfCore(s, i, j);
  }

  /** Trimming twice is trimming once. */
  lemma TrimIdempotent(s: string)
    ensures Trim(Trim(s)) == Trim(s)
  {
    var r := Trim(s);
    if r != [] {
      assert r[..0] == [] && r[|r|..] == [];
      TrimIsCore(r, 0, |r|);
    }
  }
}
