/** The java.lang.String operations the services rely on: toLowerCase,
    equalsIgnoreCase, trim, isEmpty and isBlank. Characters are compared as
    Unicode scalar values; case mapping is the ASCII one (see README). */
module Strings {

  /** Character.toLowerCase restricted to the ASCII letters. */
  function LowerChar(c: char): (r: char)
    ensures !('A' <= r <= 'Z')
    ensures 'a' <= r <= 'z' <==> ('a' <= c <= 'z' || 'A' <= c <= 'Z')
  {
    if 'A' <= c <= 'Z' then (c as int + 32) as char else c
  }

  /** String.toLowerCase: every character lowered, the length kept. */
  function Lower(s: string): (r: string)
    ensures |r| == |s|
    ensures forall i :: 0 <= i < |s| ==> r[i] == LowerChar(s[i])
  {
    if s == [] then [] else [LowerChar(s[0])] + Lower(s[1..])
  }

  /** Lowering twice is lowering once. */
  lemma LowerIdempotent(s: string)
    ensures Lower(Lower(s)) == Lower(s)
  {
    var l := Lower(s);
    assert forall i :: 0 <= i < |l| ==> LowerChar(l[i]) == l[i];
  }

  /** String.equalsIgnoreCase on the ASCII case mapping. */
  predicate EqualsIgnoreCase(a: string, b: string) {
    Lower(a) == Lower(b)
  }

  /** The characters String.trim removes: code points up to U+0020. */
  predicate IsTrimmable(c: char) {
    c <= ' '
  }

  /** Removes the leading characters that trim removes. */
  function TrimStart(s: string): (r: string)
    ensures |r| <= |s| && r == s[|s| - |r|..]
    ensures forall k :: 0 <= k < |s| - |r| ==> IsTrimmable(s[k])
    ensures r == [] || !IsTrimmable(r[0])
  {
    if |s| > 0 && IsTrimmable(s[0]) then TrimStart(s[1..]) else s
  }

  /** Removes the trailing characters that trim removes. */
  function TrimEnd(s: string): (r: string)
    ensures |r| <= |s| && r == s[..|r|]
    ensures forall k :: |r| <= k < |s| ==> IsTrimmable(s[k])
    ensures r == [] || !IsTrimmable(r[|r| - 1])
  {
    if |s| > 0 && IsTrimmable(s[|s| - 1]) then TrimEnd(s[..|s| - 1]) else s
  }

  /** String.trim: the longest infix without leading or trailing characters
      up to U+0020. */
  function Trim(s: string): (r: string)
    ensures |r| <= |s|
    ensures r == [] || (!IsTrimmable(r[0]) && !IsTrimmable(r[|r| - 1]))
    ensures exists i :: 0 <= i <= |s| - |r| && r == s[i..][..|r|]
                        && (forall k :: 0 <= k < i ==> IsTrimmable(s[k]))
                        && (forall k :: i + |r| <= k < |s| ==> IsTrimmable(s[k]))
  {
    TrimIsInfix(s);
    TrimEnd(TrimStart(s))
  }

  /** TrimEnd(TrimStart(s)) is the infix of s left once the leading
      characters TrimStart drops and the trailing ones TrimEnd drops are
      gone. */
  lemma TrimIsInfix(s: string)
    ensures var i := |s| - |TrimStart(s)|;
            var r := TrimEnd(TrimStart(s));
            && 0 <= i <= |s| - |r| && r == s[i..][..|r|]
            && (forall k :: 0 <= k < i ==> IsTrimmable(s[k]))
            && (forall k :: i + |r| <= k < |s| ==> IsTrimmable(s[k]))
  {
    var t := TrimStart(s);
    var i := |s| - |t|;
    var r := TrimEnd(t);
    assert t == s[i..];
    forall k | i + |r| <= k < |s|
      ensures IsTrimmable(s[k])
    {
      assert s[k] == t[k - i];
    }
  }

  /** trim() yields the empty string exactly when every character is one
      that trim removes ("null or whitespace-only" in the validators). */
  lemma TrimEmptyIff(s: string)
    ensures Trim(s) == [] <==> forall k :: 0 <= k < |s| ==> IsTrimmable(s[k])
  {
    if Trim(s) == [] {
      assert TrimStart(s) == [];
    }
  }

  /** A string that trim leaves unchanged. */
  lemma TrimOfTrimmed(s: string)
    requires s == [] || (!IsTrimmable(s[0]) && !IsTrimmable(s[|s| - 1]))
    ensures Trim(s) == s
  {
  }

  /** Character.isWhitespace: the ASCII controls TAB..CR and FS..US, the space,
      and the Unicode space, line and paragraph separators other than the
      no-break spaces. */
  predicate IsJavaWhitespace(c: char) {
    var n := c as int;
    n == 0x20 || 0x09 <= n <= 0x0D || 0x1C <= n <= 0x1F
    || n == 0x1680 || 0x2000 <= n <= 0x2006 || 0x2008 <= n <= 0x200A
    || n == 0x2028 || n == 0x2029 || n == 0x205F || n == 0x3000
  }

  /** String.isBlank: empty or whitespace only. */
  predicate IsBlank(s: string) {
    forall k :: 0 <= k < |s| ==> IsJavaWhitespace(s[k])
  }
}
