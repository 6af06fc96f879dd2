/**
 The string operations of JavaScript that the inspector hook relies on:
 `includes`, `trim`, `join`, the `\s` character class and the decimal
 rendering of integers. Strings are sequences of characters.
 */
module Text {

  /** `t` is a prefix of `s` (`s.startsWith(t)`). */
  predicate IsPrefix(t: string, s: string) {
    |t| <= |s| && s[..|t|] == t
  }

  /** `s.includes(t)`: `t` occurs somewhere in `s`. */
  predicate Contains(s: string, t: string)
    decreases |s|
  {
    IsPrefix(t, s) || (|s| > 0 && Contains(s[1..], t))
  }

  /** `Contains` holds exactly when `t` occurs at some index of `s`. */
  lemma {:induction false} ContainsIffOccurs(s: string, t: string)
    ensures Contains(s, t) <==> exists i :: 0 <= i <= |s| && IsPrefix(t, s[i..])
    decreases |s|
  {
    if Contains(s, t) {
      if !IsPrefix(t, s) {
        ContainsIffOccurs(s[1..], t);
        var i :| 0 <= i <= |s[1..]| && IsPrefix(t, s[1..][i..]);
        assert s[1..][i..] == s[i + 1..];
      } else {
        assert s[0..] == s;
      }
    }
    if exists i :: 0 <= i <= |s| && IsPrefix(t, s[i..]) {
      var i :| 0 <= i <= |s| && IsPrefix(t, s[i..]);
      if i == 0 {
        assert s[0..] == s;
      } else {
        assert s[1..][i - 1..] == s[i..];
        ContainsIffOccurs(s[1..], t);
      }
    }
  }

  /** An occurrence at a known index witnesses `Contains`. */
  lemma ContainsAt(s: string, t: string, i: nat)
    requires i + |t| <= |s| && s[i..i + |t|] == t
    ensures Contains(s, t)
  {
    assert IsPrefix(t, s[i..]);
    ContainsIffOccurs(s, t);
  }

  /** Whatever occurs in a part of a concatenation occurs in the whole. */
  lemma ContainsInConcat(a: string, b: string, t: string)
    ensures Contains(a, t) ==> Contains(a + b, t)
    ensures Contains(b, t) ==> Contains(a + b, t)
  {
    ContainsIffOccurs(a, t);
    ContainsIffOccurs(b, t);
    ContainsIffOccurs(a + b, t);
    if Contains(a, t) {
      var i :| 0 <= i <= |a| && IsPrefix(t, a[i..]);
      assert (a + b)[i..][..|t|] == a[i..][..|t|];
    }
    if Contains(b, t) {
      var i :| 0 <= i <= |b| && IsPrefix(t, b[i..]);
      assert (a + b)[|a| + i..] == b[i..];
    }
  }

  /** A string contains itself. */
  lemma ContainsSelf(s: string)
    ensures Contains(s, s)
  {
    assert s[..|s|] == s;
  }

  /** Whoever contains `t + u` contains `t`. */
  lemma ContainsPrefixOf(s: string, t: string, u: string)
    requires Contains(s, t + u)
    ensures Contains(s, t)
  {
    ContainsIffOccurs(s, t + u);
    var i :| 0 <= i <= |s| && IsPrefix(t + u, s[i..]);
    assert s[i..][..|t|] == (t + u)[..|t|] == t;
    ContainsIffOccurs(s, t);
  }

  /** A needle whose first character occurs nowhere after the start of `s` occurs in `s` only as its prefix. */
  lemma NotContainsByFirstChar(s: string, t: string)
    requires |t| > 0 && |s| > 0 && t[0] !in s[1..] && !IsPrefix(t, s)
    ensures !Contains(s, t)
  {
    ContainsIffOccurs(s[1..], t);
  }

  /** A text in which the first character of `t` never occurs does not contain `t`. */
  lemma NotContainsWithoutFirstChar(s: string, t: string)
    requires |t| > 0 && t[0] !in s
    ensures !Contains(s, t)
  {
    ContainsIffOccurs(s, t);
    forall i | 0 <= i <= |s| ensures !IsPrefix(t, s[i..]) {
      if i < |s| {
        assert s[i..][0] == s[i];
      }
    }
  }

  /**
   The characters matched by `\s` in a JavaScript regular expression and
   removed by `String.prototype.trim`: WhiteSpace (including every
   space separator) and LineTerminator.
   */
  predicate IsJsSpace(c: char) {
    || c == '\t' || c == '\n' || c == '\U{000B}' || c == '\U{000C}' || c == '\r'
    || c == ' ' || c == '\U{00A0}' || c == '\U{1680}'
    || ('\U{2000}' <= c <= '\U{200A}')
    || c == '\U{2028}' || c == '\U{2029}' || c == '\U{202F}' || c == '\U{205F}'
    || c == '\U{3000}' || c == '\U{FEFF}'
  }

  /** Length of the longest prefix of `s` made of `\s` characters. */
  function SpaceRun(s: string): (n: nat)
    ensures n <= |s|
    ensures forall i :: 0 <= i < n ==> IsJsSpace(s[i])
    ensures n < |s| ==> !IsJsSpace(s[n])
  {
    if |s| > 0 && IsJsSpace(s[0]) then 1 + SpaceRun(s[1..]) else 0
  }

  /** `s.trimStart()`. */
  function TrimStart(s: string): (r: string)
    ensures |r| <= |s| && s[|s| - |r|..] == r
    ensures |r| > 0 ==> !IsJsSpace(r[0])
    ensures forall i :: 0 <= i < |s| - |r| ==> IsJsSpace(s[i])
  {
    s[SpaceRun(s)..]
  }

  /** `s.trimEnd()`. */
  function TrimEnd(s: string): (r: string)
    ensures |r| <= |s| && s[..|r|] == r
    ensures |r| > 0 ==> !IsJsSpace(r[|r| - 1])
    ensures forall i :: |r| <= i < |s| ==> IsJsSpace(s[i])
  {
    if |s| > 0 && IsJsSpace(s[|s| - 1]) then TrimEnd(s[..|s| - 1]) else s
  }

  /** `s.trim()`. */
  function Trim(s: string): string {
    TrimEnd(TrimStart(s))
  }

  /** A string is blank (`!s.trim()`) exactly when all its characters are `\s`. */
  lemma TrimEmptyIffBlank(s: string)
    ensures Trim(s) == "" <==> forall i :: 0 <= i < |s| ==> IsJsSpace(s[i])
  {
    var t := TrimStart(s);
    if |t| > 0 {
      assert TrimEnd(t)[..1] == t[..1];
    }
  }

  /** `parts.join(sep)`. */
  function Join(parts: seq<string>, sep: string): string {
    if |parts| == 0 then ""
    else if |parts| == 1 then parts[0]
    else parts[0] + sep + Join(parts[1..], sep)
  }

  /** Decimal digits of a natural number, as `String(n)` renders it. */
  function NatToString(n: nat): (r: string)
    ensures |r| > 0
    ensures forall i :: 0 <= i < |r| ==> '0' <= r[i] <= '9'
    decreases n
  {
    var d := [['0', '1', '2', '3', '4', '5', '6', '7', '8', '9'][n % 10]];
    if n < 10 then d else NatToString(n / 10) + d
  }

  /** `String(n)` for an integer whose magnitude is below 10^21. */
  function IntToString(n: int): string {
    if n < 0 then "-" + NatToString(-n) else NatToString(n)
  }

  /** ASCII upper-casing, the part of `toUpperCase` that HTTP method names use. */
  function AsciiUpper(s: string): (r: string)
    ensures |r| == |s|
    ensures forall i :: 0 <= i < |s| ==> ('a' <= s[i] <= 'z' ==> r[i] == s[i] - 'a' + 'A')
    ensures forall i :: 0 <= i < |s| ==> (!('a' <= s[i] <= 'z') ==> r[i] == s[i])
  {
    seq(|s|, i requires 0 <= i < |s| => if 'a' <= s[i] <= 'z' then s[i] - 'a' + 'A' else s[i])
  }

  /**
   Upper-casing leaves no lower-case ASCII letter, so applying it again
   changes nothing, and a name already in upper case is kept as is.
   */
  lemma AsciiUpperNormalises(s: string)
    ensures forall i :: 0 <= i < |s| ==> !('a' <= AsciiUpper(s)[i] <= 'z')
    ensures AsciiUpper(AsciiUpper(s)) == AsciiUpper(s)
    ensures (forall i :: 0 <= i < |s| ==> !('a' <= s[i] <= 'z')) ==> AsciiUpper(s) == s
  {
  }
}
