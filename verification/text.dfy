/**
 * The string primitives of JavaScript that the dashboard's logic uses:
 * `trim`, `toLowerCase`, `includes`, `startsWith`, `parseInt` and the
 * decimal rendering of numbers. Strings are sequences of characters.
 */
module Text {
  import opened Wrappers

  /** JavaScript's WhiteSpace and LineTerminator characters, the set `trim` removes. */
  predicate IsSpace(c: char) {
    c == '\t' || c == '\n' || c == '\U{000B}' || c == '\U{000C}' || c == '\r' || c == ' '
    || c == '\U{00A0}' || c == '\U{1680}' || ('\U{2000}' <= c <= '\U{200A}')
    || c == '\U{2028}' || c == '\U{2029}' || c == '\U{202F}' || c == '\U{205F}'
    || c == '\U{3000}' || c == '\U{FEFF}'
  }

  /** The characters a regular-expression `.` does not match. */
  predicate IsLineTerminator(c: char) {
    c == '\n' || c == '\r' || c == '\U{2028}' || c == '\U{2029}'
  }

  predicate AllSpace(s: string) {
    forall i :: 0 <= i < |s| ==> IsSpace(s[i])
  }

  /** Neither the first nor the last character is whitespace. */
  predicate NoOuterSpace(s: string) {
    |s| == 0 || (!IsSpace(s[0]) && !IsSpace(s[|s| - 1]))
  }

  /** The length of the whitespace run at the start of `s`. */
  function LeadingSpaces(s: string): (k: nat)
    ensures k <= |s|
    ensures AllSpace(s[..k])
    ensures k < |s| ==> !IsSpace(s[k])
    decreases |s|
  {
    if |s| == 0 || !IsSpace(s[0]) then 0 else 1 + LeadingSpaces(s[1..])
  }

  /** The length of the whitespace run at the end of `s`. */
  function TrailingSpaces(s: string): (k: nat)
    ensures k <= |s|
    ensures AllSpace(s[|s| - k..])
    ensures k < |s| ==> !IsSpace(s[|s| - 1 - k])
    decreases |s|
  {
    if |s| == 0 || !IsSpace(s[|s| - 1]) then 0 else 1 + TrailingSpaces(s[..|s| - 1])
  }

  /** `s.trimStart()`. */
  function TrimStart(s: string): (r: string)
    ensures |r| <= |s| && r == s[|s| - |r|..]
    ensures AllSpace(s[..|s| - |r|])
    ensures |r| == 0 || !IsSpace(r[0])
  {
    s[LeadingSpaces(s)..]
  }

  /** `s.trim()`: whitespace is removed from both ends and nowhere else. */
  function Trim(s: string): (r: string)
    ensures NoOuterSpace(r)
    ensures exists i :: 0 <= i && i + |r| <= |s| && r == s[i..i + |r|]
                        && AllSpace(s[..i]) && AllSpace(s[i + |r|..])
  {
    var a := LeadingSpaces(s);
    var t := s[a..];
    var b := TrailingSpaces(t);
    var r := t[..|t| - b];
    assert r == s[a..a + |r|];
    assert s[a + |r|..] == t[|t| - b..];
    r
  }

  /** Trimming removes characters and never introduces one. */
  lemma TrimKeepsAbsent(s: string, c: char)
    requires c !in s
    ensures c !in Trim(s)
  {
    var a := LeadingSpaces(s);
    var t := s[a..];
    var r := t[..|t| - TrailingSpaces(t)];
    assert Trim(s) == r;
  }

  /** A string without surrounding whitespace is its own trim. */
  lemma TrimNoOp(s: string)
    requires NoOuterSpace(s)
    ensures Trim(s) == s
  {
    if |s| > 0 {
      assert LeadingSpaces(s) == 0;
      assert TrailingSpaces(s) == 0;
    }
  }

  /** `s.trim() === ''` exactly when every character of `s` is whitespace. */
  lemma TrimEmptyIffBlank(s: string)
    ensures Trim(s) == "" <==> AllSpace(s)
  {
    var a := LeadingSpaces(s);
    if Trim(s) == "" {
      assert s[..a] == s;
    } else {
      var r := Trim(s);
      assert !IsSpace(r[0]);
      var i :| 0 <= i && i + |r| <= |s| && r == s[i..i + |r|];
      assert s[i] == r[0];
    }
  }

  /** ASCII case mapping of one character. */
  function LowerChar(c: char): char {
    if 'A' <= c <= 'Z' then (c as int + 32) as char else c
  }

  /** `s.toLowerCase()`, restricted to ASCII letters. */
  function Lower(s: string): (r: string)
    ensures |r| == |s|
  {
    seq(|s|, i requires 0 <= i < |s| => LowerChar(s[i]))
  }

  /** Lower-casing leaves no capital, turns each capital into its small letter and keeps every other character. */
  lemma LowerCase(s: string)
    ensures forall i :: 0 <= i < |s| ==> !('A' <= Lower(s)[i] <= 'Z')
    ensures forall i :: 0 <= i < |s| && 'A' <= s[i] <= 'Z' ==> Lower(s)[i] as int == s[i] as int + 32
    ensures forall i :: 0 <= i < |s| && !('A' <= s[i] <= 'Z') ==> Lower(s)[i] == s[i]
  {
  }

  /** Lower-casing twice is lower-casing once. */
  lemma LowerIdempotent(s: string)
    ensures Lower(Lower(s)) == Lower(s)
  {
    LowerCase(s);
    LowerCase(Lower(s));
  }

  /** `s.startsWith(prefix)`. */
  predicate StartsWith(s: string, prefix: string) {
    prefix <= s
  }

  /** `s.includes(sub)`. */
  predicate Contains(s: string, sub: string)
    decreases |s|
  {
    sub <= s || (|s| > 0 && Contains(s[1..], sub))
  }

  /** `sub` occurs in `s` starting at position `i`. */
  predicate OccursAt(s: string, sub: string, i: int) {
    0 <= i && i + |sub| <= |s| && s[i..i + |sub|] == sub
  }

  /** An occurrence one place further into `s` is an occurrence in its tail. */
  lemma OccursAtTail(s: string, sub: string, i: nat)
    requires |s| > 0
    ensures OccursAt(s, sub, i + 1) <==> OccursAt(s[1..], sub, i)
  {
    if 0 <= i && i + 1 + |sub| <= |s| {
      assert s[1..][i..i + |sub|] == s[i + 1..i + 1 + |sub|];
    }
  }

  /** `s.includes(sub)` means that `sub` occurs at some position of `s`. */
  lemma {:induction false} ContainsAt(s: string, sub: string)
    ensures Contains(s, sub) <==> exists i :: OccursAt(s, sub, i)
    decreases |s|
  {
    if sub <= s {
      assert s[0..|sub|] == sub;
      assert OccursAt(s, sub, 0);
    } else if |s| > 0 {
      assert !OccursAt(s, sub, 0);
      ContainsAt(s[1..], sub);
      if exists i :: OccursAt(s, sub, i) {
        var i :| OccursAt(s, sub, i);
        assert i >= 1;
        OccursAtTail(s, sub, i - 1);
      }
      if exists i :: OccursAt(s[1..], sub, i) {
        var i :| OccursAt(s[1..], sub, i);
        OccursAtTail(s, sub, i);
      }
    } else {
      assert forall i :: !OccursAt(s, sub, i);
    }
  }

  /** The number of occurrences of `c` in `s`. */
  function CountChar(s: string, c: char): (n: nat)
    ensures n <= |s|
    ensures n == 0 <==> c !in s
    decreases |s|
  {
    if |s| == 0 then 0
    else (if s[0] == c then 1 else 0) + CountChar(s[1..], c)
  }

  /** `String(n)` for a non-negative integer: its decimal digits. */
  function NatToString(n: nat): (r: string)
    ensures |r| >= 1
    ensures forall i :: 0 <= i < |r| ==> '0' <= r[i] <= '9'
    ensures n >= 10 ==> r[0] != '0'
    decreases n
  {
    if n < 10 then [DigitChar(n)] else NatToString(n / 10) + [DigitChar(n % 10)]
  }

  function DigitChar(d: nat): (c: char)
    requires d < 10
    ensures '0' <= c <= '9'
  {
    ('0' as int + d) as char
  }

  /** `String(i)` for an integer. */
  function IntToString(i: int): (r: string)
    ensures |r| >= 1
    ensures i < 0 <==> r[0] == '-'
  {
    if i < 0 then "-" + NatToString(-i) else NatToString(i)
  }

  /** The value of `c` as a digit in bases up to 16, or -1. */
  function DigitValue(c: char): (v: int)
    ensures -1 <= v < 16
  {
    if '0' <= c <= '9' then c as int - '0' as int
    else if 'a' <= c <= 'f' then c as int - 'a' as int + 10
    else if 'A' <= c <= 'F' then c as int - 'A' as int + 10
    else -1
  }

  predicate IsDigitIn(c: char, radix: nat) {
    0 <= DigitValue(c) < radix
  }

  /** The length of the longest prefix of `s` made of digits of `radix`. */
  function DigitPrefix(s: string, radix: nat): (k: nat)
    ensures k <= |s|
    ensures forall i :: 0 <= i < k ==> IsDigitIn(s[i], radix)
    ensures k < |s| ==> !IsDigitIn(s[k], radix)
    decreases |s|
  {
    if |s| == 0 || !IsDigitIn(s[0], radix) then 0 else 1 + DigitPrefix(s[1..], radix)
  }

  /** The value of a string of digits of `radix`, most significant first. */
  function DigitsValue(s: string, radix: nat): (v: nat)
    requires forall i :: 0 <= i < |s| ==> IsDigitIn(s[i], radix)
    decreases |s|
  {
    if |s| == 0 then 0
    else
      var high: nat := DigitsValue(s[..|s| - 1], radix);
      var low := DigitValue(s[|s| - 1]);
      assert IsDigitIn(s[|s| - 1], radix);
      assert 0 <= high * radix;
      high * radix + low
  }

  /**
   * `parseInt(s)` without a radix argument: leading whitespace is skipped, an
   * optional sign is read, a `0x`/`0X` prefix selects base 16, and the longest
   * run of digits that follows is the value. No digits at all is NaN (`None`).
   */
  function ParseInt(s: string): Option<int> {
    ParseSigned(TrimStart(s))
  }

  /**
   * `parseInt` gives NaN for a blank string and for one whose first
   * non-blank character is neither a sign nor a decimal digit.
   */
  lemma ParseIntNaN(s: string)
    ensures TrimStart(s) == "" ==> ParseInt(s).None?
    ensures var t := TrimStart(s);
            |t| > 0 && t[0] != '-' && t[0] != '+' && !IsDigitIn(t[0], 10) ==> ParseInt(s).None?
  {
  }

  function ParseSigned(t: string): Option<int> {
    if |t| > 0 && t[0] == '-' then
      match ParseMagnitude(t[1..])
      case Some(m) => Some(-m)
      case None => None
    else if |t| > 0 && t[0] == '+' then ParseMagnitude(t[1..])
    else ParseMagnitude(t)
  }

  function ParseMagnitude(u: string): Option<int> {
    if |u| >= 2 && u[0] == '0' && (u[1] == 'x' || u[1] == 'X') then ParseDigits(u[2..], 16)
    else ParseDigits(u, 10)
  }

  function ParseDigits(d: string, radix: nat): Option<int> {
    var k := DigitPrefix(d, radix);
    if k == 0 then None else Some(DigitsValue(d[..k], radix))
  }

  lemma {:induction false} NatToStringValue(n: nat)
    ensures DigitPrefix(NatToString(n), 10) == |NatToString(n)|
    ensures DigitsValue(NatToString(n), 10) == n
    decreases n
  {
    var r := NatToString(n);
    forall i | 0 <= i < |r| ensures IsDigitIn(r[i], 10) { }
    DigitPrefixAll(r, 10);
    if n >= 10 {
      NatToStringValue(n / 10);
      assert r[..|r| - 1] == NatToString(n / 10);
    }
  }

  lemma {:induction false} DigitPrefixAll(s: string, radix: nat)
    requires forall i :: 0 <= i < |s| ==> IsDigitIn(s[i], radix)
    ensures DigitPrefix(s, radix) == |s|
    decreases |s|
  {
    if |s| > 0 {
      DigitPrefixAll(s[1..], radix);
    }
  }

  /** `parseInt(String(n)) === n`: the decimal rendering reads back. */
  lemma ParseIntNatToString(n: nat)
    ensures ParseInt(NatToString(n)) == Some(n)
  {
    var s := NatToString(n);
    assert '0' <= s[0] <= '9';
    assert LeadingSpaces(s) == 0;
    assert TrimStart(s) == s;
    assert ParseSigned(s) == ParseMagnitude(s);
    MagnitudeOfNatToString(n);
  }

  /** The digits of a natural number, without sign, read back as that number. */
  lemma MagnitudeOfNatToString(n: nat)
    ensures ParseMagnitude(NatToString(n)) == Some(n)
  {
    var s := NatToString(n);
    assert |s| >= 2 ==> '0' <= s[1] <= '9';
    assert ParseMagnitude(s) == ParseDigits(s, 10);
    NatToStringValue(n);
    assert s[..|s|] == s;
  }

  /** `parseInt(String(i)) === i` for every integer, negative ones included. */
  lemma ParseIntIntToString(i: int)
    ensures ParseInt(IntToString(i)) == Some(i)
  {
    if i < 0 {
      var d := NatToString(-i);
      var s := "-" + d;
      assert LeadingSpaces(s) == 0;
      assert TrimStart(s) == s;
      assert s[1..] == d;
      MagnitudeOfNatToString(-i);
      assert ParseSigned(s) == Some(i);
    } else {
      ParseIntNatToString(i);
    }
  }

  /** A field that starts with a quote character is NaN to `parseInt`. */
  lemma ParseIntQuoted(s: string)
    requires |s| > 0 && s[0] == '"'
    ensures ParseInt(s) == None
  {
    assert LeadingSpaces(s) == 0;
    assert TrimStart(s) == s;
  }
}
