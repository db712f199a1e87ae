/** The string operations the client relies on: `toLowerCase`, `includes`, the decimal
    rendering of an index inside a template literal, and `parseInt` on the text of a number
    input. */
module Text {
  import opened Common

  // ---------------------------------------------------------------- case and substrings

  function LowerChar(c: char): (r: char)
    ensures 'A' <= c <= 'Z' ==> 'a' <= r <= 'z' && r as int - c as int == 32
    ensures !('A' <= c <= 'Z') ==> r == c
  {
    if 'A' <= c <= 'Z' then (c as int + 32) as char else c
  }

  /** `s.toLowerCase()`, on the ASCII letters. */
  function ToLower(s: string): (r: string)
    ensures |r| == |s|
    ensures forall i :: 0 <= i < |s| ==> r[i] == LowerChar(s[i])
  {
    seq(|s|, i requires 0 <= i < |s| => LowerChar(s[i]))
  }

  /** t occurs in s starting at offset i. */
  predicate OccursAt(s: string, t: string, i: nat) {
    i + |t| <= |s| && s[i..i + |t|] == t
  }

  /** `s.includes(t)`: t occurs in s at some offset. */
  predicate Contains(s: string, t: string) {
    exists i: nat | i <= |s| :: OccursAt(s, t, i)
  }

  lemma ContainsEmpty(s: string)
    ensures Contains(s, "")
  {
    assert OccursAt(s, "", 0);
  }

  /** Lower-casing both sides keeps a literal occurrence: a literal match is also a
      case-insensitive one. */
  lemma ContainsLower(s: string, t: string)
    requires Contains(s, t)
    ensures Contains(ToLower(s), ToLower(t))
  {
    var i: nat :| i <= |s| && OccursAt(s, t, i);
    var ls, lt := ToLower(s), ToLower(t);
    assert |ls| == |s| && |lt| == |t|;
    forall k | 0 <= k < |t| ensures ls[i + k] == lt[k] {
      assert s[i + k] == s[i..i + |t|][k];
    }
    assert ls[i..i + |t|] == lt;
    assert OccursAt(ls, lt, i);
  }

  // ---------------------------------------------------------------- decimal digits

  predicate IsDigit(c: char) {
    '0' <= c <= '9'
  }

  predicate AllDigits(s: string) {
    forall i :: 0 <= i < |s| ==> IsDigit(s[i])
  }

  function DigitChar(d: nat): (c: char)
    requires d < 10
    ensures IsDigit(c)
  {
    ('0' as int + d) as char
  }

  function DigitValue(c: char): (d: nat)
    requires IsDigit(c)
    ensures d < 10
    ensures DigitChar(d) == c
  {
    c as int - '0' as int
  }

  /** `${n}` for a non-negative integer: its decimal digits, without leading zeros. */
  function NatToString(n: nat): (r: string)
    ensures |r| >= 1 && AllDigits(r)
    ensures r[0] == '0' ==> n == 0
    decreases n
  {
    if n < 10 then [DigitChar(n)] else NatToString(n / 10) + [DigitChar(n % 10)]
  }

  /** The number a string of decimal digits denotes. */
  function DigitsValue(s: string): nat
    requires AllDigits(s)
    decreases |s|
  {
    if s == [] then 0 else DigitsValue(s[..|s| - 1]) * 10 + DigitValue(s[|s| - 1])
  }

  lemma {:induction false} NatToStringRoundTrip(n: nat)
    ensures DigitsValue(NatToString(n)) == n
    decreases n
  {
    if n >= 10 {
      var s := NatToString(n);
      assert s[..|s| - 1] == NatToString(n / 10);
      NatToStringRoundTrip(n / 10);
    }
  }

  /** `${n}` for any integer. */
  function IntToString(n: int): (r: string)
    ensures |r| >= 1
  {
    if n < 0 then "-" + NatToString(-n) else NatToString(n)
  }

  // ---------------------------------------------------------------- parseInt

  /** The characters `parseInt` skips before the number (ASCII white space). */
  predicate IsSpace(c: char) {
    c == ' ' || c == '\t' || c == '\n' || c == '\r' || c == '\U{000B}' || c == '\U{000C}'
  }

  function TrimStart(s: string): (r: string)
    ensures |r| <= |s| && r == s[|s| - |r|..]
    ensures r != [] ==> !IsSpace(r[0])
    ensures (s == [] || !IsSpace(s[0])) ==> r == s
    decreases |s|
  {
    if s != [] && IsSpace(s[0]) then TrimStart(s[1..]) else s
  }

  /** The longest prefix of s made of decimal digits. */
  function DigitPrefix(s: string): (r: string)
    ensures r <= s && AllDigits(r)
    ensures |r| < |s| ==> !IsDigit(s[|r|])
    decreases |s|
  {
    if s != [] && IsDigit(s[0]) then [s[0]] + DigitPrefix(s[1..]) else []
  }

  lemma {:induction false} DigitPrefixOfDigits(s: string, rest: string)
    requires AllDigits(s)
    requires rest == [] || !IsDigit(rest[0])
    ensures DigitPrefix(s + rest) == s
    decreases |s|
  {
    if s != [] {
      assert (s + rest)[1..] == s[1..] + rest;
      DigitPrefixOfDigits(s[1..], rest);
    } else {
      assert s + rest == rest;
    }
  }

  /** `parseInt(s)` in base ten: skip leading white space, read an optional sign and the
      longest run of digits; no digit at all is NaN, written None. */
  function ParseInt(s: string): (r: Option<int>)
    ensures r.None? <==> DigitPrefix(Unsigned(TrimStart(s))) == []
  {
    var t := TrimStart(s);
    var digits := DigitPrefix(Unsigned(t));
    var magnitude: int := if digits == [] then 0 else DigitsValue(digits);
    if digits == [] then None
    else if t[0] == '-' then Some(-magnitude)
    else Some(magnitude)
  }

  /** What follows an optional leading sign. */
  function Unsigned(t: string): (r: string)
    ensures r == t || (t != [] && r == t[1..] && (t[0] == '-' || t[0] == '+'))
  {
    if t != [] && (t[0] == '-' || t[0] == '+') then t[1..] else t
  }

  /** `parseInt(value) || 0`: NaN (and zero) become 0. */
  function ParseIntOrZero(s: string): (r: int)
    ensures ParseInt(s).None? ==> r == 0
    ensures ParseInt(s).Some? ==> r == ParseInt(s).value
  {
    ParseInt(s).GetOr(0)
  }

  /** The largest integer up to which a JavaScript number holds every integer exactly,
      2^53 - 1 (`Number.MAX_SAFE_INTEGER`). */
  const MaxSafeInteger: int := 9007199254740991

  predicate SafeInteger(n: int) {
    -MaxSafeInteger <= n <= MaxSafeInteger
  }

  /** Reading back what `${n}` printed gives n, for the integers a JavaScript number holds
      exactly (beyond them `parseInt` rounds). */
  lemma ParseIntRoundTrip(n: int, rest: string)
    requires SafeInteger(n)
    requires rest == [] || !IsDigit(rest[0])
    ensures ParseInt(IntToString(n) + rest) == Some(n)
  {
    var s := IntToString(n) + rest;
    var k: nat := if n < 0 then -n else n;
    var d := NatToString(k);
    assert !IsSpace(s[0]) by {
      assert s[0] == '-' || IsDigit(s[0]);
    }
    assert TrimStart(s) == s;
    assert Unsigned(s) == d + rest by {
      if n < 0 {
        assert s == "-" + (d + rest);
      } else {
        assert s == d + rest;
        assert IsDigit(s[0]);
      }
    }
    DigitPrefixOfDigits(d, rest);
    NatToStringRoundTrip(k);
  }
}
