/** The PHP string built-ins the core relies on, on byte strings modelled as
    `seq<char>`: `strpos(...) === 0`, `strtolower`, `trim`, `rtrim`, `substr`,
    `strstr(..., true)`, `explode(' ', ..., 3)`, the `(int)` cast of a string,
    integer-to-string conversion and the line splitting done by `fgets`. */
module PhpStrings {
  import opened Common

  /** `strpos(s, prefix) === 0`: `s` begins with `prefix`. */
  predicate StartsWith(s: string, prefix: string) {
    |prefix| <= |s| && s[..|prefix|] == prefix
  }

  // ---------------------------------------------------------------- case

  /** ASCII lower-casing of one byte, as `strtolower` does it. */
  function LowerChar(c: char): char {
    if 'A' <= c <= 'Z' then (c as int + 32) as char else c
  }

  predicate IsLower(s: string) {
    forall i :: 0 <= i < |s| ==> !('A' <= s[i] <= 'Z')
  }

  /** `strtolower`: every byte lower-cased, nothing else changed. */
  function ToLower(s: string): (r: string)
    ensures |r| == |s|
    ensures forall i :: 0 <= i < |s| ==> r[i] == LowerChar(s[i])
  {
    if s == [] then [] else [LowerChar(s[0])] + ToLower(s[1..])
  }

  lemma ToLowerIsLower(s: string)
    ensures IsLower(ToLower(s))
  {
  }

  /** Lower-casing an already lower-cased string changes nothing. */
  lemma ToLowerIdempotent(s: string)
    ensures ToLower(ToLower(s)) == ToLower(s)
  {
  }

  // ---------------------------------------------------------------- trim

  /** The bytes `trim` removes by default: " \t\n\r\0\x0B". */
  predicate IsTrimChar(c: char) {
    c == ' ' || c == '\t' || c == '\n' || c == '\r' || c == '\0' || c as int == 11
  }

  /** `ltrim` with the default character list. */
  function TrimLeft(s: string): string {
    if s != [] && IsTrimChar(s[0]) then TrimLeft(s[1..]) else s
  }

  /** `ltrim` removes a prefix of trim bytes, up to the first other byte. */
  lemma {:induction false} TrimLeftShape(s: string)
    ensures var r := TrimLeft(s);
            && |r| <= |s| && r == s[|s| - |r|..]
            && (forall i :: 0 <= i < |s| - |r| ==> IsTrimChar(s[i]))
            && (r != [] ==> !IsTrimChar(r[0]))
  {
    if s != [] && IsTrimChar(s[0]) {
      TrimLeftShape(s[1..]);
      var r := TrimLeft(s);
      forall i | 0 <= i < |s| - |r|
        ensures IsTrimChar(s[i])
      {
        if i > 0 {
          assert s[1..][i - 1] == s[i];
        }
      }
    }
  }

  /** `rtrim` with the default character list. */
  function TrimRight(s: string): string {
    if s != [] && IsTrimChar(s[|s| - 1]) then TrimRight(s[..|s| - 1]) else s
  }

  /** `rtrim` removes a suffix of trim bytes, back to the last other byte. */
  lemma {:induction false} TrimRightShape(s: string)
    ensures var r := TrimRight(s);
            && |r| <= |s| && r == s[..|r|]
            && (forall i :: |r| <= i < |s| ==> IsTrimChar(s[i]))
            && (r != [] ==> !IsTrimChar(r[|r| - 1]))
  {
    if s != [] && IsTrimChar(s[|s| - 1]) {
      var t := s[..|s| - 1];
      TrimRightShape(t);
      var r := TrimRight(s);
      assert r == TrimRight(t);
      assert t[..|r|] == s[..|r|];
      forall i | |r| <= i < |s|
        ensures IsTrimChar(s[i])
      {
        if i < |s| - 1 {
          assert t[i] == s[i];
        }
      }
    }
  }

  /** `trim`: the longest infix with no trim byte at either end. */
  function Trim(s: string): string {
    TrimRight(TrimLeft(s))
  }

  lemma TrimShape(s: string)
    ensures var r := Trim(s);
            var k := |s| - |TrimLeft(s)|;
            && 0 <= k && k + |r| <= |s| && r == s[k..k + |r|]
            && (r == [] || (!IsTrimChar(r[0]) && !IsTrimChar(r[|r| - 1])))
  {
    var l := TrimLeft(s);
    var r := TrimRight(l);
    var k := |s| - |l|;
    TrimLeftShape(s);
    TrimRightShape(l);
    assert r == l[..|r|];
    assert r == s[k..k + |r|];
  }

  /** `rtrim(s, c)` for a single character `c`: every trailing `c` removed. */
  function RTrimChar(s: string, c: char): string {
    if s != [] && s[|s| - 1] == c then RTrimChar(s[..|s| - 1], c) else s
  }

  /** `rtrim(s, c)` is the prefix of `s` left after cutting its trailing `c`s. */
  lemma {:induction false} RTrimCharShape(s: string, c: char)
    ensures var r := RTrimChar(s, c);
            && |r| <= |s| && r == s[..|r|]
            && (forall i :: |r| <= i < |s| ==> s[i] == c)
            && (r == [] || r[|r| - 1] != c)
  {
    if s != [] && s[|s| - 1] == c {
      var t := s[..|s| - 1];
      RTrimCharShape(t, c);
      var r := RTrimChar(s, c);
      assert t[..|r|] == s[..|r|];
      forall i | |r| <= i < |s|
        ensures s[i] == c
      {
        if i < |s| - 1 {
          assert t[i] == s[i];
        }
      }
    }
  }

  /** Trimming twice removes nothing more. */
  lemma {:induction false} RTrimCharIdempotent(s: string, c: char)
    ensures RTrimChar(RTrimChar(s, c), c) == RTrimChar(s, c)
  {
    RTrimCharShape(s, c);
  }

  // ---------------------------------------------------------------- substr, strstr, explode

  /** `substr(s, start, len)` for non-negative `start` and `len` (PHP 8: an
      offset past the end gives the empty string). */
  function Substr(s: string, start: nat, len: nat): (r: string)
    ensures |r| <= len
  {
    if start >= |s| then "" else if start + len <= |s| then s[start..start + len] else s[start..]
  }

  /** `strstr(s, c, true)`: the part of `s` before the first `c`, or `false`
      (here `None`) when `c` does not occur. */
  function BeforeFirst(s: string, c: char): (r: Option<string>)
    ensures r.None? <==> c !in s
    ensures r.Some? ==> |r.value| < |s| && r.value == s[..|r.value|] && s[|r.value|] == c && c !in r.value
  {
    if s == [] then None
    else if s[0] == c then Some("")
    else match BeforeFirst(s[1..], c)
      case None => None
      case Some(t) => Some([s[0]] + t)
  }

  /** The part of `s` after the first `c`, if there is one. */
  function AfterFirst(s: string, c: char): (r: Option<string>)
    ensures r.None? <==> c !in s
  {
    match BeforeFirst(s, c)
    case None => None
    case Some(t) => Some(s[|t| + 1..])
  }

  /** `explode(' ', s, 3)[2]`: the text after the second space, which may
      itself contain spaces; absent when `s` has fewer than two spaces. */
  function ThirdField(s: string): Option<string> {
    match AfterFirst(s, ' ')
    case None => None
    case Some(rest) => AfterFirst(rest, ' ')
  }

  // ---------------------------------------------------------------- integers and strings

  predicate IsDigit(c: char) {
    '0' <= c <= '9'
  }

  predicate AllDigits(s: string) {
    forall i :: 0 <= i < |s| ==> IsDigit(s[i])
  }

  function DigitChar(d: nat): (c: char)
    requires d < 10
    ensures IsDigit(c) && c as int - '0' as int == d
  {
    (d + '0' as int) as char
  }

  /** The value of a string of decimal digits. */
  function DigitsValue(s: string): int {
    if s == [] then 0 else 10 * DigitsValue(s[..|s| - 1]) + (s[|s| - 1] as int - '0' as int)
  }

  /** PHP's decimal rendering of a non-negative integer. */
  function NatToString(n: nat): (r: string)
    ensures |r| >= 1
  {
    if n < 10 then [DigitChar(n)] else NatToString(n / 10) + [DigitChar(n % 10)]
  }

  lemma {:induction false} NatToStringDigits(n: nat)
    ensures AllDigits(NatToString(n))
  {
    if n >= 10 {
      NatToStringDigits(n / 10);
    }
  }

  /** PHP's `(string)` of an int, as used by the `.` operator. */
  function IntToString(i: int): string {
    if i < 0 then "-" + NatToString(-i) else NatToString(i)
  }

  /** Reading back the digits of `n` gives `n`. */
  lemma {:induction false} NatToStringRoundTrip(n: nat)
    ensures DigitsValue(NatToString(n)) == n
  {
    if n >= 10 {
      NatToStringRoundTrip(n / 10);
      var s := NatToString(n);
      assert s[..|s| - 1] == NatToString(n / 10);
    }
  }

  /** The rendering starts with '-' exactly for negative integers. */
  lemma IntToStringSign(i: int)
    ensures IntToString(i) != [] && (IntToString(i)[0] == '-' <==> i < 0)
  {
    if i >= 0 {
      NatToStringDigits(i);
      assert IsDigit(NatToString(i)[0]);
    }
  }

  /** Different integers render as different strings. */
  lemma IntToStringInjective(a: int, b: int)
    requires IntToString(a) == IntToString(b)
    ensures a == b
  {
    IntToStringSign(a);
    IntToStringSign(b);
    if a < 0 && b < 0 {
      assert IntToString(a)[1..] == NatToString(-a);
      assert IntToString(b)[1..] == NatToString(-b);
      NatToStringRoundTrip(-a);
      NatToStringRoundTrip(-b);
    } else if a >= 0 && b >= 0 {
      NatToStringRoundTrip(a);
      NatToStringRoundTrip(b);
    }
  }

  /** The whitespace PHP skips before a numeric string: " \t\n\r\v\f". */
  predicate IsNumericSpace(c: char) {
    c == ' ' || c == '\t' || c == '\n' || c == '\r' || c as int == 11 || c as int == 12
  }

  function SkipNumericSpace(s: string): (r: string)
    ensures |r| <= |s| && r == s[|s| - |r|..]
    ensures r != [] ==> !IsNumericSpace(r[0])
  {
    if s != [] && IsNumericSpace(s[0]) then SkipNumericSpace(s[1..]) else s
  }

  /** The longest prefix of decimal digits. */
  function DigitPrefix(s: string): (r: string)
    ensures |r| <= |s| && r == s[..|r|]
    ensures |r| < |s| ==> !IsDigit(s[|r|])
  {
    if s != [] && IsDigit(s[0]) then [s[0]] + DigitPrefix(s[1..]) else ""
  }

  /** PHP's `(int)` cast of a string: leading whitespace, an optional sign and
      the longest run of digits that follows; 0 when there are no digits. */
  function IntCast(s: string): int {
    var t := SkipNumericSpace(s);
    if t != [] && t[0] == '-' then -DigitsValue(DigitPrefix(t[1..]))
    else if t != [] && t[0] == '+' then DigitsValue(DigitPrefix(t[1..]))
    else DigitsValue(DigitPrefix(t))
  }

  lemma {:induction false} DigitPrefixOfDigits(s: string)
    requires AllDigits(s)
    ensures DigitPrefix(s) == s
  {
    if s != [] {
      DigitPrefixOfDigits(s[1..]);
    }
  }

  /** The `(int)` cast inverts `(string)` on integers. */
  lemma IntCastRoundTrip(i: int)
    ensures IntCast(IntToString(i)) == i
  {
    var s := IntToString(i);
    var d := NatToString(if i < 0 then -i else i);
    NatToStringDigits(if i < 0 then -i else i);
    NatToStringRoundTrip(if i < 0 then -i else i);
    DigitPrefixOfDigits(d);
    if i < 0 {
      assert s == "-" + d && s[1..] == d;
      NoLeadingSpace(s);
    } else {
      assert s == d && IsDigit(s[0]);
      NoLeadingSpace(s);
    }
  }

  lemma NoLeadingSpace(s: string)
    requires s != [] && (s[0] == '-' || IsDigit(s[0]))
    ensures SkipNumericSpace(s) == s
  {
  }

  /** PHP's `(int)` cast of a scalar. */
  function IntValue(v: Value): int {
    match v
    case VNull => 0
    case VBool(b) => if b then 1 else 0
    case VInt(i) => i
    case VString(s) => IntCast(s)
  }

  /** `(int)` leaves an int alone and inverts `(string)`. */
  lemma IntValueOfInt(i: int)
    ensures IntValue(VInt(i)) == i
    ensures IntValue(VString(IntToString(i))) == i
  {
    IntCastRoundTrip(i);
  }

  // ---------------------------------------------------------------- lines, as fgets returns them

  /** The length of the first line of `s`, its newline included. */
  function LineLength(s: string): (k: nat)
    requires s != []
    ensures 1 <= k <= |s|
  {
    if s[0] == '\n' || |s| == 1 then 1 else 1 + LineLength(s[1..])
  }

  /** The first line holds no newline but its last byte, which is one unless
      the line ends the file. */
  lemma {:induction false} LineLengthShape(s: string)
    requires s != []
    ensures var k := LineLength(s);
            && (forall i :: 0 <= i < k - 1 ==> s[i] != '\n')
            && (k < |s| ==> s[k - 1] == '\n')
  {
    if !(s[0] == '\n' || |s| == 1) {
      LineLengthShape(s[1..]);
      var k := LineLength(s);
      forall i | 0 <= i < k - 1
        ensures s[i] != '\n'
      {
        if i > 0 {
          assert s[1..][i - 1] == s[i];
        }
      }
    }
  }

  /** The successive results of `fgets` on a file with contents `s`: each line
      keeps its terminating newline; the last one may have none. */
  function Lines(s: string): seq<string>
    decreases |s|
  {
    if s == [] then [] else [s[..LineLength(s)]] + Lines(s[LineLength(s)..])
  }

  function Concat(ls: seq<string>): string {
    if ls == [] then "" else ls[0] + Concat(ls[1..])
  }

  /** Joining the lines back together gives the file contents. */
  lemma {:induction false} LinesRoundTrip(s: string)
    ensures Concat(Lines(s)) == s
    decreases |s|
  {
    if s != [] {
      var k := LineLength(s);
      var head, tail := s[..k], s[k..];
      calc {
        Concat(Lines(s));
        Concat([head] + Lines(tail));
        { ConcatCons(head, Lines(tail)); }
        head + Concat(Lines(tail));
        { LinesRoundTrip(tail); }
        head + tail;
        s;
      }
    }
  }

  lemma ConcatCons(l: string, ls: seq<string>)
    ensures Concat([l] + ls) == l + Concat(ls)
  {
    assert ([l] + ls)[1..] == ls;
  }

  /** Every line is non-empty, holds a newline only as its last byte, and
      every line but the last ends with one. */
  lemma {:induction false} LinesShape(s: string, i: nat)
    requires i < |Lines(s)|
    ensures var l := Lines(s)[i];
            && l != []
            && (forall j :: 0 <= j < |l| - 1 ==> l[j] != '\n')
            && (i < |Lines(s)| - 1 ==> l[|l| - 1] == '\n')
    decreases |s|
  {
    var k := LineLength(s);
    if i > 0 {
      LinesShape(s[k..], i - 1);
      assert Lines(s)[i] == Lines(s[k..])[i - 1];
    } else {
      LineLengthShape(s);
      if |Lines(s)| > 1 {
        assert s[k..] != [];
      }
    }
  }
}
