/** Text operations of the control plane's host language, on single-byte text:
    searching, slicing, stripping and reading decimal integers. */
module Text {

  datatype Option<+T> = None | Some(value: T)

  // ---- Searching and slicing ------------------------------------------------

  predicate MatchAt(s: string, d: string, i: int) {
    0 <= i && i + |d| <= |s| && s[i..i + |d|] == d
  }

  predicate Contains(s: string, d: string) {
    exists i :: 0 <= i <= |s| && MatchAt(s, d, i)
  }

  /** `s.find(d, from)`: the first position at or after `from` where `d` starts, or -1. */
  function Find(s: string, d: string, from: nat): (r: int)
    ensures r == -1 || from <= r
    ensures r != -1 ==> MatchAt(s, d, r)
    ensures forall j :: from <= j && (r == -1 || j < r) ==> !MatchAt(s, d, j)
    decreases |s| - from
  {
    if from + |d| > |s| then -1
    else if s[from..from + |d|] == d then from
    else Find(s, d, from + 1)
  }

  lemma {:induction false} FindIs(s: string, d: string, r: nat)
    requires MatchAt(s, d, r)
    requires forall j :: 0 <= j < r ==> !MatchAt(s, d, j)
    ensures Find(s, d, 0) == r
  {
    var f := Find(s, d, 0);
    assert f == -1 ==> !MatchAt(s, d, r);
  }

  lemma {:induction false} FindIffContains(s: string, d: string)
    ensures Find(s, d, 0) != -1 <==> Contains(s, d)
  {
    var f := Find(s, d, 0);
    if f != -1 {
      assert MatchAt(s, d, f);
    }
  }

  /** Extending a text on the right does not move a match that was already there. */
  lemma {:induction false} MatchInPrefix(s: string, more: string, d: string, i: int)
    requires i + |d| <= |s|
    ensures MatchAt(s + more, d, i) <==> MatchAt(s, d, i)
  {
    if 0 <= i {
      assert (s + more)[i..i + |d|] == s[i..i + |d|];
    }
  }

  lemma {:induction false} MatchChars(s: string, d: string, i: int)
    ensures MatchAt(s, d, i) <==>
            0 <= i && i + |d| <= |s| && forall j :: i <= j < i + |d| ==> s[j] == d[j - i]
  {
    if 0 <= i && i + |d| <= |s| {
      var part := s[i..i + |d|];
      forall j | i <= j < i + |d| ensures s[j] == part[j - i] {
      }
      assert (forall j :: i <= j < i + |d| ==> s[j] == d[j - i]) ==> part == d;
    }
  }

  /** `s[lo:hi]` where `hi` may be negative or past the end. */
  function Slice(s: string, lo: nat, hi: int): string {
    var end := if hi < 0 then |s| + hi else if hi > |s| then |s| else hi;
    if lo < end then s[lo..end] else ""
  }

  /** `s[i]` where a negative `i` counts from the end. */
  function At(s: string, i: int): char
    requires -|s| <= i < |s|
  {
    if i < 0 then s[|s| + i] else s[i]
  }

  // ---- Concatenation --------------------------------------------------------

  function Concat(parts: seq<string>): string {
    if parts == [] then "" else parts[0] + Concat(parts[1..])
  }

  lemma Assoc(x: string, y: string, z: string)
    ensures x + (y + z) == x + y + z
  {
  }

  lemma {:induction false} ConcatAppend(a: seq<string>, b: seq<string>)
    ensures Concat(a + b) == Concat(a) + Concat(b)
  {
    if a == [] {
      assert a + b == b;
    } else {
      var ab := a + b;
      assert ab[0] == a[0] && ab[1..] == a[1..] + b;
      ConcatAppend(a[1..], b);
      Assoc(a[0], Concat(a[1..]), Concat(b));
    }
  }

  lemma {:induction false} ConcatSnoc(a: seq<string>, x: string)
    ensures Concat(a + [x]) == Concat(a) + x
  {
    ConcatAppend(a, [x]);
    assert Concat([x]) == x;
  }

  // ---- Stripping ------------------------------------------------------------

  /** White space as `str.strip` sees it among single-byte characters. */
  predicate IsSpace(c: char) {
    c == ' ' || 9 <= c as int <= 13 || 28 <= c as int <= 31
  }

  function LStrip(s: string): string {
    if s != "" && IsSpace(s[0]) then LStrip(s[1..]) else s
  }

  function RStrip(s: string): string {
    if s != "" && IsSpace(s[|s| - 1]) then RStrip(s[..|s| - 1]) else s
  }

  function Strip(s: string): string {
    RStrip(LStrip(s))
  }

  /** Nothing to strip at either end. */
  predicate Stripped(s: string) {
    s == "" || (!IsSpace(s[0]) && !IsSpace(s[|s| - 1]))
  }

  lemma {:induction false} LStripEnds(s: string)
    ensures |LStrip(s)| <= |s|
    ensures LStrip(s) == "" || !IsSpace(LStrip(s)[0])
    decreases |s|
  {
    if s != "" && IsSpace(s[0]) {
      LStripEnds(s[1..]);
    }
  }

  lemma {:induction false} RStripEnds(s: string)
    ensures |RStrip(s)| <= |s|
    ensures RStrip(s) == s[..|RStrip(s)|]
    ensures RStrip(s) == "" || !IsSpace(RStrip(s)[|RStrip(s)| - 1])
    decreases |s|
  {
    if s != "" && IsSpace(s[|s| - 1]) {
      RStripEnds(s[..|s| - 1]);
    }
  }

  /** Stripping yields a text with nothing left to strip, and leaves exactly those alone. */
  lemma {:induction false} StripEnds(s: string)
    ensures |Strip(s)| <= |s|
    ensures Stripped(Strip(s))
    ensures Strip(s) == s <==> Stripped(s)
  {
    LStripEnds(s);
    RStripEnds(LStrip(s));
  }

  /** Trailing white space never changes what is stripped. */
  lemma {:induction false} StripTrailing(s: string, c: char)
    requires IsSpace(c)
    ensures Strip(s + [c]) == Strip(s)
    decreases |s|
  {
    if s == "" {
      assert s + [c] == [c];
      assert LStrip([c]) == LStrip([c][1..]) == "";
    } else if IsSpace(s[0]) {
      assert (s + [c])[1..] == s[1..] + [c];
      StripTrailing(s[1..], c);
    } else {
      assert LStrip(s + [c]) == s + [c];
      assert (s + [c])[..|s|] == s;
    }
  }

  predicate Blank(s: string) {
    forall i :: 0 <= i < |s| ==> IsSpace(s[i])
  }

  /** White space is the blank, the five controls from tab to carriage return and the four separators. */
  lemma SpaceIs(c: char)
    ensures IsSpace(c) <==>
              c in {' ', '\t', '\n', '\U{0b}', '\U{0c}', '\r', '\U{1c}', '\U{1d}', '\U{1e}', '\U{1f}'}
  {
  }

  lemma {:induction false} LStripIs(s: string) returns (a: string)
    ensures Blank(a) && s == a + LStrip(s)
  {
    if s != "" && IsSpace(s[0]) {
      var rest := LStripIs(s[1..]);
      a := [s[0]] + rest;
      Assoc([s[0]], rest, LStrip(s[1..]));
      assert s == [s[0]] + s[1..];
    } else {
      a := "";
      assert "" + s == s;
    }
  }

  lemma {:induction false} RStripIs(s: string) returns (b: string)
    ensures Blank(b) && s == RStrip(s) + b
  {
    if s != "" && IsSpace(s[|s| - 1]) {
      var n := |s| - 1;
      var rest := RStripIs(s[..n]);
      b := rest + [s[n]];
      Assoc(RStrip(s[..n]), rest, [s[n]]);
      assert s == s[..n] + [s[n]];
    } else {
      b := "";
      assert s + "" == s;
    }
  }

  /** `t` is `s` less the white space at both its ends. */
  ghost predicate Trimmed(s: string, t: string) {
    Stripped(t) && exists a, b :: Blank(a) && Blank(b) && s == a + t + b
  }

  /** Stripping takes away white space at both ends and nothing else. */
  lemma {:induction false} StripIs(s: string)
    ensures Trimmed(s, Strip(s))
  {
    hide LStrip, RStrip;
    var a := LStripIs(s);
    var b := RStripIs(LStrip(s));
    StripEnds(s);
    Assoc(a, Strip(s), b);
    assert s == a + Strip(s) + b;
  }

  // ---- Decimal integers -----------------------------------------------------

  predicate IsDigit(c: char) {
    '0' <= c <= '9'
  }

  function DigitValue(c: char): nat
    requires IsDigit(c)
  {
    c as int - '0' as int
  }

  /** Digits with single underscores allowed between them, as `int` reads them. */
  function ParseNat(t: string): Option<int> {
    var n := |t|;
    if n == 0 || !IsDigit(t[n - 1]) then None
    else if n == 1 then Some(DigitValue(t[0]))
    else
      var rest := if t[n - 2] == '_' then t[..n - 2] else t[..n - 1];
      match ParseNat(rest)
      case None => None
      case Some(v) => Some(10 * v + DigitValue(t[n - 1]))
  }

  /** `int(s)`: optional white space around, an optional sign, then digits. */
  function ParseInt(s: string): Option<int> {
    var t := Strip(s);
    if t == "" then None
    else if t[0] == '-' then
      match ParseNat(t[1..]) case None => None case Some(v) => Some(-v)
    else
      ParseNat(if t[0] == '+' then t[1..] else t)
  }

  /** `str(n)` for a length. */
  function Decimal(n: nat): (t: string)
    ensures t != "" && forall i :: 0 <= i < |t| ==> IsDigit(t[i])
  {
    var digit := ['0' as int as char + (n % 10) as char];
    if n < 10 then digit else Decimal(n / 10) + digit
  }

  lemma {:induction false} ParseNatDecimal(n: nat)
    ensures ParseNat(Decimal(n)) == Some(n)
  {
    var t := Decimal(n);
    if n >= 10 {
      ParseNatDecimal(n / 10);
      assert t[..|t| - 1] == Decimal(n / 10);
    }
  }

  /** Reading back a printed length gives that length. */
  lemma {:induction false} ParseIntDecimal(n: nat)
    ensures ParseInt(Decimal(n)) == Some(n)
  {
    var t := Decimal(n);
    StripEnds(t);
    ParseNatDecimal(n);
  }

  /** No number but zero is written with a zero in front. */
  lemma {:induction false} DecimalPlain(n: nat)
    ensures Decimal(n)[0] == '0' <==> n == 0
    ensures n == 0 ==> Decimal(n) == "0"
  {
    if n >= 10 {
      DecimalPlain(n / 10);
    }
  }

  /** Digits, with no underscore at either end and no two side by side. */
  predicate DigitText(t: string) {
    && t != "" && IsDigit(t[0]) && IsDigit(t[|t| - 1])
    && (forall i :: 0 <= i < |t| ==> IsDigit(t[i]) || t[i] == '_')
    && forall i :: 0 < i < |t| ==> t[i - 1] != '_' || t[i] != '_'
  }

  /** The value of the digits of a text, leaving out everything else. */
  function Value(t: string): nat {
    if t == "" then 0
    else if IsDigit(t[|t| - 1]) then 10 * Value(t[..|t| - 1]) + (t[|t| - 1] as int - '0' as int)
    else Value(t[..|t| - 1])
  }

  /** What is read as a number, and as which. */
  lemma {:induction false} ParseNatIff(t: string)
    ensures ParseNat(t).Some? <==> DigitText(t)
    ensures ParseNat(t).Some? ==> ParseNat(t).value == Value(t)
  {
    var n := |t|;
    if n > 1 && IsDigit(t[n - 1]) {
      if t[n - 2] == '_' {
        ParseNatIff(t[..n - 2]);
        assert t[..n - 1][..n - 2] == t[..n - 2];
      } else {
        ParseNatIff(t[..n - 1]);
      }
    }
  }

  /** White space around a number and a sign before it are read as such, and nothing else is. */
  lemma {:induction false} ParseIntIff(s: string)
    ensures var t := Strip(s);
            var digits := if t != "" && (t[0] == '-' || t[0] == '+') then t[1..] else t;
            && (ParseInt(s).Some? <==> DigitText(digits))
            && (ParseInt(s).Some? ==>
                  ParseInt(s).value == if t[0] == '-' then 0 - Value(digits) as int else Value(digits) as int)
  {
    hide Strip;
    var t := Strip(s);
    ParseNatIff(t);
    if t != "" {
      ParseNatIff(t[1..]);
    }
  }

  function IntText(n: int): string {
    if n < 0 then "-" + Decimal(-n) else Decimal(n)
  }

  lemma {:induction false} IntTextLacks(n: int, c: char)
    requires c != '-' && !IsDigit(c)
    ensures IntText(n) != "" && c !in IntText(n)
  {
    var t := Decimal(if n < 0 then -n else n);
    assert forall i :: 0 <= i < |t| ==> IsDigit(t[i]);
  }

  lemma {:induction false} IntTextInjective(m: int, n: int)
    requires IntText(m) == IntText(n)
    ensures m == n
  {
    var s, t := Decimal(if m < 0 then -m else m), Decimal(if n < 0 then -n else n);
    assert IsDigit(s[0]) && IsDigit(t[0]);
    if m < 0 && n < 0 {
      assert s == IntText(m)[1..] && t == IntText(n)[1..];
    }
    ParseNatDecimal(if m < 0 then -m else m);
    ParseNatDecimal(if n < 0 then -n else n);
  }

  /** A printed number is read back with its sign. */
  lemma {:induction false} ParseIntText(n: int)
    ensures ParseInt(IntText(n)) == Some(n)
  {
    var t := IntText(n);
    var digits := Decimal(if n < 0 then -n else n);
    StripEnds(t);
    ParseNatDecimal(if n < 0 then -n else n);
    if n < 0 {
      assert t[1..] == digits;
    }
  }

  /** A text splits in one way at its first `c`. */
  lemma {:induction false} SplitFirst(a: string, x: string, b: string, y: string, c: char)
    requires a + [c] + x == b + [c] + y && c !in a && c !in b
    ensures a == b && x == y
  {
    var whole := a + [c] + x;
    assert whole == b + [c] + y;
    assert forall i :: 0 <= i < |a| ==> whole[i] == a[i] && whole[i] != c;
    assert forall i :: 0 <= i < |b| ==> whole[i] == b[i] && whole[i] != c;
    assert whole[|a|] == c && whole[|b|] == c;
    assert a == whole[..|a|] && b == whole[..|b|];
    assert x == whole[|a| + 1..] && y == whole[|b| + 1..];
  }

  /** And in one way at its last `c`. */
  lemma {:induction false} SplitLast(a: string, x: string, b: string, y: string, c: char)
    requires a + [c] + x == b + [c] + y && c !in x && c !in y
    ensures a == b && x == y
  {
    var whole := a + [c] + x;
    assert whole == b + [c] + y;
    assert forall i :: |a| < i < |whole| ==> whole[i] == x[i - |a| - 1] && whole[i] != c;
    assert forall i :: |b| < i < |whole| ==> whole[i] == y[i - |b| - 1] && whole[i] != c;
    assert whole[|a|] == c && whole[|b|] == c;
    assert a == whole[..|a|] && b == whole[..|b|];
    assert x == whole[|a| + 1..] && y == whole[|b| + 1..];
  }

  function Upper(s: string): string {
    seq(|s|, i requires 0 <= i < |s| => if 'a' <= s[i] <= 'z' then (s[i] as int - 32) as char else s[i])
  }

  function LowerChar(c: char): char {
    if 'A' <= c <= 'Z' then 'a' + (c - 'A') else c
  }

  function Lower(s: string): (r: string)
    ensures |r| == |s| && forall i :: 0 <= i < |s| ==> r[i] == LowerChar(s[i])
  {
    seq(|s|, i requires 0 <= i < |s| => LowerChar(s[i]))
  }

  lemma LowerConcat(a: string, b: string)
    ensures Lower(a + b) == Lower(a) + Lower(b)
  {
  }

  lemma LowerLacks(s: string, c: char)
    requires c !in s && !('a' <= c <= 'z')
    ensures c !in Lower(s)
  {
  }

  lemma LowerNumber(n: int)
    ensures Lower(IntText(n)) == IntText(n)
  {
    var t := IntText(n);
    assert forall i :: 0 <= i < |t| ==> t[i] == '-' || IsDigit(t[i]);
  }

  lemma LowerBar(a: string, rest: string)
    ensures Lower(a + "|" + rest) == Lower(a) + "|" + Lower(rest)
  {
    LowerConcat(a + "|", rest);
    LowerConcat(a, "|");
  }

  const CAPITALS := "ABCDEFGHIJKLMNOPQRSTUVWXYZ"
  const SMALLS := "abcdefghijklmnopqrstuvwxyz"

  /** Letters change their case, one by one, and nothing else changes. */
  lemma CaseIs(c: char)
    ensures forall i :: 0 <= i < 26 ==> LowerChar(CAPITALS[i]) == SMALLS[i]
    ensures c !in CAPITALS ==> LowerChar(c) == c
    ensures forall i :: 0 <= i < 26 ==> Upper([SMALLS[i]]) == [CAPITALS[i]]
    ensures c !in SMALLS ==> Upper([c]) == [c]
  {
    Letters(c);
    LetterAt(c);
  }

  lemma Letters(c: char)
    ensures |CAPITALS| == 26 && |SMALLS| == 26
    ensures forall i :: 0 <= i < 26 ==> CAPITALS[i] as int == 'A' as int + i && SMALLS[i] as int == 'a' as int + i
  {
  }

  lemma LetterAt(c: char)
    ensures c in CAPITALS <==> 'A' <= c <= 'Z'
    ensures c in SMALLS <==> 'a' <= c <= 'z'
  {
    hide CAPITALS, SMALLS;
    Letters(c);
    if 'A' <= c <= 'Z' {
      assert CAPITALS[c as int - 'A' as int] == c;
    }
    if 'a' <= c <= 'z' {
      assert SMALLS[c as int - 'a' as int] == c;
    }
  }

  /** Every character is put into upper case by itself. */
  lemma UpperEach(s: string)
    ensures |Upper(s)| == |s| && forall i :: 0 <= i < |s| ==> [Upper(s)[i]] == Upper([s[i]])
  {
  }

  /** A slice from `lo` holds, in order, the characters before `hi`, or before that many from the end. */
  lemma SliceIs(s: string, lo: nat, hi: int)
    ensures hi >= 0 && lo <= hi <= |s| ==> Slice(s, lo, hi) == s[lo..hi]
    ensures hi > |s| >= lo ==> Slice(s, lo, hi) == s[lo..]
    ensures hi < 0 && lo <= |s| + hi ==> Slice(s, lo, hi) + s[|s| + hi..] == s[lo..]
    ensures (hi >= 0 && hi <= lo) || lo >= |s| || (hi < 0 && |s| + hi <= lo) ==> Slice(s, lo, hi) == ""
  {
  }

  lemma AtIs(s: string, i: int)
    requires -|s| <= i < |s|
    ensures i >= 0 ==> At(s, i) == s[i]
    ensures i < 0 ==> At(s, i) == At(s, i + |s|)
  {
  }
}
