/**
 * The string operations the scripts use: ASCII `str.lower`, `in` on strings,
 * `endswith`, `str.replace(pat, '')`, `int(...)` of a stripped answer,
 * `f"{n:04d}"`, and the `stem`/`suffix` of a file name as `pathlib` computes them.
 */
module Text {
  import opened Base

  // ---------------------------------------------------------------------
  // Case and substrings

  function LowerChar(c: char): char {
    if 'A' <= c <= 'Z' then (c as int + 32) as char else c
  }

  /** `s.lower()` for ASCII letters. */
  function Lower(s: string): (r: string)
    ensures |r| == |s| && forall i :: 0 <= i < |s| ==> r[i] == LowerChar(s[i])
  {
    seq(|s|, i requires 0 <= i < |s| => LowerChar(s[i]))
  }

  predicate OccursAt(sub: string, s: string, i: nat) {
    i + |sub| <= |s| && s[i..i + |sub|] == sub
  }

  /** Python's `sub in s`. */
  predicate IsInfix(sub: string, s: string) {
    exists i: nat :: i <= |s| && OccursAt(sub, s, i)
  }

  lemma NoInfixInTail(sub: string, s: string)
    requires s != [] && !IsInfix(sub, s)
    ensures !IsInfix(sub, s[1..])
  {
    if IsInfix(sub, s[1..]) {
      var i: nat :| i <= |s[1..]| && OccursAt(sub, s[1..], i);
      assert s[1..][i..i + |sub|] == s[i + 1..i + 1 + |sub|];
      assert OccursAt(sub, s, i + 1);
    }
  }

  predicate EndsWith(s: string, suffix: string) {
    |suffix| <= |s| && s[|s| - |suffix|..] == suffix
  }

  predicate StartsWith(s: string, prefix: string) {
    |prefix| <= |s| && s[..|prefix|] == prefix
  }

  /** `s.replace(pat, '')`: delete every occurrence, scanning left to right without overlap. */
  function RemoveAll(s: string, pat: string): (r: string)
    requires |pat| > 0
    ensures |r| <= |s|
  {
    if |s| < |pat| then s
    else if s[..|pat|] == pat then RemoveAll(s[|pat|..], pat)
    else [s[0]] + RemoveAll(s[1..], pat)
  }

  /** With nothing to delete, `replace` returns its input. */
  lemma {:induction false} RemoveAllAbsent(s: string, pat: string)
    requires |pat| > 0 && !IsInfix(pat, s)
    ensures RemoveAll(s, pat) == s
  {
    if |s| >= |pat| {
      assert !OccursAt(pat, s, 0);
      assert s[0..|pat|] == s[..|pat|];
      NoInfixInTail(pat, s);
      RemoveAllAbsent(s[1..], pat);
      assert [s[0]] + s[1..] == s;
    }
  }

  /**
   * Deleting a pattern whose first character does not recur in it (".nii")
   * from s + pat, where s holds no occurrence, strips it once.
   */
  lemma {:induction false} RemoveAllSuffix(s: string, pat: string)
    requires |pat| > 0 && !IsInfix(pat, s)
    requires forall i :: 0 < i < |pat| ==> pat[i] != pat[0]
    ensures RemoveAll(s + pat, pat) == s
    decreases |s|
  {
    var w := s + pat;
    if s == [] {
      assert w[..|pat|] == pat;
      assert w[|pat|..] == [];
    } else {
      if |s| >= |pat| {
        assert !OccursAt(pat, s, 0);
        assert s[0..|pat|] == s[..|pat|] == w[..|pat|];
      } else {
        assert w[..|pat|][|s|] == pat[0] != pat[|s|];
      }
      assert w[1..] == s[1..] + pat;
      NoInfixInTail(pat, s);
      RemoveAllSuffix(s[1..], pat);
      assert [s[0]] + s[1..] == s;
    }
  }

  // ---------------------------------------------------------------------
  // Splitting and joining

  /** Python's `s.split(c)`: the pieces between separators, empty ones kept. */
  function Split(s: string, c: char): (r: seq<string>)
    ensures |r| >= 1 && forall k :: 0 <= k < |r| ==> c !in r[k]
  {
    if s == [] then [""]
    else
      var rest := Split(s[1..], c);
      if s[0] == c then [""] + rest else [[s[0]] + rest[0]] + rest[1..]
  }

  /** Python's `c.join(ls)`. */
  function JoinSep(ls: seq<string>, c: char): string {
    if ls == [] then "" else if |ls| == 1 then ls[0] else ls[0] + [c] + JoinSep(ls[1..], c)
  }

  lemma {:induction false} SplitNoSep(l: string, c: char)
    requires c !in l
    ensures Split(l, c) == [l]
  {
    if l != [] {
      SplitNoSep(l[1..], c);
      assert [l[0]] + l[1..] == l;
    }
  }

  lemma {:induction false} SplitCons(l: string, c: char, rest: string)
    requires c !in l
    ensures Split(l + [c] + rest, c) == [l] + Split(rest, c)
  {
    var w := l + [c] + rest;
    if l == [] {
      assert w[1..] == rest;
    } else {
      assert w[1..] == l[1..] + [c] + rest;
      SplitCons(l[1..], c, rest);
      assert [l[0]] + l[1..] == l;
    }
  }

  /** Splitting a join of separator-free pieces gives the pieces back. */
  lemma {:induction false} SplitJoin(ls: seq<string>, c: char)
    requires ls != [] && forall k :: 0 <= k < |ls| ==> c !in ls[k]
    ensures Split(JoinSep(ls, c), c) == ls
  {
    if |ls| == 1 {
      SplitNoSep(ls[0], c);
    } else {
      SplitCons(ls[0], c, JoinSep(ls[1..], c));
      SplitJoin(ls[1..], c);
    }
  }

  /** Lines written one after another, each followed by c. */
  function Terminated(ls: seq<string>, c: char): string {
    if ls == [] then "" else ls[0] + [c] + Terminated(ls[1..], c)
  }

  /** Splitting terminated lines gives each line, then the pieces of whatever follows. */
  lemma {:induction false} SplitTerminated(ls: seq<string>, c: char, tail: string)
    requires forall k :: 0 <= k < |ls| ==> c !in ls[k]
    ensures Split(Terminated(ls, c) + tail, c) == ls + Split(tail, c)
  {
    if ls != [] {
      var rest := Terminated(ls[1..], c) + tail;
      calc {
        Split(Terminated(ls, c) + tail, c);
        { assert Terminated(ls, c) + tail == ls[0] + [c] + rest; }
        Split(ls[0] + [c] + rest, c);
        { SplitCons(ls[0], c, rest); }
        [ls[0]] + Split(rest, c);
        { SplitTerminated(ls[1..], c, tail); }
        [ls[0]] + (ls[1..] + Split(tail, c));
        { assert [ls[0]] + ls[1..] == ls; }
        ls + Split(tail, c);
      }
    } else {
      assert Terminated(ls, c) + tail == tail;
    }
  }

  // ---------------------------------------------------------------------
  // Decimal numbers

  function DigitChar(d: nat): char
    requires d < 10
  {
    ('0' as int + d) as char
  }

  predicate IsDigit(c: char) {
    '0' <= c <= '9'
  }

  function DigitValue(c: char): nat
    requires IsDigit(c)
  {
    c as int - '0' as int
  }

  /** `str(n)` for a natural number: its decimal digits, no leading zero. */
  function NatToDecimal(n: nat): (r: string)
    ensures |r| > 0 && forall i :: 0 <= i < |r| ==> IsDigit(r[i])
  {
    if n < 10 then [DigitChar(n)] else NatToDecimal(n / 10) + [DigitChar(n % 10)]
  }

  /** The value of a string of decimal digits (leading zeros allowed). */
  function DecimalValue(s: string): nat
    requires forall i :: 0 <= i < |s| ==> IsDigit(s[i])
  {
    if s == [] then 0 else DecimalValue(s[..|s| - 1]) * 10 + DigitValue(s[|s| - 1])
  }

  lemma {:induction false} DecimalRoundTrip(n: nat)
    ensures DecimalValue(NatToDecimal(n)) == n
  {
    if n >= 10 {
      DecimalRoundTrip(n / 10);
      var r := NatToDecimal(n);
      assert r[..|r| - 1] == NatToDecimal(n / 10);
    }
  }

  function Zeros(k: nat): (r: string)
    ensures |r| == k && forall i :: 0 <= i < k ==> r[i] == '0'
  {
    seq(k, i => '0')
  }

  /** `f"{n:04d}"`: the decimal digits of n, left-padded with zeros to width 4. */
  function ZeroPad4(n: nat): (r: string)
    ensures forall i :: 0 <= i < |r| ==> IsDigit(r[i])
  {
    var d := NatToDecimal(n);
    if |d| < 4 then Zeros(4 - |d|) + d else d
  }

  lemma {:induction false} LeadingZeros(k: nat, d: string)
    requires forall i :: 0 <= i < |d| ==> IsDigit(d[i])
    ensures forall i :: 0 <= i < |Zeros(k) + d| ==> IsDigit((Zeros(k) + d)[i])
    ensures DecimalValue(Zeros(k) + d) == DecimalValue(d)
    decreases |d|
  {
    var w := Zeros(k) + d;
    if d == [] {
      assert w == Zeros(k);
      ZerosValue(k);
    } else {
      assert w[..|w| - 1] == Zeros(k) + d[..|d| - 1];
      LeadingZeros(k, d[..|d| - 1]);
    }
  }

  lemma {:induction false} ZerosValue(k: nat)
    ensures DecimalValue(Zeros(k)) == 0
  {
    if k > 0 {
      assert Zeros(k)[..k - 1] == Zeros(k - 1);
      ZerosValue(k - 1);
    }
  }

  /** The padded form reads back as n, so distinct frame numbers give distinct names. */
  lemma ZeroPad4RoundTrip(n: nat)
    ensures DecimalValue(ZeroPad4(n)) == n
  {
    DecimalRoundTrip(n);
    var d := NatToDecimal(n);
    if |d| < 4 {
      LeadingZeros(4 - |d|, d);
    }
  }

  lemma {:induction false} DecimalLength(n: nat)
    ensures n < 10 ==> |NatToDecimal(n)| == 1
    ensures n < 100 ==> |NatToDecimal(n)| <= 2
    ensures n < 1000 ==> |NatToDecimal(n)| <= 3
    ensures n < 10000 ==> |NatToDecimal(n)| <= 4
    ensures n >= 10 ==> |NatToDecimal(n)| >= 2
    ensures n >= 100 ==> |NatToDecimal(n)| >= 3
    ensures n >= 1000 ==> |NatToDecimal(n)| >= 4
  {
    if n >= 10 {
      DecimalLength(n / 10);
    }
  }

  /** Frame numbers below 10000 take exactly four characters; larger ones are not cut. */
  lemma ZeroPad4Width(n: nat)
    ensures n < 10000 ==> |ZeroPad4(n)| == 4
    ensures |ZeroPad4(n)| >= 4
  {
    DecimalLength(n);
  }

  /** The characters of an integer literal: decimal digits and `_`. */
  predicate DigitsOrUnderscores(b: string) {
    forall i :: 0 <= i < |b| ==> IsDigit(b[i]) || b[i] == '_'
  }

  /** Python's `digit (["_"] digit)*`: digits, with single underscores only between two of them. */
  predicate Grouped(b: string)
    decreases |b|
  {
    b != [] && IsDigit(b[0]) && (|b| == 1 || Grouped(if b[1] == '_' then b[2..] else b[1..]))
  }

  /**
   * The digits `int()` accepts after the sign: at least one digit, and an
   * `_` only singly between two digits (`1_000`, not `_1`, `1_` or `1__0`).
   */
  predicate IntDigits(b: string) {
    DigitsOrUnderscores(b) && Grouped(b)
  }

  /** The digits of an integer literal with its underscores dropped. */
  function DropUnderscores(b: string): (r: string)
    requires DigitsOrUnderscores(b)
    ensures |r| <= |b|
    ensures forall i :: 0 <= i < |r| ==> IsDigit(r[i])
  {
    if b == [] then [] else (if b[0] == '_' then [] else [b[0]]) + DropUnderscores(b[1..])
  }

  /** The part of `s` after an optional leading sign. */
  function Unsigned(s: string): string {
    if s != [] && (s[0] == '-' || s[0] == '+') then s[1..] else s
  }

  /**
   * Python's `int(s)` of a stripped string of ASCII characters: an optional
   * sign, then digits with single underscores between them; the value is
   * that of the digits, negated after a `-`.
   */
  function ParseInt(s: string): (r: Option<int>)
    ensures r.Some? <==> IntDigits(Unsigned(s))
    ensures r.Some? && s[0] == '-' ==> r.value == -(DecimalValue(DropUnderscores(s[1..])) as int)
    ensures r.Some? && s[0] != '-' ==> r.value == DecimalValue(DropUnderscores(Unsigned(s))) as int
  {
    var body := Unsigned(s);
    if !IntDigits(body) then None
    else
      var v := DecimalValue(DropUnderscores(body)) as int;
      Some(if s[0] == '-' then -v else v)
  }

  /** A non-empty string of digits is grouped, and dropping its underscores leaves it as it is. */
  lemma {:induction false} PlainDigits(d: string)
    requires d != [] && forall i :: 0 <= i < |d| ==> IsDigit(d[i])
    ensures IntDigits(d) && DropUnderscores(d) == d
  {
    if |d| > 1 {
      PlainDigits(d[1..]);
      assert [d[0]] + d[1..] == d;
    } else {
      assert d[1..] == [];
    }
  }

  lemma DropExample()
    ensures DigitsOrUnderscores("1_000") && DropUnderscores("1_000") == "1000"
  {
    var b := "1_000";
    assert b[1..] == "_000" && b[1..][1..] == "000";
    PlainDigits("000");
  }

  lemma GroupedExample()
    ensures Grouped("1_000")
  {
    var b := "1_000";
    assert b[2..] == "000";
    PlainDigits("000");
  }

  lemma ThousandValue()
    ensures DecimalValue("1000") == 1000
  {
    assert "1000"[..3] == "100" && "100"[..2] == "10" && "10"[..1] == "1" && "1"[..0] == "";
  }

  /** `int("1_000") == 1000`: the underscores group digits and do not count. */
  lemma UnderscoresGroupDigits()
    ensures ParseInt("1_000") == Some(1000)
  {
    DropExample();
    GroupedExample();
    ThousandValue();
    assert Unsigned("1_000") == "1_000";
  }

  /** An underscore at either end, or two in a row, make `int()` raise. */
  lemma MisplacedUnderscores()
    ensures ParseInt("_1").None? && ParseInt("1_").None? && ParseInt("1__0").None?
  {
    assert "1_"[2..] == [];
    assert "1__0"[2..] == "_0";
  }

  /** `str(n)` for any integer. */
  function IntToDecimal(n: int): string {
    if n < 0 then "-" + NatToDecimal(-n) else NatToDecimal(n)
  }

  /** `int(d)` of a non-empty string of digits is their value. */
  lemma ParsePlain(d: string)
    requires d != [] && forall i :: 0 <= i < |d| ==> IsDigit(d[i])
    ensures ParseInt(d) == Some(DecimalValue(d) as int)
  {
    PlainDigits(d);
    assert Unsigned(d) == d;
  }

  /** `int(s)` of a "-" followed by a non-empty string of digits d is d's value negated. */
  lemma ParseNegated(s: string, d: string)
    requires d != [] && forall i :: 0 <= i < |d| ==> IsDigit(d[i])
    requires s != [] && s[0] == '-' && s[1..] == d
    ensures ParseInt(s) == Some(-(DecimalValue(d) as int))
  {
    PlainDigits(d);
  }

  lemma IntRoundTrip(n: int)
    ensures ParseInt(IntToDecimal(n)) == Some(n)
  {
    if n < 0 {
      DecimalRoundTrip(-n);
      ParseNegated(IntToDecimal(n), NatToDecimal(-n));
    } else {
      DecimalRoundTrip(n);
      ParsePlain(NatToDecimal(n));
    }
  }
}
