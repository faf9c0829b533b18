/** The PHP string built-ins the date code relies on: `sprintf('%0Nd')`,
    `intval`, `explode`, `trim` and the truthiness of strings. */
module Text {

  predicate IsDigit(c: char) {
    '0' <= c <= '9'
  }

  function DigitChar(d: nat): (c: char)
    requires d < 10
    ensures IsDigit(c)
  {
    ('0' as int + d) as char
  }

  function DigitValue(c: char): nat
    requires IsDigit(c)
  {
    (c as int - '0' as int) as nat
  }

  /** The shortest decimal spelling of n. */
  function Digits(n: nat): (s: string)
    ensures 1 <= |s|
    ensures forall i :: 0 <= i < |s| ==> IsDigit(s[i])
  {
    if n < 10 then [DigitChar(n)] else Digits(n / 10) + [DigitChar(n % 10)]
  }

  function Zeros(k: nat): (s: string)
    ensures |s| == k
    ensures forall i :: 0 <= i < k ==> s[i] == '0'
  {
    if k == 0 then "" else "0" + Zeros(k - 1)
  }

  /** `s` padded on the left with zeros to at least `width` characters. */
  function PadZeros(s: string, width: int): (r: string)
    ensures |r| >= |s| && |r| >= width
    ensures r[|r| - |s|..] == s
    ensures forall i :: 0 <= i < |r| - |s| ==> r[i] == '0'
  {
    if |s| >= width then s else Zeros(width - |s|) + s
  }

  /** `sprintf('%0<width>d', n)`: a minus sign for negative n, then the
      digits zero-padded so that sign and digits fill `width`. */
  function FormatInt(n: int, width: nat): string {
    if n >= 0 then PadZeros(Digits(n), width)
    else "-" + PadZeros(Digits(-n), width - 1)
  }

  /** The value of a string of decimal digits, most significant first. */
  function DigitsValue(s: string): nat
    requires forall i :: 0 <= i < |s| ==> IsDigit(s[i])
  {
    if s == [] then 0 else DigitsValue(s[..|s| - 1]) * 10 + DigitValue(s[|s| - 1])
  }

  /** The longest prefix of `s` made of decimal digits. */
  function LeadingDigits(s: string): (r: string)
    ensures |r| <= |s| && r == s[..|r|]
    ensures forall i :: 0 <= i < |r| ==> IsDigit(r[i])
    ensures |r| < |s| ==> !IsDigit(s[|r|])
  {
    if s == [] || !IsDigit(s[0]) then "" else [s[0]] + LeadingDigits(s[1..])
  }

  /** The white space PHP's `intval` skips before a number. */
  predicate IsSpace(c: char) {
    c == ' ' || c == '\t' || c == '\n' || c == '\r' || c == '\U{B}' || c == '\U{C}'
  }

  function SkipSpaces(s: string): (r: string)
    ensures |r| <= |s| && r == s[|s| - |r|..]
    ensures r != [] ==> !IsSpace(r[0])
  {
    if s != [] && IsSpace(s[0]) then SkipSpaces(s[1..]) else s
  }

  /** `intval($s)` on a string: leading white space, an optional sign and
      the leading decimal digits; 0 when there are none. */
  function IntVal(s: string): int {
    var t := SkipSpaces(s);
    if t != [] && t[0] == '-' then -(DigitsValue(LeadingDigits(t[1..])) as int)
    else if t != [] && t[0] == '+' then DigitsValue(LeadingDigits(t[1..]))
    else DigitsValue(LeadingDigits(t))
  }

  /** `explode($sep, $s)`: the pieces between occurrences of `sep`; never
      empty, and [""] for the empty string. */
  function Explode(s: string, sep: char): (r: seq<string>)
    ensures |r| >= 1
    ensures forall i :: 0 <= i < |r| ==> sep !in r[i]
  {
    if s == [] then [""]
    else if s[0] == sep then [""] + Explode(s[1..], sep)
    else
      var rest := Explode(s[1..], sep);
      [[s[0]] + rest[0]] + rest[1..]
  }

  /** Glues pieces back together with `sep`: `implode`. */
  function Implode(parts: seq<string>, sep: char): string
    requires |parts| >= 1
  {
    if |parts| == 1 then parts[0] else parts[0] + [sep] + Implode(parts[1..], sep)
  }

  /** PHP's truthiness of a string: only "" and "0" are false. */
  predicate Truthy(s: string) {
    s != "" && s != "0"
  }

  /** `trim($s)`: drop white space and NUL bytes at both ends. */
  predicate IsTrimmed(c: char) {
    c == ' ' || c == '\t' || c == '\n' || c == '\r' || c == '\0' || c == '\U{B}'
  }

  function TrimLeft(s: string): (r: string)
    ensures |r| <= |s| && r == s[|s| - |r|..]
    ensures r != [] ==> !IsTrimmed(r[0])
  {
    if s != [] && IsTrimmed(s[0]) then TrimLeft(s[1..]) else s
  }

  function TrimRight(s: string): (r: string)
    ensures |r| <= |s| && r == s[..|r|]
    ensures r != [] ==> !IsTrimmed(r[|r| - 1])
  {
    if s != [] && IsTrimmed(s[|s| - 1]) then TrimRight(s[..|s| - 1]) else s
  }

  function Trim(s: string): (r: string)
    ensures |r| <= |s|
    ensures r != [] ==> !IsTrimmed(r[0]) && !IsTrimmed(r[|r| - 1])
    ensures s == [] || (!IsTrimmed(s[0]) && !IsTrimmed(s[|s| - 1])) ==> r == s
  {
    TrimRight(TrimLeft(s))
  }

  // ---------------------------------------------------------------------
  // Properties

  lemma {:induction false} DigitsValueOfDigits(n: nat)
    ensures DigitsValue(Digits(n)) == n
  {
    if n >= 10 {
      var s := Digits(n);
      assert s[..|s| - 1] == Digits(n / 10);
      DigitsValueOfDigits(n / 10);
    }
  }

  lemma {:induction false} DigitsValueSkipsZeros(k: nat, s: string)
    requires forall i :: 0 <= i < |s| ==> IsDigit(s[i])
    ensures forall i :: 0 <= i < |Zeros(k) + s| ==> IsDigit((Zeros(k) + s)[i])
    ensures DigitsValue(Zeros(k) + s) == DigitsValue(s)
    decreases |s|, k
  {
    var z := Zeros(k) + s;
    if s == [] {
      if k > 0 {
        assert z == Zeros(k - 1) + "0";
        assert z[..|z| - 1] == Zeros(k - 1) + [];
        DigitsValueSkipsZeros(k - 1, []);
        assert Zeros(k - 1) + [] == Zeros(k - 1);
      }
    } else {
      assert z[..|z| - 1] == Zeros(k) + s[..|s| - 1];
      DigitsValueSkipsZeros(k, s[..|s| - 1]);
    }
  }

  lemma {:induction false} LeadingDigitsOfDigits(s: string, rest: string)
    requires forall i :: 0 <= i < |s| ==> IsDigit(s[i])
    requires rest == [] || !IsDigit(rest[0])
    ensures LeadingDigits(s + rest) == s
  {
    if s != [] {
      assert (s + rest)[1..] == s[1..] + rest;
      LeadingDigitsOfDigits(s[1..], rest);
      assert [s[0]] + s[1..] == s;
    } else {
      assert s + rest == rest;
    }
  }

  /** The zero-padded digits of n read back as n. */
  lemma PaddedDigitsValue(m: nat, w: int)
    ensures forall i :: 0 <= i < |PadZeros(Digits(m), w)| ==> IsDigit(PadZeros(Digits(m), w)[i])
    ensures DigitsValue(PadZeros(Digits(m), w)) == m
  {
    var ds := Digits(m);
    var p := PadZeros(ds, w);
    assert p == Zeros(|p| - |ds|) + ds;
    DigitsValueSkipsZeros(|p| - |ds|, ds);
    DigitsValueOfDigits(m);
  }

  lemma IntValOfDigits(p: string, rest: string)
    requires p != [] && forall i :: 0 <= i < |p| ==> IsDigit(p[i])
    requires rest == [] || !IsDigit(rest[0])
    ensures IntVal(p + rest) == DigitsValue(p)
  {
    LeadingDigitsOfDigits(p, rest);
    IntValStartingWithDigit(p + rest);
  }

  lemma IntValStartingWithDigit(t: string)
    requires t != [] && IsDigit(t[0])
    ensures IntVal(t) == DigitsValue(LeadingDigits(t))
  {
    assert !IsSpace(t[0]) && t[0] != '-' && t[0] != '+';
    assert SkipSpaces(t) == t;
  }

  lemma IntValOfNegatedDigits(p: string, rest: string)
    requires p != [] && forall i :: 0 <= i < |p| ==> IsDigit(p[i])
    requires rest == [] || !IsDigit(rest[0])
    ensures IntVal("-" + (p + rest)) == -(DigitsValue(p) as int)
  {
    var t := "-" + (p + rest);
    assert t[0] == '-';
    assert !IsSpace(t[0]);
    assert SkipSpaces(t) == t;
    assert t[1..] == p + rest;
    LeadingDigitsOfDigits(p, rest);
  }

  /** `intval` reads back what `sprintf('%0<width>d')` wrote, whatever follows. */
  lemma FormatIntRoundTrip(n: int, width: nat, rest: string)
    requires rest == [] || !IsDigit(rest[0])
    ensures IntVal(FormatInt(n, width) + rest) == n
  {
    if n >= 0 {
      NonNegativeRoundTrip(n, width, rest);
    } else {
      NegativeRoundTrip(-n, width, rest);
    }
  }

  lemma NonNegativeRoundTrip(n: nat, width: nat, rest: string)
    requires rest == [] || !IsDigit(rest[0])
    ensures IntVal(PadZeros(Digits(n), width) + rest) == n
  {
    PaddedDigitsValue(n, width);
    IntValOfDigits(PadZeros(Digits(n), width), rest);
  }

  lemma NegativeRoundTrip(m: nat, width: nat, rest: string)
    requires m > 0 && (rest == [] || !IsDigit(rest[0]))
    ensures IntVal("-" + PadZeros(Digits(m), width - 1) + rest) == -(m as int)
  {
    var p := PadZeros(Digits(m), width - 1);
    PaddedDigitsValue(m, width - 1);
    assert "-" + p + rest == "-" + (p + rest);
    IntValOfNegatedDigits(p, rest);
  }

  lemma FormatIntHasNoSeparator(n: int, width: nat, sep: char)
    requires !IsDigit(sep) && sep != '-'
    ensures sep !in FormatInt(n, width)
  {
    if n >= 0 {
      PaddedDigitsHaveNo(n, width, sep);
    } else {
      PaddedDigitsHaveNo(-n, width - 1, sep);
      assert FormatInt(n, width) == "-" + PadZeros(Digits(-n), width - 1);
    }
  }

  lemma PaddedDigitsHaveNo(m: nat, width: int, sep: char)
    requires !IsDigit(sep)
    ensures sep !in PadZeros(Digits(m), width)
  {
    var p := PadZeros(Digits(m), width);
    assert forall i :: 0 <= i < |p| ==> IsDigit(p[i]);
  }

  lemma {:induction false} ExplodeWithoutSeparator(s: string, sep: char)
    requires sep !in s
    ensures Explode(s, sep) == [s]
  {
    if s != [] {
      ExplodeWithoutSeparator(s[1..], sep);
      assert [s[0]] + s[1..] == s;
    }
  }

  /** A piece without the separator, then the separator, splits off first. */
  lemma {:induction false} ExplodeFirstPiece(a: string, sep: char, b: string)
    requires sep !in a
    ensures Explode(a + [sep] + b, sep) == [a] + Explode(b, sep)
  {
    if a == [] {
      assert a + [sep] + b == [sep] + b;
      assert ([sep] + b)[1..] == b;
    } else {
      assert (a + [sep] + b)[1..] == a[1..] + [sep] + b;
      ExplodeFirstPiece(a[1..], sep, b);
      assert [a[0]] + a[1..] == a;
    }
  }

  /** Splitting at one more separator appends the pieces of both sides. */
  lemma {:induction false} ExplodeAppend(a: string, sep: char, b: string)
    ensures Explode(a + [sep] + b, sep) == Explode(a, sep) + Explode(b, sep)
  {
    var s := a + [sep] + b;
    if a == [] {
      assert s == [sep] + b;
      assert s[1..] == b;
    } else {
      assert s[0] == a[0] && s[1..] == a[1..] + [sep] + b;
      ExplodeAppend(a[1..], sep, b);
      if a[0] != sep {
        GlueFirstPiece(a[0], Explode(a[1..], sep), Explode(b, sep));
      }
    }
  }

  /** Gluing a character to the first piece commutes with appending
      more pieces. */
  lemma GlueFirstPiece(c: char, t: seq<string>, e: seq<string>)
    requires |t| >= 1
    ensures [[c] + (t + e)[0]] + (t + e)[1..] == ([[c] + t[0]] + t[1..]) + e
  {
    assert (t + e)[1..] == t[1..] + e;
  }

  /** `explode` undoes `implode` when no piece contains the separator, and
      `implode` undoes `explode` always. */
  lemma {:induction false} ExplodeImplode(parts: seq<string>, sep: char)
    requires |parts| >= 1
    requires forall i :: 0 <= i < |parts| ==> sep !in parts[i]
    ensures Explode(Implode(parts, sep), sep) == parts
  {
    if |parts| == 1 {
      ExplodeWithoutSeparator(parts[0], sep);
    } else {
      ExplodeImplode(parts[1..], sep);
      ExplodeFirstPiece(parts[0], sep, Implode(parts[1..], sep));
    }
  }

  lemma {:induction false} ImplodeExplode(s: string, sep: char)
    ensures Implode(Explode(s, sep), sep) == s
  {
    if s != [] {
      ImplodeExplode(s[1..], sep);
      var rest := Explode(s[1..], sep);
      if s[0] != sep && |rest| > 1 {
        assert Implode(rest, sep) == rest[0] + [sep] + Implode(rest[1..], sep);
        assert ([[s[0]] + rest[0]] + rest[1..])[1..] == rest[1..];
      } else if s[0] == sep {
        assert ([""] + rest)[1..] == rest;
      }
    }
  }
}
