/** Numbers as text, as the firmware's C library prints and parses them: strtoul.c and the number printers of
    vsnprintf.c. */
module Numerals {
  import opened Wrappers

  // ----- parsing -----

  /** A C string ends with a NUL that is not part of the sequence. */
  function At(s: string, i: nat): char { if i < |s| then s[i] else '\0' }

  predicate IsSpace(c: char) { c == ' ' || c == '\t' || c == '\n' || c == '\r' }

  /** Digit value of a character, 36 for a character that is no digit of any base. */
  function DigitOf(c: char): nat {
    if '0' <= c <= '9' then c as int - '0' as int
    else if 'a' <= c <= 'z' then c as int - 'a' as int + 10
    else if 'A' <= c <= 'Z' then c as int - 'A' as int + 10
    else 36
  }

  predicate AllSpaces(s: string) { forall i | 0 <= i < |s| :: IsSpace(s[i]) }

  predicate AllDigits(s: string, base: nat) { forall i | 0 <= i < |s| :: DigitOf(s[i]) < base }

  /** Positional value. */
  function ValueOf(s: string, base: nat): nat {
    if s == [] then 0 else ValueOf(s[..|s| - 1], base) * base + DigitOf(s[|s| - 1])
  }

  predicate HexPrefix(s: string, i: nat) { At(s, i) == '0' && At(s, i + 1) == 'x' }

  /** A space is one of four characters. */
  lemma SpaceIff(c: char)
    ensures IsSpace(c) <==> c in " \t\n\r"
  {
  }

  /** The 36 digits, letters in either case, by their ASCII codes. */
  lemma DigitIff(c: char)
    ensures 48 <= c as int <= 57 ==> DigitOf(c) == c as int - 48
    ensures 97 <= c as int <= 122 ==> DigitOf(c) == c as int - 87
    ensures 65 <= c as int <= 90 ==> DigitOf(c) == c as int - 55
    ensures DigitOf(c) == 36 <==>
              !(48 <= c as int <= 57) && !(97 <= c as int <= 122) && !(65 <= c as int <= 90)
  {
  }

  /** The value of a number written out. */
  lemma ValueExamples()
    ensures ValueOf("190", 10) == 190 && ValueOf("17", 8) == 15 && ValueOf("1aF", 16) == 431
  {
    assert "190"[..2] == "19" && "19"[..1] == "1" && "1"[..0] == "";
    assert "17"[..1] == "1" && "1aF"[..2] == "1a" && "1a"[..1] == "1";
  }

  /** `spaces`, then `from`, then `end`: where the number begins, where its digits begin, where they end. */
  ghost predicate Parsed(s: string, base: nat, spaces: nat, from: nat, end: nat, value: nat) {
    var hex := At(s, spaces) == '0' && At(s, spaces + 1) == 'x';
    var b := if base == 0 then (if hex then 16 else 10) else base;
    && spaces <= from <= end <= |s| && AllSpaces(s[..spaces]) && !IsSpace(At(s, spaces))
    && from == (if b == 16 && hex then spaces + 2 else spaces)
    && AllDigits(s[from..end], b) && DigitOf(At(s, end)) >= b
    && value == ValueOf(s[from..end], b) % P64
  }

  lemma WrapStep(v: nat, base: nat, d: nat)
    ensures (v % P64 * base + d) % P64 == (v * base + d) % P64
  {
    var q := v / P64;
    var k := q * base;
    assert v * base + d == (v % P64 * base + d) + k * P64;
  }

  lemma NoDigits(s: string, i: nat, b: nat)
    requires i <= |s|
    ensures AllDigits(s[i..i], b) && ValueOf(s[i..i], b) == 0
  {
  }

  lemma ValueSnoc(t: string, c: char, b: nat)
    requires AllDigits(t, b) && DigitOf(c) < b
    ensures AllDigits(t + [c], b) && ValueOf(t + [c], b) == ValueOf(t, b) * b + DigitOf(c)
  {
    hide DigitOf;
    assert (t + [c])[..|t|] == t;
  }

  lemma OneMore(s: string, from: nat, end: nat, b: nat)
    requires from <= end < |s| && AllDigits(s[from..end], b) && DigitOf(s[end]) < b
    ensures AllDigits(s[from..end + 1], b)
    ensures ValueOf(s[from..end + 1], b) == ValueOf(s[from..end], b) * b + DigitOf(s[end])
  {
    assert s[from..end + 1] == s[from..end] + [s[end]];
    ValueSnoc(s[from..end], s[end], b);
  }

  /** The digit loop of strtoul. */
  method ParseDigits(s: string, from: nat, b: nat) returns (rval: nat, end: nat)
    requires from <= |s| && b <= 36
    ensures from <= end <= |s| && AllDigits(s[from..end], b) && DigitOf(At(s, end)) >= b
    ensures rval == ValueOf(s[from..end], b) % P64
  {
    hide DigitOf, ValueOf, AllDigits;
    rval, end := 0, from;
    NoDigits(s, from, b);
    while At(s, end) != '\0'
      invariant from <= end <= |s| && AllDigits(s[from..end], b) && rval == ValueOf(s[from..end], b) % P64
      decreases |s| - end
    {
      var digit := DigitOf(s[end]);
      if digit >= b {
        return;
      }
      WrapStep(ValueOf(s[from..end], b), b, digit);
      OneMore(s, from, end, b);
      rval := (rval * b + digit) % P64;
      end := end + 1;
    }
    NulNoDigit();
  }

  lemma NulNoDigit()
    ensures DigitOf('\0') == 36
  {
  }

  /** strtoul: the value and the index where parsing stopped. */
  method StrToUl(s: string, base: int) returns (rval: nat, end: nat)
    ensures base < 0 || base > 36 ==> rval == 0 && end == 0
    ensures 0 <= base <= 36 ==> exists spaces, from :: Parsed(s, base, spaces, from, end, rval)
  {
    hide DigitOf, ValueOf;
    rval, end := 0, 0;
    var b := base;
    if b < 0 || b > 36 {
      return;
    }
    while IsSpace(At(s, end))
      invariant end <= |s| && AllSpaces(s[..end])
      decreases |s| - end
    {
      end := end + 1;
    }
    ghost var spaces := end;
    if b == 0 {
      b := if HexPrefix(s, end) then 16 else 10;
    }
    if b == 16 && HexPrefix(s, end) {
      end := end + 2;
    }
    ghost var from := end;
    rval, end := ParseDigits(s, end, b);
    assert Parsed(s, base, spaces, from, end, rval);
  }

  lemma SpaceAt(s: string, n: nat, i: nat)
    requires n <= |s| && AllSpaces(s[..n])
    ensures i < n ==> IsSpace(At(s, i))
  {
    if i < n {
      assert s[..n][i] == s[i];
    }
  }

  lemma DigitAt(s: string, b: nat, f: nat, e: nat, i: nat)
    requires f <= e <= |s| && AllDigits(s[f..e], b)
    ensures f <= i < e ==> DigitOf(At(s, i)) < b
  {
    if f <= i < e {
      assert s[f..e][i - f] == s[i];
    }
  }

  /** The parse of a string is unique. */
  lemma ParsedUnique(s: string, base: nat, a: nat, f: nat, e: nat, v: nat, a': nat, f': nat, e': nat, v': nat)
    requires Parsed(s, base, a, f, e, v) && Parsed(s, base, a', f', e', v')
    ensures a == a' && f == f' && e == e' && v == v'
  {
    hide ValueOf, DigitOf;
    SpaceAt(s, a', a);
    SpaceAt(s, a, a');
    var b := if base == 0 then (if HexPrefix(s, a) then 16 else 10) else base;
    DigitAt(s, b, f, e', e);
    DigitAt(s, b, f, e, e');
  }

  // ----- printing -----

  function Upper(c: char): char { if 'a' <= c <= 'z' then (c as int - 'a' as int + 'A' as int) as char else c }

  function DigitChar(d: nat, upper: bool): char
    requires d < 16
  {
    var c := "0123456789abcdef"[d];
    if upper then Upper(c) else c
  }

  lemma DigitRoundTrip(d: nat, upper: bool)
    requires d < 16
    ensures DigitOf(DigitChar(d, upper)) == d && DigitChar(d, upper) != 'x' && !IsSpace(DigitChar(d, upper))
  {
  }

  lemma DivFacts(v: nat, base: nat)
    requires base >= 2
    ensures v == v / base * base + v % base && 0 <= v % base < base && v / base >= 0
    ensures v >= base ==> 0 < v / base < v
    ensures v < base ==> v / base == 0 && v % base == v
  {
    var q, r := v / base, v % base;
    assert v == q * base + r;
    if q <= 0 {
      assert q * base <= 0;
    } else {
      assert q * base >= 2 * q;
      assert q * base >= base;
    }
  }

  /** Most significant digit first; zero has one digit. */
  function Digits(v: nat, base: nat, upper: bool): (r: string)
    requires 2 <= base <= 16
    ensures |r| >= 1
  {
    DivFacts(v, base);
    if v < base then [DigitChar(v, upper)] else Digits(v / base, base, upper) + [DigitChar(v % base, upper)]
  }

  lemma {:induction false} DigitsValue(v: nat, base: nat, upper: bool)
    requires 2 <= base <= 16
    ensures AllDigits(Digits(v, base, upper), base) && ValueOf(Digits(v, base, upper), base) == v
    ensures forall i | 0 <= i < |Digits(v, base, upper)| ::
              Digits(v, base, upper)[i] != 'x' && !IsSpace(Digits(v, base, upper)[i])
  {
    hide DigitOf, DigitChar, IsSpace;
    DivFacts(v, base);
    DigitRoundTrip(v % base, upper);
    var s := Digits(v, base, upper);
    if v < base {
      assert ValueOf(s[..0], base) == 0;
    } else {
      DigitsValue(v / base, base, upper);
      assert s[..|s| - 1] == Digits(v / base, base, upper);
    }
  }

  /** The number of digits in any base; zero has one, whatever the base. */
  function DigitCount(v: nat, base: nat): (n: nat)
    requires v > 0 ==> base >= 2
    ensures n >= 1
  {
    if v == 0 || v < base then 1 else DivFacts(v, base); 1 + DigitCount(v / base, base)
  }

  lemma {:induction false} DigitsLength(v: nat, base: nat, upper: bool)
    requires 2 <= base <= 16
    ensures |Digits(v, base, upper)| == DigitCount(v, base)
  {
    DivFacts(v, base);
    if v >= base {
      DigitsLength(v / base, base, upper);
    }
  }

  function Repeat(c: char, n: nat): (r: string)
    ensures |r| == n && forall i | 0 <= i < n :: r[i] == c
  {
    seq(n, _ => c)
  }

  lemma {:induction false} ZeroFill(n: nat, t: string, base: nat)
    requires base >= 1
    ensures ValueOf(Repeat('0', n) + t, base) == ValueOf(t, base)
    decreases n + |t|
  {
    var s := Repeat('0', n) + t;
    if t != [] {
      ZeroFill(n, t[..|t| - 1], base);
      assert s[..|s| - 1] == Repeat('0', n) + t[..|t| - 1];
    } else if n > 0 {
      ZeroFill(n - 1, [], base);
      assert s[..|s| - 1] == Repeat('0', n - 1) + [];
    }
  }

  /** Digits after any number of spaces or zeros, and possibly the prefix of a hexadecimal number, parse to the
      number. */
  lemma PrintedParses(fill: char, n: nat, prefix: string, v: nat, base: nat, upper: bool)
    requires 2 <= base <= 16 && v < P64 && (fill == ' ' || (fill == '0' && prefix == ""))
    requires prefix == "" || (base == 16 && prefix == "0x")
    ensures var s := Repeat(fill, n) + prefix + Digits(v, base, upper);
            exists spaces, from :: Parsed(s, base, spaces, from, |s|, v)
  {
    hide ValueOf, Digits;
    var d := Digits(v, base, upper);
    var s := Repeat(fill, n) + prefix + d;
    DigitsValue(v, base, upper);
    if fill == ' ' {
      var from := n + |prefix|;
      assert s[from..|s|] == d && s[from] == d[0] && s[|s| - 1] == d[|d| - 1];
      assert AllSpaces(s[..n]);
      assert prefix == "" ==> At(s, n + 1) == At(d, 1);
      assert Parsed(s, base, n, n + |prefix|, |s|, v);
    } else {
      ZeroFill(n, d, base);
      assert s == Repeat(fill, n) + d && s[0..|s|] == s;
      assert Parsed(s, base, 0, 0, |s|, v);
    }
  }
}
