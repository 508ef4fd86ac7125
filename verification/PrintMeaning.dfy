/** What each conversion of print_format means, in plain terms. */
module PrintMeaning {
  import opened Wrappers
  import opened Numerals
  import opened Printf
  import opened PrintFormat

  /** `digits` spells `value` in `base`: digits of that base in one case, no leading zero, and the value. */
  ghost predicate Spelled(digits: string, value: nat, base: nat, upper: bool)
    requires base <= 16
  {
    var alphabet := if upper then "0123456789ABCDEF" else "0123456789abcdef";
    && |digits| >= 1 && (|digits| > 1 ==> digits[0] != '0')
    && (forall i | 0 <= i < |digits| :: digits[i] in alphabet[..base])
    && ValueOf(digits, base) == value
  }

  lemma DigitIn(d: nat, base: nat, upper: bool)
    requires d < base <= 16
    ensures DigitChar(d, upper) in (if upper then "0123456789ABCDEF" else "0123456789abcdef")[..base]
    ensures DigitChar(d, upper) == '0' <==> d == 0
  {
    var alphabet := if upper then "0123456789ABCDEF" else "0123456789abcdef";
    assert DigitChar(d, upper) == alphabet[d] == alphabet[..base][d];
  }

  lemma {:induction false} DigitsSpell(v: nat, base: nat, upper: bool)
    requires 2 <= base <= 16
    ensures Spelled(Digits(v, base, upper), v, base, upper) && (v > 0 ==> Digits(v, base, upper)[0] != '0')
  {
    hide DigitChar, DigitOf, ValueOf;
    DigitsValue(v, base, upper);
    DivFacts(v, base);
    DigitIn(v % base, base, upper);
    if v >= base {
      DigitsSpell(v / base, base, upper);
    }
  }

  /** The base that a conversion asks for. */
  function BaseAsked(conv: char): nat {
    match conv
    case 'o' => 8
    case 'O' => 8
    case 'x' => 16
    case 'X' => 16
    case 'p' => 16
    case _ => 10
  }

  /** The number of values of the type that a length modifier names. */
  function RangeAsked(modifier: string): nat {
    if modifier == "hh" then 0x100 else if modifier == "h" then 0x1_0000 else if modifier == "" then 0x1_0000_0000
    else 0x1_0000_0000_0000_0000
  }

  /** %u and %p print the whole word, the others what the length modifier leaves of it. */
  function ValueAsked(conv: char, modifier: string, word: nat): nat {
    if conv == 'u' || conv == 'p' then word else word % RangeAsked(modifier)
  }

  function PrefixAsked(conv: char): string { if conv == 'p' then "0x" else "" }

  /** Zeros exactly with a flag, and never for %p. */
  function FillAsked(conv: char, flag: string): char { if flag != "" && conv != 'p' then '0' else ' ' }

  /** The width as a 32-bit signed number. */
  function WidthAsked(width: string): int {
    var w := ValueOf(width, 10) % 0x1_0000_0000;
    if w < 0x8000_0000 then w else w - 0x1_0000_0000
  }

  lemma WidthMeans(width: string)
    ensures WidthOf(width) == WidthAsked(width)
    ensures ValueOf(width, 10) < 0x8000_0000 ==> WidthOf(width) == ValueOf(width, 10)
  {
    hide ValueOf;
    var v := ValueOf(width, 10);
    assert v % P64 % P32 == v % P32;
  }

  lemma ValueMeans(conv: char, modifier: string, word: nat)
    requires conv in {'u', 'x', 'X', 'o', 'O', 'p'} && word < P64
    requires modifier in {"", "l", "ll", "h", "hh", "z"}
    ensures ValueFor(conv, SizeOf(modifier), word) == ValueAsked(conv, modifier, word)
    ensures BaseOf(conv) == BaseAsked(conv) && PrefixFor(conv) == PrefixAsked(conv)
  {
  }

  /** The text of an unsigned conversion, given room. */
  ghost predicate Reads(text: string, q: Spec, word: nat, digits: string) {
    var base, value, prefix := BaseAsked(q.conv), ValueAsked(q.conv, q.modifier, word), PrefixAsked(q.conv);
    && Spelled(digits, value, base, q.conv == 'X')
    && text == Repeat(FillAsked(q.conv, q.flag), Max(WidthAsked(q.width) - |prefix| - |digits|, 0)) + prefix + digits
    && exists spaces, from :: Parsed(text, base, spaces, from, |text|, value)
  }

  /** For %u, %o, %O, %x, %X and %p with every flag, width and length modifier: the text is filling, prefix and the
      digits that spell the value, as long as the larger of width and digits exactly when there is room for that, and
      then strtoul in the same base returns the value and stops at the end. */
  lemma NumberRoundTrip(q: Spec, arg: Arg, bufsize: nat) returns (digits: string)
    requires WellFormed(q) && q.conv in {'u', 'x', 'X', 'o', 'O', 'p'} && arg.word < P64
    ensures Spelled(digits, ValueAsked(q.conv, q.modifier, arg.word), BaseAsked(q.conv), q.conv == 'X')
    ensures var need := Max(WidthAsked(q.width), |PrefixAsked(q.conv)| + |digits|);
            var text := Formatted(FormatOf(q), arg, bufsize);
            && (|text| == need <==> bufsize >= need)
            && (bufsize >= need ==> Reads(text, q, arg.word, digits))
  {
    hide Digits, WidthOf, WidthAsked, Field, Formatted, Parsed, Number, ValueFor, ValueAsked, Spelled;
    ValueMeans(q.conv, q.modifier, arg.word);
    WidthMeans(q.width);
    var value, b, upper := ValueFor(q.conv, SizeOf(q.modifier), arg.word), BaseOf(q.conv), q.conv == 'X';
    digits := Digits(value, b, upper);
    DigitsSpell(value, b, upper);
    NumberParses(q, arg, bufsize);
    if bufsize >= Max(WidthOf(q.width), |PrefixFor(q.conv)| + |digits|) {
      FormatScans(q, arg, bufsize);
      Unsigned(FmtOf(q), q.conv, arg.word, bufsize);
      FieldText(WidthOf(q.width), value, b, upper, FillFor(q.conv, FmtOf(q)), PrefixFor(q.conv), bufsize);
    }
  }

  /** %d and %i: the sign bit of the type decides; a negative number is a minus sign, filling and its magnitude, another
      one the filling and the whole word. */
  lemma SignedText(q: Spec, arg: Arg, bufsize: nat) returns (digits: string)
    requires WellFormed(q) && q.conv in {'d', 'i'} && arg.word < P64
    ensures var range := RangeAsked(q.modifier);
            var negative := arg.word % range >= range / 2;
            var fill := Repeat(if q.flag != "" then '0' else ' ', Max(WidthAsked(q.width) - |digits|, 0));
            var text := (if negative then "-" else "") + fill + digits;
            && Spelled(digits, if negative then range - arg.word % range else arg.word, 10, false)
            && (bufsize >= |text| ==> Formatted(FormatOf(q), arg, bufsize) == text)
  {
    hide Digits, WidthOf, WidthAsked, Field, Formatted, Number, Spelled, Truncate, SignBit, RangeAsked, FormatOf,
      SizeOf, Repeat;
    WidthMeans(q.width);
    var z := SizeOf(q.modifier);
    var negative := SignBit(arg.word, z);
    var value := if negative then Truncate((P64 - arg.word) % P64, z) else arg.word;
    SignMeans(q.modifier, arg.word);
    digits := Digits(value, 10, false);
    DigitsSpell(value, 10, false);
    var f := FmtOf(q);
    if bufsize >= One(negative) + Max(WidthOf(q.width), |digits|) {
      FormatScans(q, arg, bufsize);
      Decimal(f, q.conv, arg.word, bufsize);
      FieldText(WidthOf(q.width), value, 10, false, f.fill, "", bufsize - One(negative));
      assert Repeat(f.fill, Max(WidthOf(q.width) - |digits|, 0)) + "" + digits ==
             Repeat(f.fill, Max(WidthOf(q.width) - |digits|, 0)) + digits;
    }
  }

  lemma SignMeans(modifier: string, word: nat)
    requires modifier in {"", "l", "ll", "h", "hh", "z"} && word < P64
    ensures var range, z := RangeAsked(modifier), SizeOf(modifier);
            && (SignBit(word, z) <==> word % range >= range / 2)
            && (SignBit(word, z) ==> Truncate((P64 - word) % P64, z) == range - word % range)
  {
    Negated(word);
  }

  lemma Negated(word: nat)
    requires word < P64
    ensures word % 0x100 != 0 ==> (P64 - word) % P64 % 0x100 == 0x100 - word % 0x100
    ensures word % 0x1_0000 != 0 ==> (P64 - word) % P64 % 0x1_0000 == 0x1_0000 - word % 0x1_0000
    ensures word % P32 != 0 ==> (P64 - word) % P64 % P32 == P32 - word % P32
    ensures word != 0 ==> (P64 - word) % P64 == P64 - word
  {
    if word != 0 {
      assert (P64 - word) % P64 == P64 - word;
    }
  }

  /** %c: the character to the right of its filling. */
  lemma CharText(q: Spec, arg: Arg, bufsize: nat)
    requires WellFormed(q) && q.conv == 'c' && arg.word < P64 && bufsize > 0 && bufsize >= WidthAsked(q.width)
    ensures Formatted(FormatOf(q), arg, bufsize) ==
            Repeat(' ', Max(WidthAsked(q.width) - 1, 0)) + [(arg.word % 256) as char]
  {
    hide WidthOf, WidthAsked, Formatted, Number, String;
    WidthMeans(q.width);
    FormatScans(q, arg, bufsize);
  }

  /** Every character of a field is filling, of the prefix, or a digit. */
  lemma FieldChar(width: int, value: nat, base: nat, upper: bool, fill: char, prefix: string, room: nat, i: nat)
    requires 3 <= base <= 16 && i < |Field(width, value, base, upper, fill, prefix, room)|
    ensures var c := Field(width, value, base, upper, fill, prefix, room)[i];
            c == fill || c in prefix || c in Digits(value, base, upper)
  {
    hide Digits;
  }

  /** The case of hexadecimal letters. */
  lemma LetterCase(q: Spec, arg: Arg, bufsize: nat, i: nat)
    requires WellFormed(q) && q.conv in {'x', 'X'} && arg.word < P64 && i < |Formatted(FormatOf(q), arg, bufsize)|
    ensures var c := Formatted(FormatOf(q), arg, bufsize)[i];
            if q.conv == 'x' then !('A' <= c <= 'Z') else !('a' <= c <= 'z')
  {
    hide WidthOf, Formatted, Digits, Field, ValueFor, Number;
    if bufsize > 0 {
      var value, f := ValueFor(q.conv, SizeOf(q.modifier), arg.word), FmtOf(q);
      FormatScans(q, arg, bufsize);
      Unsigned(f, q.conv, arg.word, bufsize);
      FieldChar(WidthOf(q.width), value, 16, q.conv == 'X', FillFor(q.conv, f), "", bufsize, i);
      DigitsCase(value, 16, q.conv == 'X');
    }
  }

  lemma CharCase(d: nat, upper: bool)
    requires d < 16
    ensures var c := DigitChar(d, upper); if upper then !('a' <= c <= 'z') else !('A' <= c <= 'Z')
  {
  }

  lemma {:induction false} DigitsCase(v: nat, base: nat, upper: bool)
    requires 2 <= base <= 16
    ensures forall c | c in Digits(v, base, upper) :: if upper then !('a' <= c <= 'z') else !('A' <= c <= 'Z')
  {
    hide DigitChar;
    DivFacts(v, base);
    CharCase(v % base, upper);
    if v >= base {
      DigitsCase(v / base, base, upper);
    }
  }
}
