/** The printers of vsnprintf.c that store through a cursor into a buffer: print_intlen, print_itoa, print_fill,
    print_str and print_str_fill. */
module Printf {
  import opened Wrappers
  import opened Numerals

  // ----- what the printers store -----

  /** The buffer with `t` stored from `pos` on. */
  function Overwrite(o: string, pos: nat, t: string): (r: string)
    requires pos + |t| <= |o|
    ensures |r| == |o|
  {
    o[..pos] + t + o[pos + |t|..]
  }

  lemma OverwriteNone(o: string, pos: nat)
    requires pos <= |o|
    ensures Overwrite(o, pos, "") == o
  {
  }

  lemma OverwriteMore(o: string, pos: nat, t: string, c: char)
    requires pos + |t| < |o|
    ensures Overwrite(o, pos, t)[pos + |t| := c] == Overwrite(o, pos, t + [c])
  {
  }

  lemma OverwriteLess(o: string, pos: nat, t: string, c: char)
    requires 0 < pos && pos + |t| <= |o|
    ensures Overwrite(o, pos, t)[pos - 1 := c] == Overwrite(o, pos - 1, [c] + t)
  {
  }

  lemma OverwriteTwice(o: string, pos: nat, t: string, u: string)
    requires pos + |t| + |u| <= |o|
    ensures Overwrite(Overwrite(o, pos, t), pos + |t|, u) == Overwrite(o, pos, t + u)
  {
  }

  function Max(a: int, b: int): int { if a < b then b else a }
  function Min(a: int, b: int): int { if a < b then a else b }

  function ItoaText(value: nat, base: nat, upper: bool, room: nat): string {
    if base <= 2 || base > 16 || |Digits(value, base, upper)| > room then "" else Digits(value, base, upper)
  }

  function FillText(width: int, len: nat, fill: char, room: nat): string {
    Repeat(fill, Min(Max(width - len, 0), room))
  }

  /** An unsigned long stored in an int. */
  function ToInt(v: nat): int { if v % P32 < P31 then v % P32 else v % P32 - P32 }

  /** The field width that `sizec` asks for. */
  function WidthOf(sizec: string): int { ToInt(ValueOf(sizec, 10) % P64) }

  // ----- the printers -----

  method PrintIntLen(value: nat, base: nat) returns (i: nat)
    requires value > 0 ==> base >= 2
    ensures i == DigitCount(value, base)
  {
    i := 0;
    var v: nat := value;
    while v > 0
      invariant v == 0 ==> i == if value == 0 then 0 else DigitCount(value, base)
      invariant v > 0 ==> i + DigitCount(v, base) == DigitCount(value, base)
    {
      DivFacts(v, base);
      v := if base == 16 then v / 16 else v / base;
      i := i + 1;
    }
    if i == 0 {
      i := 1;
    }
  }

  lemma DigitsPrefix(v: nat, base: nat, upper: bool, d: string, i: nat)
    requires 2 <= base <= 16 && 1 <= i <= |d| && d[..i] == Digits(v, base, upper)
    ensures 0 <= v % base < base && v / base >= 0
    ensures DigitChar(v % base, upper) == d[i - 1] && d[i - 1..] == [d[i - 1]] + d[i..]
    ensures v / base == 0 ==> i == 1
    ensures v / base != 0 ==> i > 1 && d[..i - 1] == Digits(v / base, base, upper) && v / base < v
  {
    hide DigitChar;
    DivFacts(v, base);
    assert d[..i][i - 1] == d[i - 1];
    assert i > 1 ==> d[..i][..i - 1] == d[..i - 1];
  }

  /** Returns whether the number was printed, and the cursor. */
  method PrintItoa(buf: array<char>, pos: nat, bufsize: nat, value: nat, base: nat, upper: bool)
    returns (ok: bool, end: nat)
    requires pos + bufsize <= buf.Length
    modifies buf
    ensures buf[..] == Overwrite(old(buf[..]), pos, ItoaText(value, base, upper, bufsize))
    ensures end == pos + |ItoaText(value, base, upper, bufsize)| && ok == (end > pos)
  {
    hide DigitChar, Digits, Overwrite;
    ghost var o := buf[..];
    OverwriteNone(o, pos);
    if base <= 2 || base > 16 {
      return false, pos;
    }
    var len := PrintIntLen(value, base);
    DigitsLength(value, base, upper);
    if len > bufsize {
      return false, pos;
    }
    ghost var d := Digits(value, base, upper);
    var i: nat, v: nat := len, value;
    OverwriteNone(o, pos + i);
    assert d[..i] == d && d[i..] == "";
    while true
      invariant 1 <= i <= len && d[..i] == Digits(v, base, upper)
      invariant buf[..] == Overwrite(o, pos + i, d[i..])
      decreases v
    {
      DigitsPrefix(v, base, upper, d, i);
      OverwriteLess(o, pos + i, d[i..], d[i - 1]);
      i := i - 1;
      ghost var before := buf[..];
      buf[pos + i] := DigitChar(v % base, upper);
      assert buf[..] == before[pos + i := d[i]];
      v := v / base;
      if v == 0 {
        break;
      }
    }
    assert d[0..] == d;
    return true, pos + len;
  }

  lemma SizeParses(sizec: string, end: nat, v: nat)
    requires AllDigits(sizec, 10) && exists spaces, from :: Parsed(sizec, 10, spaces, from, end, v)
    ensures v == ValueOf(sizec, 10) % P64
  {
    hide ValueOf;
    var spaces, from :| Parsed(sizec, 10, spaces, from, end, v);
    assert sizec[0..|sizec|] == sizec;
    assert Parsed(sizec, 10, 0, 0, |sizec|, ValueOf(sizec, 10) % P64);
    ParsedUnique(sizec, 10, 0, 0, |sizec|, ValueOf(sizec, 10) % P64, spaces, from, end, v);
  }

  method PrintFill(buf: array<char>, pos: nat, bufsize: nat, sizec: string, size: nat, base: nat, c: char, optlen: nat)
    returns (end: nat)
    requires pos + bufsize <= buf.Length && (size > 0 ==> base >= 2) && AllDigits(sizec, 10)
    modifies buf
    ensures var t := FillText(WidthOf(sizec), DigitCount(size, base) + optlen, c, bufsize);
            buf[..] == Overwrite(old(buf[..]), pos, t) && end == pos + |t|
  {
    hide DigitCount, ToInt, Overwrite, Parsed, ValueOf;
    ghost var o := buf[..];
    var width, stop := StrToUl(sizec, 10);
    SizeParses(sizec, stop, width);
    var sizei := ToInt(width);
    var len := PrintIntLen(size, base);
    len := len + optlen;
    end := pos;
    var i := 0;
    OverwriteNone(o, pos);
    while i < sizei - len && end - pos < bufsize
      invariant i == end - pos <= Min(Max(sizei - len, 0), bufsize)
      invariant buf[..] == Overwrite(o, pos, Repeat(c, i))
    {
      OverwriteMore(o, pos, Repeat(c, i), c);
      assert Repeat(c, i + 1) == Repeat(c, i) + [c];
      ghost var before := buf[..];
      buf[end] := c;
      assert buf[..] == before[end := c];
      end := end + 1;
      i := i + 1;
    }
  }

  method PrintStr(buf: array<char>, pos: nat, bufsize: nat, str: string) returns (end: nat)
    requires pos + bufsize <= buf.Length
    modifies buf
    ensures var t := str[..Min(|str|, bufsize)]; buf[..] == Overwrite(old(buf[..]), pos, t) && end == pos + |t|
  {
    hide Overwrite;
    ghost var o := buf[..];
    end := pos;
    var i := 0;
    OverwriteNone(o, pos);
    while i < |str| && end - pos < bufsize
      invariant i == end - pos <= Min(|str|, bufsize) && buf[..] == Overwrite(o, pos, str[..i])
    {
      OverwriteMore(o, pos, str[..i], str[i]);
      assert str[..i + 1] == str[..i] + [str[i]];
      ghost var before := buf[..];
      buf[end] := str[i];
      assert buf[..] == before[end := str[i]];
      end := end + 1;
      i := i + 1;
    }
  }

  /** print_str_fill: the width is a size_t here. */
  method PrintStrFill(buf: array<char>, pos: nat, bufsize: nat, sizec: string, str: string, c: char)
    returns (end: nat)
    requires pos + bufsize <= buf.Length && AllDigits(sizec, 10)
    modifies buf
    ensures var t := FillText(ValueOf(sizec, 10) % P64, |str|, c, bufsize);
            buf[..] == Overwrite(old(buf[..]), pos, t) && end == pos + |t|
  {
    hide Overwrite, Parsed, ValueOf;
    ghost var o := buf[..];
    var sizei, stop := StrToUl(sizec, 10);
    SizeParses(sizec, stop, sizei);
    end := pos;
    var i := 0;
    OverwriteNone(o, pos);
    while i < sizei - |str| && end - pos < bufsize
      invariant i == end - pos <= Min(Max(sizei - |str|, 0), bufsize)
      invariant buf[..] == Overwrite(o, pos, Repeat(c, i))
    {
      OverwriteMore(o, pos, Repeat(c, i), c);
      assert Repeat(c, i + 1) == Repeat(c, i) + [c];
      ghost var before := buf[..];
      buf[end] := c;
      assert buf[..] == before[end := c];
      end := end + 1;
      i := i + 1;
    }
  }

  /** Filling, then a prefix, then the digits, each as far as there is room; the digits all or none. */
  function Field(width: int, value: nat, base: nat, upper: bool, fill: char, prefix: string, room: nat): (r: string)
    requires 3 <= base <= 16
    ensures |r| <= room
  {
    var a := FillText(width, |Digits(value, base, upper)| + |prefix|, fill, room);
    var b := prefix[..Min(|prefix|, room - |a|)];
    a + b + ItoaText(value, base, upper, room - |a| - |b|)
  }

  /** print_fill, print_str and print_itoa one after the other. */
  method PrintField(buf: array<char>, pos: nat, room: nat, sizec: string, value: nat, base: nat, upper: bool,
                    fill: char, prefix: string) returns (end: nat)
    requires pos + room <= buf.Length && 3 <= base <= 16 && AllDigits(sizec, 10)
    modifies buf
    ensures var t := Field(WidthOf(sizec), value, base, upper, fill, prefix, room);
            buf[..] == Overwrite(old(buf[..]), pos, t) && end == pos + |t|
  {
    hide Overwrite, FillText, WidthOf, ItoaText, Digits;
    ghost var o := buf[..];
    end := PrintFill(buf, pos, room, sizec, value, base, fill, |prefix|);
    DigitsLength(value, base, upper);
    ghost var a := FillText(WidthOf(sizec), |Digits(value, base, upper)| + |prefix|, fill, room);
    FillFits(WidthOf(sizec), |Digits(value, base, upper)| + |prefix|, fill, room);
    ghost var b := prefix[..Min(|prefix|, room - |a|)];
    end := PrintStr(buf, end, room - (end - pos), prefix);
    ghost var c := ItoaText(value, base, upper, room - |a| - |b|);
    ItoaFits(value, base, upper, room - |a| - |b|);
    var ok;
    ok, end := PrintItoa(buf, end, room - (end - pos), value, base, upper);
    OverwriteTwice(o, pos, a, b);
    OverwriteTwice(o, pos, a + b, c);
  }

  lemma FillFits(width: int, len: nat, fill: char, room: nat)
    ensures |FillText(width, len, fill, room)| <= room
  {
  }

  lemma ItoaFits(value: nat, base: nat, upper: bool, room: nat)
    ensures |ItoaText(value, base, upper, room)| <= room
  {
  }

  /** With room, a field is filling, prefix and digits. */
  lemma FieldText(width: int, value: nat, base: nat, upper: bool, fill: char, prefix: string, room: nat)
    requires 3 <= base <= 16 && room >= Max(width, |prefix| + |Digits(value, base, upper)|)
    ensures var d := Digits(value, base, upper);
            Field(width, value, base, upper, fill, prefix, room) ==
            Repeat(fill, Max(width - |prefix| - |d|, 0)) + prefix + d
  {
    hide Digits;
    assert prefix[..|prefix|] == prefix;
  }

  /** With a field of this width the text has its full length exactly when there is room for it, and then it parses back
      to the number. */
  lemma FieldCorrect(width: int, value: nat, base: nat, upper: bool, fill: char, prefix: string, room: nat)
    requires 3 <= base <= 16 && value < P64 && (fill == ' ' || (fill == '0' && prefix == ""))
    requires prefix == "" || (base == 16 && prefix == "0x")
    ensures var need := Max(width, |prefix| + |Digits(value, base, upper)|);
            var r := Field(width, value, base, upper, fill, prefix, room);
            && (|r| == need <==> room >= need)
            && (room >= need ==>
                  exists spaces, from :: Parsed(r, base, spaces, from, |r|, value))
  {
    hide Digits, Parsed;
    var d := Digits(value, base, upper);
    var need := Max(width, |prefix| + |d|);
    var r := Field(width, value, base, upper, fill, prefix, room);
    if room >= need {
      var n := Max(width - (|d| + |prefix|), 0);
      assert prefix[..|prefix|] == prefix;
      assert r == Repeat(fill, n) + prefix + d;
      PrintedParses(fill, n, prefix, value, base, upper);
    }
  }
}
