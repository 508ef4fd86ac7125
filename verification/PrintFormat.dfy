/** print_format of vsnprintf.c: one conversion specification applied to one argument. */
module PrintFormat {
  import opened Wrappers
  import opened Numerals
  import opened Printf

  /** The length modifier in force: sizeof of the type it names. */
  datatype Size = Byte | Half | Word | Double

  /** The low bits of an unsigned long that a type of this size holds. */
  function Truncate(v: nat, z: Size): nat {
    match z
    case Byte => v % 0x100
    case Half => v % 0x1_0000
    case Word => v % P32
    case Double => v % P64
  }

  predicate SignBit(v: nat, z: Size) {
    match z
    case Byte => v % 0x100 >= 0x80
    case Half => v % 0x1_0000 >= 0x8000
    case Word => v % P32 >= P31
    case Double => v % P64 >= P64 / 2
  }

  /** The variables of the loop: width digits so far, length modifier, fill character, case of digits, text so far. */
  datatype Fmt = Fmt(sizec: string, size: Size, fill: char, upper: bool, text: string)

  predicate IsDecimal(c: char) { c == 'u' || c == 'd' || c == 'i' }
  predicate IsHex(c: char) { c == 'x' || c == 'X' }
  predicate IsOctal(c: char) { c == 'o' || c == 'O' }
  predicate IsNumeric(c: char) { IsDecimal(c) || IsHex(c) || IsOctal(c) || c == 'p' }
  predicate IsConversion(c: char) { IsNumeric(c) || c == 'c' || c == 's' }

  /** The argument: a word, and the string it points to where it is a pointer. */
  datatype Arg = Arg(word: nat, str: string)

  function BaseOf(c: char): nat { if IsDecimal(c) then 10 else if IsOctal(c) then 8 else 16 }

  /** What is printed of the argument, apart from a sign. */
  function ValueFor(c: char, z: Size, arg: nat): nat {
    if c == 'u' || c == 'p' then arg
    else if IsHex(c) || IsOctal(c) then Truncate(arg, z)
    else if SignBit(arg, z) then Truncate((P64 - arg) % P64, z)
    else arg
  }

  function SignFor(c: char, z: Size, arg: nat): string {
    if (c == 'd' || c == 'i') && SignBit(arg, z) then "-" else ""
  }

  function PrefixFor(c: char): string { if c == 'p' then "0x" else "" }

  function FillFor(c: char, f: Fmt): char { if c == 'p' then ' ' else f.fill }

  /** The text of a number. */
  function Number(f: Fmt, c: char, arg: nat, room: nat): (r: string)
    requires arg < P64 && room > 0
    ensures |r| <= room
  {
    var sign := SignFor(c, f.size, arg);
    sign + Field(WidthOf(f.sizec), ValueFor(c, f.size, arg), BaseOf(c), f.upper || c == 'X', FillFor(c, f),
                 PrefixFor(c), room - |sign|)
  }

  /** The text of %c: the character follows the filling whether there is room for it or not. */
  function Character(f: Fmt, arg: nat, room: nat): (r: string)
    ensures |r| <= room + 1
  {
    FillText(WidthOf(f.sizec), 1, ' ', room) + [(arg % 256) as char]
  }

  /** The text of %s. */
  function String(f: Fmt, str: string, room: nat): (r: string)
    ensures |r| <= room
  {
    var a := FillText(ValueOf(f.sizec, 10) % P64, |str|, ' ', room);
    a + str[..Min(|str|, room - |a|)]
  }

  /** The text of one conversion. */
  function Converted(f: Fmt, c: char, arg: Arg, room: nat): (r: string)
    requires arg.word < P64 && room > 0
    ensures |r| <= room + 1 && (c != 'c' ==> |r| <= room)
  {
    if c == 'c' then Character(f, arg.word, room)
    else if c == 's' then String(f, arg.str, room)
    else Number(f, c, arg.word, room)
  }

  /** One turn of the loop at a character and its successor: the new variables and how many characters it consumed. */
  function Turn(f: Fmt, c: char, next: char, arg: Arg, bufsize: nat): (r: (Fmt, nat))
    requires arg.word < P64 && |f.text| < bufsize
    ensures |r.0.text| <= bufsize + 1 && r.1 >= 1
  {
    if IsConversion(c) then
      (f.(text := f.text + Converted(f, c, arg, bufsize - |f.text|), upper := f.upper || c == 'X'), 1)
    else if c == 'l' then (f.(size := Double), if next == 'l' then 2 else 1)
    else if c == 'h' then if next == 'h' then (f.(size := Byte), 2) else (f.(size := Half), 1)
    else if c == 'z' then (f.(size := Double), 1)
    else if '0' <= c <= '9' then (f.(sizec := f.sizec + [c]), 1)
    else (f, 1)
  }

  function Scan(format: string, i: nat, f: Fmt, arg: Arg, bufsize: nat): (r: Fmt)
    requires arg.word < P64 && |f.text| <= bufsize + 1
    ensures |r.text| <= bufsize + 1
    decreases |format| - i
  {
    if i >= |format| || |f.text| >= bufsize then f
    else
      var (g, k) := Turn(f, format[i], At(format, i + 1), arg, bufsize);
      Scan(format, i + k, g, arg, bufsize)
  }

  predicate HasFlag(format: string) { At(format, 1) == '0' || At(format, 1) == '.' }

  function Begin(format: string): Fmt { Fmt("", Word, if HasFlag(format) then '0' else ' ', false, "") }

  function Formatted(format: string, arg: Arg, bufsize: nat): (r: string)
    requires arg.word < P64
    ensures |r| <= bufsize + 1 && (bufsize == 0 ==> r == "")
  {
    Scan(format, FirstAt(format), Begin(format), arg, bufsize).text
  }

  // ----- the code -----

  lemma Unsigned(f: Fmt, c: char, arg: nat, room: nat)
    requires arg < P64 && room > 0 && SignFor(c, f.size, arg) == ""
    ensures Number(f, c, arg, room) ==
            Field(WidthOf(f.sizec), ValueFor(c, f.size, arg), BaseOf(c), f.upper || c == 'X', FillFor(c, f),
                  PrefixFor(c), room)
  {
    hide Field, WidthOf, ValueFor;
  }

  lemma Decimal(f: Fmt, c: char, arg: nat, room: nat)
    requires arg < P64 && room > 0 && IsDecimal(c)
    ensures Number(f, c, arg, room) ==
            if c != 'u' && SignBit(arg, f.size)
            then "-" + Field(WidthOf(f.sizec), Truncate((P64 - arg) % P64, f.size), 10, f.upper, f.fill, "", room - 1)
            else Field(WidthOf(f.sizec), arg, 10, f.upper, f.fill, "", room)
  {
    hide Field, WidthOf, Truncate, SignBit;
  }

  /** The cases u, d and i of the switch. */
  method ConvertDecimal(buf: array<char>, pos: nat, room: nat, f: Fmt, c: char, arg: nat) returns (end: nat)
    requires pos + room <= buf.Length && room > 0 && arg < P64 && AllDigits(f.sizec, 10) && IsDecimal(c)
    modifies buf
    ensures var t := Number(f, c, arg, room); buf[..] == Overwrite(old(buf[..]), pos, t) && end == pos + |t|
  {
    hide Overwrite, Field, WidthOf, Number, SignBit, Truncate;
    ghost var o := buf[..];
    Decimal(f, c, arg, room);
    if c != 'u' && SignBit(arg, f.size) {
      OverwriteNone(o, pos);
      OverwriteMore(o, pos, "", '-');
      assert "" + ['-'] == "-";
      buf[pos] := '-';
      assert buf[..] == o[pos := '-'];
      var value := Truncate((P64 - arg) % P64, f.size);
      ghost var t := Field(WidthOf(f.sizec), value, 10, f.upper, f.fill, "", room - 1);
      end := PrintField(buf, pos + 1, room - 1, f.sizec, value, 10, f.upper, f.fill, "");
      OverwriteTwice(o, pos, "-", t);
    } else {
      end := PrintField(buf, pos, room, f.sizec, arg, 10, f.upper, f.fill, "");
    }
  }

  /** The cases of the switch that print a number. */
  method ConvertNumber(buf: array<char>, pos: nat, room: nat, f: Fmt, c: char, arg: nat) returns (end: nat)
    requires pos + room <= buf.Length && room > 0 && arg < P64 && AllDigits(f.sizec, 10) && IsNumeric(c)
    modifies buf
    ensures var t := Number(f, c, arg, room); buf[..] == Overwrite(old(buf[..]), pos, t) && end == pos + |t|
  {
    hide Overwrite, Field, WidthOf, Number;
    if c == 'u' || c == 'd' || c == 'i' {
      end := ConvertDecimal(buf, pos, room, f, c, arg);
    } else {
      Unsigned(f, c, arg, room);
      if c == 'X' || c == 'x' {
        end := PrintField(buf, pos, room, f.sizec, Truncate(arg, f.size), 16, f.upper || c == 'X', f.fill, "");
      } else if c == 'O' || c == 'o' {
        end := PrintField(buf, pos, room, f.sizec, Truncate(arg, f.size), 8, f.upper, f.fill, "");
      } else {
        end := PrintField(buf, pos, room, f.sizec, arg, 16, f.upper, ' ', "0x");
      }
    }
  }

  /** The case c: the character is stored without asking for room. */
  method ConvertChar(buf: array<char>, pos: nat, room: nat, f: Fmt, arg: nat) returns (end: nat)
    requires pos + room < buf.Length && AllDigits(f.sizec, 10)
    modifies buf
    ensures var t := Character(f, arg, room); buf[..] == Overwrite(old(buf[..]), pos, t) && end == pos + |t|
  {
    hide Overwrite, WidthOf, FillText;
    ghost var o := buf[..];
    ghost var t := FillText(WidthOf(f.sizec), 1, ' ', room);
    FillFits(WidthOf(f.sizec), 1, ' ', room);
    end := PrintFill(buf, pos, room, f.sizec, 1, 10, ' ', 0);
    OverwriteMore(o, pos, t, (arg % 256) as char);
    ghost var before := buf[..];
    buf[end] := (arg % 256) as char;
    assert buf[..] == before[end := (arg % 256) as char];
    end := end + 1;
  }

  /** The case s. */
  method ConvertString(buf: array<char>, pos: nat, room: nat, f: Fmt, str: string) returns (end: nat)
    requires pos + room <= buf.Length && AllDigits(f.sizec, 10)
    modifies buf
    ensures var t := String(f, str, room); buf[..] == Overwrite(old(buf[..]), pos, t) && end == pos + |t|
  {
    hide Overwrite, FillText, ValueOf;
    ghost var o := buf[..];
    ghost var a := FillText(ValueOf(f.sizec, 10) % P64, |str|, ' ', room);
    FillFits(ValueOf(f.sizec, 10) % P64, |str|, ' ', room);
    end := PrintStrFill(buf, pos, room, f.sizec, str, ' ');
    end := PrintStr(buf, end, room - (end - pos), str);
    OverwriteTwice(o, pos, a, str[..Min(|str|, room - |a|)]);
  }

  /** The cases of the switch that print. */
  method Convert(buf: array<char>, pos: nat, room: nat, f: Fmt, c: char, arg: Arg) returns (end: nat)
    requires pos + room < buf.Length && room > 0 && arg.word < P64 && AllDigits(f.sizec, 10) && IsConversion(c)
    modifies buf
    ensures var t := Converted(f, c, arg, room); buf[..] == Overwrite(old(buf[..]), pos, t) && end == pos + |t|
  {
    hide Overwrite, Number, Character, String;
    if c == 'c' {
      end := ConvertChar(buf, pos, room, f, arg.word);
    } else if c == 's' {
      end := ConvertString(buf, pos, room, f, arg.str);
    } else {
      end := ConvertNumber(buf, pos, room, f, c, arg.word);
    }
  }

  /** One turn of the loop of print_format: the switch, then the next character. */
  method Switch(buf: array<char>, start: nat, bufsize: nat, format: string, form: nat, f: Fmt, arg: Arg)
    returns (g: Fmt, form': nat)
    requires start + bufsize < buf.Length && arg.word < P64 && form < |format| && |f.text| < bufsize
    requires AllDigits(f.sizec, 10) && buf[start..start + |f.text|] == f.text
    modifies buf
    ensures (g, form' - form) == Turn(f, format[form], At(format, form + 1), arg, bufsize)
    ensures |g.text| >= |f.text| && g.text[..|f.text|] == f.text && AllDigits(g.sizec, 10)
    ensures buf[..] == Overwrite(old(buf[..]), start + |f.text|, g.text[|f.text|..])
  {
    hide Overwrite, Converted;
    ghost var o := buf[..];
    var c := format[form];
    g, form' := f, form;
    OverwriteNone(o, start + |f.text|);
    assert f.text[|f.text|..] == "";
    if IsConversion(c) {
      var end := Convert(buf, start + |f.text|, bufsize - |f.text|, f, c, arg);
      g := f.(text := buf[start..end], upper := f.upper || c == 'X');
      ghost var t := Converted(f, c, arg, bufsize - |f.text|);
      OverwrittenPart(o, start, |f.text|, t);
      assert g.text[|f.text|..] == t;
    } else if c == 'l' {
      form' := form' + 1;
      g := f.(size := Double);
      if At(format, form') != 'l' {
        form' := form' - 1;
      }
    } else if c == 'h' {
      form' := form' + 1;
      if At(format, form') == 'h' {
        g := f.(size := Byte);
      } else {
        form' := form' - 1;
        g := f.(size := Half);
      }
    } else if c == 'z' {
      g := f.(size := Double);
    } else if '0' <= c <= '9' {
      g := f.(sizec := f.sizec + [c]);
    }
    form' := form' + 1;
  }

  lemma OverwrittenPart(o: string, start: nat, n: nat, t: string)
    requires start + n + |t| <= |o|
    ensures Overwrite(o, start + n, t)[start..start + n + |t|] == o[start..start + n] + t
  {
  }

  /** Digits among the characters from `i` on. */
  function DigitsFrom(format: string, i: nat): nat
    decreases |format| - i
  {
    if i >= |format| then 0 else One('0' <= format[i] <= '9') + DigitsFrom(format, i + 1)
  }

  function FirstAt(format: string): nat { if HasFlag(format) then 2 else 1 }

  lemma TurnStores(format: string, i: nat, f: Fmt, arg: Arg, bufsize: nat)
    requires arg.word < P64 && |f.text| < bufsize && i < |format|
    ensures var (g, k) := Turn(f, format[i], At(format, i + 1), arg, bufsize);
            |g.sizec| + DigitsFrom(format, i + k) == |f.sizec| + DigitsFrom(format, i)
  {
    hide Converted;
    if i + 1 < |format| {
      assert DigitsFrom(format, i + 1) == One('0' <= format[i + 1] <= '9') + DigitsFrom(format, i + 2);
    }
  }

  /** print_format: returns the number of characters stored. The buffer has one place more than `bufsize`, as vsnprintf
      keeps for the terminating NUL, and the width digits fit in the 32 characters of `sizec` with a NUL. */
  method PrintFormat(buf: array<char>, start: nat, bufsize: nat, format: string, arg: Arg) returns (n: nat)
    requires start + bufsize < buf.Length && arg.word < P64
    requires 1 <= |format| && '\0' !in format && DigitsFrom(format, FirstAt(format)) < 32
    modifies buf
    ensures buf[..] == Overwrite(old(buf[..]), start, Formatted(format, arg, bufsize))
    ensures n == |Formatted(format, arg, bufsize)|
  {
    hide Overwrite, Turn, AllDigits;
    ghost var o := buf[..];
    OverwriteNone(o, start);
    NoWidth();
    var form := FirstAt(format);
    var f := Begin(format);
    while form < |format| && |f.text| < bufsize
      invariant |f.text| <= bufsize + 1 && AllDigits(f.sizec, 10)
      invariant |f.sizec| + DigitsFrom(format, form) < 32
      invariant buf[..] == Overwrite(o, start, f.text)
      invariant Scan(format, form, f, arg, bufsize).text == Formatted(format, arg, bufsize)
      decreases |format| - form
    {
      OverwrittenPart(o, start, 0, f.text);
      TurnStores(format, form, f, arg, bufsize);
      var g, form' := Switch(buf, start, bufsize, format, form, f, arg);
      OverwriteTwice(o, start, f.text, g.text[|f.text|..]);
      assert f.text + g.text[|f.text|..] == g.text;
      f, form := g, form';
    }
    n := |f.text|;
  }

  lemma NoWidth()
    ensures AllDigits("", 10)
  {
  }

  // ----- what a specification means -----

  datatype Spec = Spec(flag: string, width: string, modifier: string, conv: char)

  predicate AllDecimal(s: string) { forall i | 0 <= i < |s| :: '0' <= s[i] <= '9' }

  predicate WellFormed(q: Spec) {
    && (q.flag == "" || q.flag == "0" || q.flag == ".")
    && AllDecimal(q.width) && (q.flag == "" ==> At(q.width, 0) != '0')
    && (q.modifier == "" || q.modifier == "l" || q.modifier == "ll" || q.modifier == "h" || q.modifier == "hh"
        || q.modifier == "z")
    && q.conv in {'u', 'd', 'i', 'x', 'X', 'o', 'O', 'p', 'c', 's'}
  }

  function FormatOf(q: Spec): string { "%" + q.flag + q.width + q.modifier + [q.conv] }

  function SizeOf(modifier: string): Size {
    if modifier == "" then Word
    else if modifier == "h" then Half
    else if modifier == "hh" then Byte
    else Double
  }

  function FmtOf(q: Spec): Fmt { Fmt(q.width, SizeOf(q.modifier), if q.flag == "" then ' ' else '0', false, "") }

  lemma ScanDigit(format: string, i: nat, f: Fmt, arg: Arg, bufsize: nat)
    requires arg.word < P64 && |f.text| < bufsize && i < |format| && '0' <= format[i] <= '9'
    ensures Scan(format, i, f, arg, bufsize) == Scan(format, i + 1, f.(sizec := f.sizec + [format[i]]), arg, bufsize)
  {
    hide Converted;
  }

  lemma {:induction false} ScanWidth(format: string, i: nat, j: nat, f: Fmt, arg: Arg, bufsize: nat)
    requires arg.word < P64 && f.text == "" && 0 < bufsize && i <= j <= |format| && AllDecimal(format[i..j])
    ensures Scan(format, i, f, arg, bufsize) == Scan(format, j, f.(sizec := f.sizec + format[i..j]), arg, bufsize)
    decreases j - i
  {
    hide Scan;
    if i == j {
      assert f.sizec + format[i..j] == f.sizec;
    } else {
      var w := format[i..j];
      assert w[0] == format[i] && format[i + 1..j] == w[1..] && w == [w[0]] + w[1..];
      assert f.sizec + [w[0]] + w[1..] == f.sizec + w;
      ScanDigit(format, i, f, arg, bufsize);
      ScanWidth(format, i + 1, j, f.(sizec := f.sizec + [format[i]]), arg, bufsize);
    }
  }

  lemma ScanConv(format: string, i: nat, f: Fmt, arg: Arg, bufsize: nat)
    requires arg.word < P64 && f.text == "" && 0 < bufsize && i + 1 == |format| && IsConversion(format[i])
    ensures Scan(format, i, f, arg, bufsize).text == Converted(f, format[i], arg, bufsize)
  {
    hide Converted;
    assert "" + Converted(f, format[i], arg, bufsize) == Converted(f, format[i], arg, bufsize);
  }

  lemma ScanModifier(format: string, i: nat, modifier: string, f: Fmt, arg: Arg, bufsize: nat)
    requires arg.word < P64 && f.text == "" && f.size == Word && 0 < bufsize && i + |modifier| + 1 == |format|
    requires format[i..i + |modifier|] == modifier && IsConversion(format[|format| - 1])
    requires modifier == "" || modifier == "l" || modifier == "ll" || modifier == "h" || modifier == "hh"
             || modifier == "z"
    ensures Scan(format, i, f, arg, bufsize) ==
            Scan(format, i + |modifier|, f.(size := SizeOf(modifier)), arg, bufsize)
  {
    hide Converted;
    if modifier != "" {
      assert format[i] == modifier[0];
      assert |modifier| == 2 ==> format[i + 1] == modifier[1];
    }
  }

  lemma FormatParts(q: Spec)
    requires WellFormed(q)
    ensures var i := 1 + |q.flag|;
            var j := i + |q.width|;
            var k := j + |q.modifier|;
            var format := FormatOf(q);
            && |format| == k + 1 && format[i..j] == q.width && format[j..k] == q.modifier && format[k] == q.conv
            && (HasFlag(format) <==> q.flag != "")
  {
    var format := FormatOf(q);
    var i := 1 + |q.flag|;
    var j := i + |q.width|;
    var k := j + |q.modifier|;
    assert format[i..j] == q.width && format[j..k] == q.modifier && format[k] == q.conv;
    assert q.flag != "" ==> format[1] == q.flag[0];
    assert q.flag == "" && q.width != "" ==> format[1] == q.width[0];
    assert q.flag == "" && q.width == "" && q.modifier != "" ==> format[1] == q.modifier[0];
  }

  /** The whole loop on a well-formed specification is its one conversion. */
  lemma FormatScans(q: Spec, arg: Arg, bufsize: nat)
    requires WellFormed(q) && arg.word < P64 && bufsize > 0
    ensures Formatted(FormatOf(q), arg, bufsize) == Converted(FmtOf(q), q.conv, arg, bufsize)
  {
    hide Converted, Scan, FormatOf, HasFlag;
    FormatParts(q);
    var format := FormatOf(q);
    var i := 1 + |q.flag|;
    var j := i + |q.width|;
    var k := j + |q.modifier|;
    ScanWidth(format, i, j, Begin(format), arg, bufsize);
    assert "" + q.width == q.width;
    ScanModifier(format, j, q.modifier, Begin(format).(sizec := q.width), arg, bufsize);
    ScanConv(format, k, FmtOf(q), arg, bufsize);
  }

  /** For %u, %o, %x, %X and %p, every width, flag and length modifier: the text is as long as the larger of the width
      and the digits exactly when there is room for that, and then strtoul in the same base returns the printed value
      and stops at the end. */
  lemma NumberParses(q: Spec, arg: Arg, bufsize: nat)
    requires WellFormed(q) && IsNumeric(q.conv) && q.conv != 'd' && q.conv != 'i' && arg.word < P64
    ensures var value := ValueFor(q.conv, SizeOf(q.modifier), arg.word);
            var digits := Digits(value, BaseOf(q.conv), q.conv == 'X');
            var need := Max(WidthOf(q.width), |PrefixFor(q.conv)| + |digits|);
            var text := Formatted(FormatOf(q), arg, bufsize);
            && (|text| == need <==> bufsize >= need)
            && (bufsize >= need ==>
                  forall spaces, from, end, v ::
                    Parsed(text, BaseOf(q.conv), spaces, from, end, v) ==> v == value && end == |text|)
            && (bufsize >= need ==> exists spaces, from :: Parsed(text, BaseOf(q.conv), spaces, from, |text|, value))
  {
    hide Digits, WidthOf, Field, Formatted, Parsed, Number;
    var b := BaseOf(q.conv);
    var value := ValueFor(q.conv, SizeOf(q.modifier), arg.word);
    var need := Max(WidthOf(q.width), |PrefixFor(q.conv)| + |Digits(value, b, q.conv == 'X')|);
    var text := Formatted(FormatOf(q), arg, bufsize);
    if bufsize > 0 {
      FormatScans(q, arg, bufsize);
      Unsigned(FmtOf(q), q.conv, arg.word, bufsize);
      FieldCorrect(WidthOf(q.width), value, b, q.conv == 'X', FillFor(q.conv, FmtOf(q)), PrefixFor(q.conv), bufsize);
      if bufsize >= need {
        var spaces, from :| Parsed(text, b, spaces, from, |text|, value);
        forall spaces', from', end, v | Parsed(text, b, spaces', from', end, v) ensures v == value && end == |text| {
          ParsedUnique(text, b, spaces, from, |text|, value, spaces', from', end, v);
        }
      }
    }
  }

  /** What is stored fits in the room given, except exactly when %c has a width above it: then it is one character
      more. */
  lemma TextFits(q: Spec, arg: Arg, bufsize: nat)
    requires WellFormed(q) && arg.word < P64 && bufsize > 0
    ensures var text := Formatted(FormatOf(q), arg, bufsize);
            |text| == bufsize + 1 <==> q.conv == 'c' && WidthOf(q.width) > bufsize
  {
    hide WidthOf, Formatted, Number, String;
    FormatScans(q, arg, bufsize);
  }

  lemma WidthFive()
    ensures WidthOf("5") == 5
  {
    assert "5"[..0] == "" && ValueOf("", 10) == 0;
  }

  /** Five characters where there was room for four. */
  lemma WideChar()
    ensures Formatted("%5c", Arg('A' as int, ""), 4) == "    A"
  {
    hide Formatted, Number, String, WidthOf;
    var q := Spec("", "5", "", 'c');
    assert FormatOf(q) == "%5c";
    FormatScans(q, Arg('A' as int, ""), 4);
    WidthFive();
    assert FillText(5, 1, ' ', 4) == "    ";
  }

  /** %s: the string to the right of its filling, all of it exactly when there is room for the larger of both. */
  lemma StringText(q: Spec, arg: Arg, bufsize: nat)
    requires WellFormed(q) && q.conv == 's' && arg.word < P64 && bufsize > 0
    ensures var text := Formatted(FormatOf(q), arg, bufsize);
            var width := ValueOf(q.width, 10) % P64;
            var need := Max(width, |arg.str|);
            && (|text| == need <==> bufsize >= need)
            && (bufsize >= need ==> text == Repeat(' ', need - |arg.str|) + arg.str)
  {
    hide ValueOf, Formatted, Number, Character;
    FormatScans(q, arg, bufsize);
  }
}
