/** The divider computes quotients and remainders, and flags exactly the quotients that do not fit. */
module DividerProof {
  import opened Wrappers
  import opened Divider

  /** `d` doubled `k` times. */
  function Doubled(d: nat, k: nat): nat { if k == 0 then d else 2 * Doubled(d, k - 1) }

  function DividendOf(o: Op): nat { if o.isExtended then o.dividend * P64 else o.dividend }

  /** Bit positions consumed so far. */
  function Done(s: Regs): nat { (s.count + 1) % 128 }

  // ----- the bit-at-a-time divider -----

  /** One position: dividend register, untruncated quotient. */
  datatype Serial = Serial(dend: nat, quot: nat)

  function Single(x: Serial, div: nat): Serial {
    if x.dend / P64 >= div then Serial(2 * Reduced(x.dend, div), 2 * x.quot + 1)
    else Serial(2 * x.dend, 2 * x.quot)
  }

  function Reduced(dend: nat, div: nat): nat { if dend >= P64 * div then dend - P64 * div else 0 }

  function Singles(x: Serial, div: nat, n: nat): Serial {
    if n == 0 then x else Single(Singles(x, div, n - 1), div)
  }

  lemma {:induction false} SinglesAdd(x: Serial, div: nat, m: nat, n: nat)
    ensures Singles(x, div, m + n) == Singles(Singles(x, div, m), div, n)
  {
    if n != 0 {
      SinglesAdd(x, div, m, n - 1);
    }
  }

  /** Eight positions with a small partial remainder are eight zero bits: the skip refines the serial divider. */
  lemma SkipIsEight(x: Serial, div: nat)
    requires div > 0 && x.dend < P57
    ensures Singles(x, div, 8) == Serial(256 * x.dend, 256 * x.quot)
  {
    var x1 := Single(x, div);
    var x2 := Single(x1, div);
    var x3 := Single(x2, div);
    var x4 := Single(x3, div);
    var x5 := Single(x4, div);
    var x6 := Single(x5, div);
    var x7 := Single(x6, div);
    assert Singles(x, div, 1) == x1 && Singles(x, div, 2) == x2;
    assert Singles(x, div, 3) == x3 && Singles(x, div, 4) == x4;
    assert Singles(x, div, 5) == x5 && Singles(x, div, 6) == x6;
    assert Singles(x, div, 7) == x7;
  }

  /** The defining equation of the serial divider and the range of its remainder. */
  ghost predicate SerialOk(x: Serial, d: nat, div: nat, k: nat) {
    x.dend + P65 * (div * x.quot) == Doubled(d, k) && x.dend < P65 * div
  }

  lemma SingleOk(x: Serial, d: nat, div: nat, k: nat)
    requires SerialOk(x, d, div, k)
    ensures SerialOk(Single(x, div), d, div, k + 1)
  {
    assert div * (2 * x.quot + 1) == 2 * (div * x.quot) + div;
    assert div * (2 * x.quot) == 2 * (div * x.quot);
    TopAtLeast(x.dend, div);
  }

  lemma TopAtLeast(dend: nat, div: nat)
    ensures dend / P64 >= div <==> dend >= P64 * div
  {
  }

  lemma {:induction false} SinglesOk(d: nat, div: nat, k: nat)
    requires d < P64 * div
    ensures SerialOk(Singles(Serial(d, 0), div, k), d, div, k)
  {
    if k != 0 {
      SinglesOk(d, div, k - 1);
      SingleOk(Singles(Serial(d, 0), div, k - 1), d, div, k - 1);
    }
  }

  lemma {:induction false} QuotRange(x: Serial, div: nat, k: nat)
    requires x.quot == 0
    ensures Singles(x, div, k).quot < Pow2(k)
  {
    if k != 0 {
      QuotRange(x, div, k - 1);
    }
  }

  lemma {:induction false} QuotLarge(x: Serial, div: nat, k: nat)
    requires x.dend / P64 >= div && x.quot == 0 && k > 0
    ensures Singles(x, div, k).quot >= Pow2(k - 1)
  {
    if k == 1 {
      assert Singles(x, div, 1) == Single(x, div);
    } else {
      QuotLarge(x, div, k - 1);
    }
  }

  lemma {:induction false} DoubledIs(d: nat, k: nat)
    ensures Doubled(d, k) == Pow2(k) * d
  {
    if k != 0 {
      DoubledIs(d, k - 1);
    }
  }

  lemma Pow2Small()
    ensures Pow2(1) == 2 && Pow2(8) == 256
  {
  }

  lemma Pow2Values()
    ensures Pow2(32) == P32 && Pow2(63) == P63 && Pow2(64) == P64 && Pow2(65) == P65
  {
    hide Pow2;
    Pow2Small();
    Pow2Add(8, 8);
    Pow2Add(16, 16);
    Pow2Add(32, 32);
    Pow2Add(63, 1);
    Pow2Add(64, 1);
  }

  lemma AtLeastOnce(div: nat, n: nat)
    requires n >= 1
    ensures div * n >= div
  {
  }

  lemma SplitProduct(div: nat, m: nat, n: nat)
    requires m <= n
    ensures div * n == div * m + div * (n - m)
  {
  }

  lemma QuotientUnique(div: nat, q: nat, r: nat, q': nat, r': nat)
    requires div * q + r == div * q' + r' && r < div && r' < div
    ensures q == q' && r == r'
  {
    if q < q' {
      SplitProduct(div, q, q');
      AtLeastOnce(div, q' - q);
    } else if q > q' {
      SplitProduct(div, q', q);
      AtLeastOnce(div, q - q');
    }
  }

  lemma QuotientIs(r: nat, d: nat, div: nat, q: nat)
    requires d == div * q + r && r < div
    ensures q == d / div && r == d % div
  {
    QuotientUnique(div, q, r, d / div, d % div);
  }

  /** Without overflow, after 65 positions the serial divider holds quotient and remainder. */
  lemma SerialResult(d: nat, div: nat)
    requires d < P64 * div
    ensures Singles(Serial(d, 0), div, 65) == Serial(P65 * (d % div), d / div)
  {
    var x := Singles(Serial(d, 0), div, 65);
    SinglesOk(d, div, 65);
    DoubledIs(d, 65);
    Pow2Values();
    var r := d - div * x.quot;
    assert x.dend == P65 * r;
    QuotientIs(r, d, div, x.quot);
  }

  // ----- the hardware follows the serial divider -----

  lemma {:induction false} Pow2Mono(m: nat, n: nat)
    requires m <= n
    ensures Pow2(m) <= Pow2(n)
    decreases n - m
  {
    if m < n {
      Pow2Mono(m, n - 1);
    }
  }

  /** No quotient bit beyond the 64th: the quotient fits in 64 bits. */
  predicate Fits64(o: Op) { DividendOf(o) < P64 * o.divisor }

  lemma ReduceMatches(dend: nat, div: nat)
    requires P64 * div <= dend < P65 * div && div < P64
    ensures Sub64((dend / P64) % P64, div) * P65 + (dend % P64) * 2 == 2 * Reduced(dend, div)
  {
    var top, low := dend / P64, dend % P64;
    assert dend == P64 * top + low;
    assert div <= top < 2 * div;
    assert Sub64(top % P64, div) == top - div;
  }

  ghost predicate Midway(s: Regs, o: Op) {
    && Shape(s) && s.running && s.op == o && s.div == o.divisor && GoodOp(o)
    && (s.count == 127 || s.count <= 63)
    && s.quot < Pow2(Done(s)) && (s.ovf32 <==> s.quot >= P32)
    && (Fits64(o) ==> Serial(s.dend, s.quot) == Singles(Serial(DividendOf(o), 0), o.divisor, Done(s)))
    && (!Fits64(o) ==> if Done(s) == 0 then s.dend == DividendOf(o) else s.quot >= Pow2(Done(s) - 1))
  }

  ghost predicate Finished(s: Regs, o: Op) {
    && Shape(s) && !s.running && s.op == o && s.count == 64
    && (s.overflow <==> !Fits64(o))
    && (s.ovf32 <==> !Fits64(o) || DividendOf(o) / o.divisor >= P32)
    && (Fits64(o) ==> s.quot == DividendOf(o) / o.divisor && s.dend == P65 * (DividendOf(o) % o.divisor))
  }

  lemma LoadMidway(o: Op)
    requires GoodOp(o)
    ensures Midway(Load(o), o) && Done(Load(o)) == 0
  {
  }

  lemma TopBit(q: nat)
    requires q < P64
    ensures Bit(q, P63) == 1 <==> q >= P63
  {
  }

  lemma ShiftQuot(q: nat, b: nat, ovf: bool)
    requires q < P64 && b <= 1 && (ovf <==> q >= P32)
    ensures (ovf || Bit(q, P31) == 1) <==> 2 * q + b >= P32
    ensures q < P63 ==> (q * 2 + b) % P64 == 2 * q + b
  {
  }

  lemma SkipQuot(q: nat, ovf: bool)
    requires q < P56 && (ovf <==> q >= P32)
    ensures (ovf || (q % P32) / P24 != 0) <==> 256 * q >= P32
    ensures (q % P56) * 256 == 256 * q
  {
  }

  lemma QuotBound(s: Regs, o: Op)
    requires Midway(s, o)
    ensures Done(s) <= 64 && s.quot < P64
    ensures Done(s) < 64 ==> s.quot < P63
    ensures Skips(s) ==> Done(s) <= 56 && s.quot < P56
  {
    Pow2Values();
    Pow2Mono(Done(s), 64);
    if Done(s) < 64 {
      Pow2Mono(Done(s), 63);
    }
    if Skips(s) {
      Pow2Mono(Done(s), 56);
      Pow2Of56();
    }
  }

  lemma Pow2Of56()
    ensures Pow2(56) == P56
  {
    Pow2Values();
    Pow2Small();
    Pow2Add(56, 8);
  }

  /** The quotient register after one cycle, before truncation, and the 32-bit overflow flag. */
  lemma QuotStep(s: Regs, o: Op)
    requires Midway(s, o)
    ensures var b := if Subtracts(s.dend, s.div) then 1 else 0;
            var skip := b == 0 && Skips(s);
            && (skip ==> Step(s).quot == 256 * s.quot && (Step(s).ovf32 <==> 256 * s.quot >= P32))
            && (!skip ==> Step(s).quot == (s.quot * 2 + b) % P64 && (Step(s).ovf32 <==> 2 * s.quot + b >= P32))
            && (!skip && Done(s) < 64 ==> Step(s).quot == 2 * s.quot + b)
            && (Step(s).overflow <==> s.quot >= P63)
  {
    QuotBound(s, o);
    TopBit(s.quot);
    ShiftQuot(s.quot, if Subtracts(s.dend, s.div) then 1 else 0, s.ovf32);
    if Skips(s) {
      SkipQuot(s.quot, s.ovf32);
    }
  }

  lemma SubtractsMeans(dend: nat, div: nat)
    requires dend < P129 && div < P64
    ensures Subtracts(dend, div) <==> dend / P64 >= div
  {
  }

  lemma ShiftDend(dend: nat, div: nat)
    requires dend < P64 * div && div < P64
    ensures (dend % P128) * 2 == 2 * dend
    ensures dend < P57 ==> (dend % P121) * 256 == 256 * dend
  {
    assert dend < P128;
  }

  lemma ShiftMatches(s: Regs, o: Op)
    requires Midway(s, o) && Fits64(o)
    ensures Subtracts(s.dend, s.div) <==> s.dend / P64 >= s.div
    ensures Subtracts(s.dend, s.div) ==> Step(s).dend == 2 * Reduced(s.dend, s.div)
    ensures !Subtracts(s.dend, s.div) ==> Step(s).dend == if Skips(s) then 256 * s.dend else 2 * s.dend
  {
    SinglesOk(DividendOf(o), o.divisor, Done(s));
    TopAtLeast(s.dend, s.div);
    SubtractsMeans(s.dend, s.div);
    if Subtracts(s.dend, s.div) {
      ReduceMatches(s.dend, s.div);
    } else {
      ShiftDend(s.dend, s.div);
    }
  }

  /** Positions consumed by one cycle. */
  function Width(s: Regs): nat { if !Subtracts(s.dend, s.div) && Skips(s) then 8 else 1 }

  lemma SerialStep(s: Regs, o: Op)
    requires Midway(s, o) && Fits64(o) && Done(s) < 64
    ensures Serial(Step(s).dend, Step(s).quot) == Singles(Serial(DividendOf(o), 0), o.divisor, Done(s) + Width(s))
  {
    var x0, k := Serial(DividendOf(o), 0), Done(s);
    QuotStep(s, o);
    ShiftMatches(s, o);
    SinglesAdd(x0, o.divisor, k, Width(s));
    if Width(s) == 8 {
      SkipIsEight(Serial(s.dend, s.quot), o.divisor);
    }
  }

  /** Everything but the arithmetic registers. */
  lemma ControlStep(s: Regs)
    requires Shape(s) && s.running && (s.count == 127 || s.count <= 63)
    ensures Step(s).op == s.op && Step(s).div == s.div && Step(s).running == (s.count != 63)
    ensures Done(s) < 64 ==>
              Done(Step(s)) == Done(s) + Width(s) <= 64 && Step(s).running && Step(s).count <= 63
    ensures Done(s) == 64 ==> Width(s) == 1 && Step(s).count == 64
  {
    hide Step, Shape, Width;
    StepCount(s);
    WidthIs(s);
  }

  lemma WidthIs(s: Regs)
    ensures Width(s) == 1 || (Width(s) == 8 && !(56 <= s.count < 64))
  {
  }

  lemma StepCount(s: Regs)
    requires Shape(s)
    ensures var z := Step(s);
            && z.op == s.op && z.div == s.div && z.running == (s.running && s.count != 63)
            && z.count == (s.count + Width(s)) % 128
  {
    hide Subtracts, Sub64, Bit;
  }

  lemma MidwayStep(s: Regs, o: Op)
    requires Midway(s, o) && Done(s) < 64
    ensures Midway(Step(s), o) && Done(Step(s)) == Done(s) + Width(s) <= 64
  {
    ControlStep(s);
    QuotStep(s, o);
    var s' := Step(s);
    if Fits64(o) {
      SerialStep(s, o);
      QuotRange(Serial(DividendOf(o), 0), o.divisor, Done(s'));
    } else {
      OverflowStep(s, o);
    }
    assert s'.ovf32 <==> s'.quot >= P32;
  }

  lemma OverflowStep(s: Regs, o: Op)
    requires Midway(s, o) && !Fits64(o) && Done(s) < 64
    ensures Pow2(Done(s) + Width(s) - 1) <= Step(s).quot < Pow2(Done(s) + Width(s))
  {
    QuotStep(s, o);
    Pow2Small();
    if Width(s) == 8 {
      Pow2Add(Done(s), 8);
      if Done(s) > 0 {
        Pow2Add(Done(s) - 1, 8);
      } else {
        TopAtLeast(s.dend, s.div);
      }
    } else if Done(s) == 0 {
      TopAtLeast(s.dend, s.div);
    }
  }

  lemma LastSerial(s: Regs, o: Op)
    requires Midway(s, o) && Done(s) == 64 && Fits64(o)
    ensures var x := Single(Serial(s.dend, s.quot), o.divisor);
            x.dend == P65 * (DividendOf(o) % o.divisor) && x.quot == DividendOf(o) / o.divisor
  {
    var d, div := DividendOf(o), o.divisor;
    SerialResult(d, div);
    assert Singles(Serial(d, 0), div, 65) == Single(Singles(Serial(d, 0), div, 64), div);
  }

  lemma ModSmall(x: nat)
    requires x < P64
    ensures x % P64 == x
  {
  }

  lemma LastFits(s: Regs, o: Op)
    requires Midway(s, o) && Done(s) == 64 && Fits64(o) && Width(s) == 1
    ensures var q := DividendOf(o) / o.divisor;
            && Step(s).quot == q && s.quot < P63 && (Step(s).ovf32 <==> q >= P32)
            && Step(s).dend == P65 * (DividendOf(o) % o.divisor)
  {
    var q := DividendOf(o) / o.divisor;
    LastSerial(s, o);
    FitsMeans(DividendOf(o), o.divisor);
    QuotStep(s, o);
    ShiftMatches(s, o);
    ModSmall(q);
  }

  lemma LastStep(s: Regs, o: Op)
    requires Midway(s, o) && Done(s) == 64
    ensures Finished(Step(s), o)
  {
    ControlStep(s);
    QuotStep(s, o);
    Pow2Values();
    if Fits64(o) {
      LastFits(s, o);
    }
  }

  lemma FitsMeans(d: nat, div: nat)
    requires d < P64 * div
    ensures d / div < P64
  {
  }

  // ----- whole divisions -----

  /** `n` clock cycles with no new request. */
  function RunN(s: Regs, n: nat): (r: Regs)
    requires Shape(s)
    ensures Shape(r)
    decreases n
  {
    if n == 0 then s else RunN(Next(s, false, s.op), n - 1)
  }

  lemma {:induction false} RunToEnd(s: Regs, o: Op) returns (n: nat)
    requires Midway(s, o)
    ensures 1 + (64 - Done(s) + 7) / 8 <= n <= 65 - Done(s)
    ensures Finished(RunN(s, n), o)
    ensures forall m | 0 <= m < n :: RunN(s, m).running && RunN(s, m).count != 64
    decreases 65 - Done(s)
  {
    hide Step, Finished, Fits64, Singles, Pow2, Width;
    WidthIs(s);
    if Done(s) == 64 {
      LastStep(s, o);
      n := 1;
      assert RunN(s, 1) == RunN(Step(s), 0);
    } else {
      MidwayStep(s, o);
      var m := RunToEnd(Step(s), o);
      n := m + 1;
      forall j | 0 <= j < n ensures RunN(s, j).running && RunN(s, j).count != 64 {
        if j > 0 {
          assert RunN(s, j) == RunN(Step(s), j - 1);
        }
      }
    }
  }

  // ----- what the instruction returns -----

  function Signed(o: Op, m: int): int { if o.negResult then -m else m }

  /** The value is representable in the result width. */
  predicate InRange(o: Op, v: int) {
    if o.is32bit then (if o.isSigned then -P31 <= v < P31 else -P32 < v < P32)
    else (if o.isSigned then -P63 <= v < P63 else -P64 < v < P64)
  }

  function Width32(o: Op): nat { if o.is32bit then P32 else P64 }

  /** Two's complement reading of the 65-bit signed result. */
  lemma SignBits(m: int, neg: bool)
    requires 0 <= m < P64
    ensures var v := if neg && m != 0 then P65 - m else m;
            var x := if neg then -m else m;
            && (Bit(v, P64) == Bit(v, P63) <==> -P63 <= x < P63)
            && (m < P32 ==> (Bit(v, P32) == Bit(v, P31) <==> -P31 <= x < P31))
            && v % P64 == x % P64 && v % P32 == x % P32
  {
  }

  /** The quotient exists and is representable. */
  predicate QuotientFits(o: Op) {
    o.divisor != 0 && InRange(o, Signed(o, DividendOf(o) / o.divisor))
  }

  /** Bits 31 and 32 of the value's two's complement agree; for magnitudes below 2^32, it fits in 32 bits. */
  predicate Agree31(v: int) { (v / P31) % 4 == 0 || (v / P31) % 4 == 3 }

  /** A modulus reports overflow on more operands than a caller would want: when the quotient, which it does not return,
      is too large, and when the remainder has no sign bit of its own. */
  predicate ModulusOverflows(o: Op) {
    || !Fits64(o)
    || (o.is32bit && DividendOf(o) / o.divisor >= P32)
    || (o.isSigned &&
        var r := Signed(o, DividendOf(o) % o.divisor); if o.is32bit then !Agree31(r) else !(-P63 <= r < P63))
  }

  /** Operands of the modulus instructions as execute1 hands them over. */
  predicate ModulusOperands(o: Op) {
    && o.isModulus && !o.isExtended && o.divisor != 0
    && (o.isSigned ==> o.divisor <= if o.is32bit then P31 else P63)
    && (o.is32bit ==> o.dividend < P32)
  }

  /** Division: the signed quotient in the result width, or zero and overflow exactly when the divisor is zero or the
      quotient does not fit. Modulus: the sign-adjusted remainder, or zero and overflow; never an overflow on the
      operands of the modulus instructions. */
  predicate RightResult(o: Op, out: Out) {
    && (!o.isModulus ==>
          && out.overflow == !QuotientFits(o)
          && out.data == if QuotientFits(o) then Signed(o, DividendOf(o) / o.divisor) % Width32(o) else 0)
    && (o.isModulus ==>
          && out.overflow == ModulusOverflows(o)
          && out.data == if out.overflow then 0 else Signed(o, DividendOf(o) % o.divisor) % P64)
    && (ModulusOperands(o) ==> !out.overflow && out.data == Signed(o, o.dividend % o.divisor) % P64)
  }

  lemma QuotientResult(s: Regs, o: Op)
    requires GoodOp(o) && Finished(s, o) && !o.isModulus
    ensures RightResult(o, NextOut(s))
  {
    if o.divisor != 0 && !Fits64(o) {
      TooLarge(DividendOf(o), o.divisor);
    }
    if Fits64(o) {
      SignBits(s.quot, o.negResult);
    }
  }

  lemma TooLarge(d: nat, div: nat)
    requires div > 0 && d >= P64 * div
    ensures d / div >= P64
  {
    var q := d / div;
    assert div * (q + 1) == div * q + div;
    if q < P64 {
      SplitProduct(div, q + 1, P64);
    }
  }

  lemma SignBits32(m: int, neg: bool)
    requires 0 <= m < P64
    ensures var v := if neg && m != 0 then P65 - m else m;
            Bit(v, P32) == Bit(v, P31) <==> Agree31(if neg then -m else m)
  {
    var v := if neg && m != 0 then P65 - m else m;
    hide Bit, Agree31;
    BitPair(v);
    if neg && m != 0 {
      AgreeAbove(-m);
    }
  }

  lemma Above31(x: int)
    requires -P64 < x < 0
    ensures (x + P65) / P31 == x / P31 + 0x4_0000_0000
  {
    var q, r := x / P31, x % P31;
    assert x == P31 * q + r && q >= -0x2_0000_0000;
    QuotientIs(r, x + P65, P31, q + 0x4_0000_0000);
  }

  lemma AgreeAbove(x: int)
    requires -P64 < x < 0
    ensures Agree31(x + P65) <==> Agree31(x)
  {
    Above31(x);
    var q := x / P31;
    assert (q + 0x4_0000_0000) % 4 == q % 4;
  }

  lemma BitPair(v: nat)
    ensures Bit(v, P32) == Bit(v, P31) <==> Agree31(v)
  {
    var q := v / P31;
    assert v / P32 == q / 2;
  }

  /** The remainder of every modulus that finishes, and its overflow. */
  lemma RemainderResult(s: Regs, o: Op)
    requires GoodOp(o) && Finished(s, o) && o.isModulus
    ensures NextOut(s).overflow == ModulusOverflows(o)
    ensures NextOut(s).data == if ModulusOverflows(o) then 0 else Signed(o, DividendOf(o) % o.divisor) % P64
  {
    if Fits64(o) {
      var r := DividendOf(o) % o.divisor;
      assert s.dend / P65 == r;
      SignBits(r, o.negResult);
      SignBits32(r, o.negResult);
    }
  }

  lemma ModulusFits(o: Op)
    requires GoodOp(o) && ModulusOperands(o)
    ensures !ModulusOverflows(o)
  {
    assert Fits64(o) by {
      AtLeastOnce(P64, o.divisor);
    }
    SmallQuotient(o.dividend, o.divisor);
  }

  lemma SmallQuotient(d: nat, div: nat)
    requires div > 0
    ensures d / div <= d
  {
    var q := d / div;
    assert div * q <= d;
    if q > 0 {
      AtLeastOnce(q, div);
    }
  }

  /** Every division: from the cycle after the request, 9 to 65 running cycles, then one valid result, the right one. */
  lemma DivideCorrect(o: Op) returns (n: nat)
    requires GoodOp(o)
    ensures 9 <= n <= 65
    ensures forall m | 0 <= m < n :: RunN(Load(o), m).running && RunN(Load(o), m).count != 64
    ensures var z := RunN(Load(o), n);
            && NextOut(z).valid && RightResult(o, NextOut(z))
            && !z.running && !NextOut(Next(z, false, o)).valid && !Next(z, false, o).running
  {
    LoadMidway(o);
    n := RunToEnd(Load(o), o);
    var z := RunN(Load(o), n);
    if !o.isModulus {
      QuotientResult(z, o);
    } else {
      RemainderResult(z, o);
      if ModulusOperands(o) {
        ModulusFits(o);
      }
    }
  }
}
