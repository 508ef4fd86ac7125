/** The bit sorter computes the three instructions, and they are inverse to each other as the ISA says. */
module BitSortProof {
  import opened BitSort

  // ----- the instructions -----

  /** Bits of `v` where the mask bit equals `b`, in order. */
  function Select(v: seq<bool>, m: seq<bool>, b: bool): (r: seq<bool>)
    requires |v| == |m|
    ensures |r| == Count(m, b)
  {
    if m == [] then []
    else
      var n := |m| - 1;
      Select(v[..n], m[..n], b) + (if m[n] == b then [v[n]] else [])
  }

  function Count(m: seq<bool>, b: bool): nat {
    if m == [] then 0 else Count(m[..|m| - 1], b) + (if m[|m| - 1] == b then 1 else 0)
  }

  lemma {:induction false} CountBoth(m: seq<bool>)
    ensures Count(m, true) + Count(m, false) == |m|
  {
    if m != [] {
      CountBoth(m[..|m| - 1]);
    }
  }

  lemma CountAtMost(m: seq<bool>, b: bool)
    ensures Count(m, b) <= |m|
  {
    CountBoth(m);
  }

  /** pextd: the bits under the mask, packed at the low end. */
  function Pext(v: Bits, m: Bits): (r: Bits) {
    CountBoth(m);
    Select(v, m, true) + Falses(64 - Count(m, true))
  }

  /** cfuged: the bits under the mask at the low end, the others above them, both in order. */
  function Cfuge(v: Bits, m: Bits): (r: Bits) {
    CountBoth(m);
    Select(v, m, true) + Select(v, m, false)
  }

  /** pdepd: low-order bits spread out to the positions of the mask. */
  function Pdep(v: Bits, m: Bits): (r: Bits) {
    seq(64, k requires 0 <= k < 64 => m[k] && DepositBit(v, m, k))
  }

  predicate DepositBit(v: Bits, m: Bits, k: nat)
    requires k < 64
  {
    CountAtMost(m[..k], true);
    v[Count(m[..k], true)]
  }

  // ----- laws -----

  lemma {:induction false} CountSplit(a: seq<bool>, b: seq<bool>, x: bool)
    ensures Count(a + b, x) == Count(a, x) + Count(b, x)
  {
    if b == [] {
      assert a + b == a;
    } else {
      var n := |b| - 1;
      CountSplit(a, b[..n], x);
      assert (a + b)[..|a + b| - 1] == a + b[..n];
    }
  }

  lemma SelectLast(v: seq<bool>, m: seq<bool>, v': seq<bool>, m': seq<bool>, x: bool)
    requires |v| == |m| == |m'| + 1 && v' == v[..|m'|] && m' == m[..|m'|]
    ensures Select(v, m, x) == Select(v', m', x) + (if m[|m'|] == x then [v[|m'|]] else [])
  {
  }

  lemma {:induction false} SelectSplit(v1: seq<bool>, m1: seq<bool>, v2: seq<bool>, m2: seq<bool>, x: bool)
    requires |v1| == |m1| && |v2| == |m2|
    ensures Select(v1 + v2, m1 + m2, x) == Select(v1, m1, x) + Select(v2, m2, x)
  {
    if m2 == [] {
      assert v1 + v2 == v1 && m1 + m2 == m1;
    } else {
      var n := |m2| - 1;
      SelectSplit(v1, m1, v2[..n], m2[..n], x);
      SelectLast(v1 + v2, m1 + m2, v1 + v2[..n], m1 + m2[..n], x);
      SelectLast(v2, m2, v2[..n], m2[..n], x);
    }
  }

  /** The k-th selected bit comes from the position with k selected positions below it. */
  lemma {:induction false} SelectAt(v: seq<bool>, m: seq<bool>, b: bool, p: nat)
    requires |v| == |m| && p < |m| && m[p] == b
    ensures Count(m[..p], b) < Count(m, b) && Select(v, m, b)[Count(m[..p], b)] == v[p]
  {
    var n := |m| - 1;
    if p < n {
      SelectAt(v[..n], m[..n], b, p);
      assert m[..n][..p] == m[..p];
    }
  }

  /** Conversely, every selected bit comes from such a position. */
  lemma {:induction false} SelectFrom(m: seq<bool>, b: bool, k: nat) returns (p: nat)
    requires k < Count(m, b)
    ensures p < |m| && m[p] == b && Count(m[..p], b) == k
  {
    var n := |m| - 1;
    if m[n] == b && k == Count(m[..n], b) {
      p := n;
    } else {
      p := SelectFrom(m[..n], b, k);
      assert m[..n][..p] == m[..p];
    }
  }

  /** Where cfuged puts the bit at position `p`. */
  function Target(m: Bits, p: nat): (q: nat)
    requires p < 64
  {
    if m[p] then Count(m[..p], true) else Count(m, true) + Count(m[..p], false)
  }

  lemma CountGrows(m: Bits, p: nat, r: nat)
    requires p < r < 64
    ensures Count(m[..p], m[p]) < Count(m[..r], m[p])
  {
    var k := m[..r];
    SelectAt(k, k, m[p], p);
    assert k[..p] == m[..p];
  }

  lemma TargetRange(m: Bits, p: nat)
    requires p < 64
    ensures if m[p] then Target(m, p) < Count(m, true) else Count(m, true) <= Target(m, p) < 64
  {
    CountBoth(m);
    SelectAt(m, m, m[p], p);
  }

  /** cfuged permutes the bits: no two go to the same position, and every bit arrives at its own. */
  lemma CfugePermutes(v: Bits, m: Bits)
    ensures forall p | 0 <= p < 64 :: Target(m, p) < 64 && Cfuge(v, m)[Target(m, p)] == v[p]
    ensures forall p, r | 0 <= p < r < 64 :: Target(m, p) != Target(m, r)
  {
    forall p | 0 <= p < 64 ensures Target(m, p) < 64 && Cfuge(v, m)[Target(m, p)] == v[p] {
      CfugeStable(v, m, p);
    }
    forall p, r | 0 <= p < r < 64 ensures Target(m, p) != Target(m, r) {
      TargetRange(m, p);
      TargetRange(m, r);
      if m[p] == m[r] {
        CountGrows(m, p, r);
      }
    }
  }

  /** Each bit arrives, and two bits of the same class keep their order. */
  lemma CfugeStable(v: Bits, m: Bits, p: nat)
    requires p < 64
    ensures Target(m, p) < 64 && Cfuge(v, m)[Target(m, p)] == v[p]
    ensures forall r | p < r < 64 && m[r] == m[p] :: Target(m, p) < Target(m, r)
  {
    CountBoth(m);
    SelectAt(v, m, m[p], p);
    forall r | p < r < 64 && m[r] == m[p] ensures Target(m, p) < Target(m, r) {
      CountGrows(m, p, r);
    }
  }

  /** Extracting what was deposited gives back the low-order bits. */
  lemma ExtractDeposit(x: Bits, m: Bits, k: nat)
    requires k < 64
    ensures Pext(Pdep(x, m), m)[k] == (k < Count(m, true) && x[k])
  {
    CountBoth(m);
    if k < Count(m, true) {
      var p := SelectFrom(m, true, k);
      SelectAt(Pdep(x, m), m, true, p);
    }
  }

  /** Depositing what was extracted masks the value. */
  lemma DepositExtract(x: Bits, m: Bits, p: nat)
    requires p < 64
    ensures Pdep(Pext(x, m), m)[p] == (x[p] && m[p])
  {
    CountBoth(m);
    if m[p] {
      SelectAt(x, m, true, p);
    }
  }

  // ----- the hardware -----

  /** `sr` holds `src` shifted down by `off`. */
  ghost predicate Down(sr: Bits, src: Bits, off: nat) { forall k | 0 <= k < 64 - off :: sr[k] == src[off + k] }

  /** `sr` holds `src` shifted up by `off`. */
  ghost predicate Up(sr: Bits, src: Bits, off: nat) { forall k | off <= k < 64 :: sr[k] == src[k - off] }

  lemma DownStep(sr: Bits, src: Bits, off: nat)
    requires Down(sr, src, off) && off < 64
    ensures Down(ShiftRight(sr), src, off + 1) && sr[0] == src[off]
  {
  }

  lemma UpStep(sr: Bits, src: Bits, off: nat)
    requires Up(sr, src, off) && off < 64
    ensures Up(ShiftLeft(sr), src, off + 1) && sr[63] == src[63 - off]
  {
  }

  /** Mask bits set in the low `n` positions, clear in the high `n` positions. */
  ghost function Low(m: Bits, n: nat): nat
    requires n <= 64
  {
    Count(m[..n], true)
  }

  ghost function High(m: Bits, n: nat): nat
    requires n <= 64
  {
    Count(m[64 - n..], false)
  }

  lemma LowStep(m: Bits, n: nat)
    requires n < 64
    ensures Low(m, n) <= n && Low(m, n + 1) == Low(m, n) + (if m[n] then 1 else 0)
  {
    CountAtMost(m[..n], true);
    assert m[..n + 1][..n] == m[..n];
  }

  lemma HighStep(m: Bits, n: nat)
    requires n < 64
    ensures High(m, n) <= n && High(m, n + 1) == High(m, n) + (if m[63 - n] then 0 else 1)
  {
    CountAtMost(m[64 - n..], false);
    assert m[63 - n..] == [m[63 - n]] + m[64 - n..];
    CountSplit([m[63 - n]], m[64 - n..], false);
    assert [m[63 - n]][..0] == [];
  }

  /** What `n` steps have done to the shift registers. */
  ghost predicate Shifted(s: Regs, v: Bits, m: Bits, o: Opc, n: nat) {
    && n <= 64
    && Down(s.srMr, m, n) && Up(s.srMl, m, n) && Up(s.srVl, v, n)
    && Down(s.srVr, v, if IsDeposit(o) then Low(m, n) else n)
  }

  /** What `n` steps have done to the counters. */
  ghost predicate Counted(s: Regs, m: Bits, o: Opc, n: nat) {
    && n <= 64 && Shape(s) && s.opr == o
    && s.bc == n % 64 && s.st == (n < 64) && s.sd == (n == 64)
    && s.jr == Low(m, n) % 64
    && (o.hi ==> s.jl == (127 - High(m, n)) % 64)
  }

  lemma ShiftedStep(s: Regs, v: Bits, m: Bits, o: Opc, n: nat)
    requires Shape(s) && s.opr == o && Shifted(s, v, m, o, n) && n < 64
    ensures Shifted(Step(s), v, m, o, n + 1)
    ensures s.srMr[0] == m[n] && s.srMl[63] == m[63 - n] && s.srVl[63] == v[63 - n]
    ensures Low(m, n) <= n && s.srVr[0] == v[if IsDeposit(o) then Low(m, n) else n]
  {
    LowStep(m, n);
    DownStep(s.srMr, m, n);
    UpStep(s.srMl, m, n);
    UpStep(s.srVl, v, n);
    DownStep(s.srVr, v, if IsDeposit(o) then Low(m, n) else n);
  }

  lemma WrapUp(x: nat)
    requires x < 64
    ensures x % 64 == x && (x + 1) % 64 == if x == 63 then 0 else x + 1
  {
  }

  lemma WrapDown(x: nat)
    requires x < 64
    ensures (127 - x) % 64 == 63 - x && (127 - (x + 1)) % 64 == (63 - x + 63) % 64
  {
  }

  lemma CountedStep(s: Regs, v: Bits, m: Bits, o: Opc, n: nat)
    requires Counted(s, m, o, n) && n < 64 && s.srMr[0] == m[n] && s.srMl[63] == m[63 - n]
    ensures Counted(Step(s), m, o, n + 1)
  {
    hide Placed, ShiftLeft, ShiftRight, Low, High;
    LowStep(m, n);
    HighStep(m, n);
    WrapUp(n);
    WrapUp(Low(m, n));
    WrapDown(High(m, n));
  }

  /** The two writers never meet. */
  lemma WritersApart(m: Bits, a: nat, b: nat)
    requires a <= 64 && b <= 64
    ensures Low(m, a) + High(m, b) <= 64
  {
    CountBoth(m);
    assert m == m[..a] + m[a..];
    CountSplit(m[..a], m[a..], true);
    assert m == m[..64 - b] + m[64 - b..];
    CountSplit(m[..64 - b], m[64 - b..], false);
  }

  ghost function LowBits(v: Bits, m: Bits, n: nat): (r: seq<bool>)
    requires n <= 64
    ensures |r| == Low(m, n)
  {
    Select(v[..n], m[..n], true)
  }

  ghost function HighBits(v: Bits, m: Bits, n: nat): (r: seq<bool>)
    requires n <= 64
    ensures |r| == High(m, n)
  {
    Select(v[64 - n..], m[64 - n..], false)
  }

  /** `lo` at the bottom of `val`, `hi` at the top, zeros between. */
  ghost predicate Layout(val: Bits, lo: seq<bool>, hi: seq<bool>) {
    && |lo| + |hi| <= 64
    && (forall k | 0 <= k < |lo| :: val[k] == lo[k])
    && (forall k | 0 <= k < |hi| :: val[64 - |hi| + k] == hi[k])
    && (forall k | |lo| <= k < 64 - |hi| :: !val[k])
  }

  /** Result register after `n` steps of pextd or cfuged: the right writer has packed the low mask bits' values at the
      bottom, the left writer (cfuged only) the high non-mask bits' values at the top. */
  ghost predicate Packed(s: Regs, v: Bits, m: Bits, o: Opc, n: nat)
    requires n <= 64
  {
    Layout(s.val, LowBits(v, m, n), if o.hi then HighBits(v, m, n) else [])
  }

  ghost predicate Deposited(s: Regs, v: Bits, m: Bits, n: nat) {
    forall k | 0 <= k < 64 :: s.val[k] == (k < n && Pdep(v, m)[k])
  }

  lemma LowSelect(v: Bits, m: Bits, n: nat)
    requires n < 64
    ensures LowBits(v, m, n + 1) == LowBits(v, m, n) + (if m[n] then [v[n]] else [])
  {
    assert v[..n + 1][..n] == v[..n] && m[..n + 1][..n] == m[..n];
  }

  lemma HighSelect(v: Bits, m: Bits, n: nat)
    requires n < 64
    ensures HighBits(v, m, n + 1) == (if m[63 - n] then [] else [v[63 - n]]) + HighBits(v, m, n)
  {
    assert v[63 - n..] == [v[63 - n]] + v[64 - n..] && m[63 - n..] == [m[63 - n]] + m[64 - n..];
    SelectSplit([v[63 - n]], [m[63 - n]], v[64 - n..], m[64 - n..], false);
    SelectOne(v[63 - n], m[63 - n]);
  }

  lemma PackedStep(s: Regs, v: Bits, m: Bits, o: Opc, n: nat)
    requires Shape(s) && Counted(s, m, o, n) && n < 64 && !IsDeposit(o) && Packed(s, v, m, o, n)
    requires s.srMr[0] == m[n] && s.srMl[63] == m[63 - n] && s.srVl[63] == v[63 - n] && s.srVr[0] == v[n]
    ensures Packed(Step(s), v, m, o, n + 1)
  {
    hide Layout, Select, Count;
    WritersApart(m, n + 1, n + 1);
    LowStep(m, n);
    HighStep(m, n);
    LowSelect(v, m, n);
    HighSelect(v, m, n);
    LayoutStep(s, LowBits(v, m, n), LowBits(v, m, n + 1),
               if o.hi then HighBits(v, m, n) else [], if o.hi then HighBits(v, m, n + 1) else []);
  }

  lemma SelectOne(x: bool, y: bool)
    ensures Select([x], [y], false) == if y then [] else [x]
  {
    assert [y][..0] == [] && [x][..0] == [];
  }

  /** One step's writes on the packed layout. */
  lemma LayoutStep(s: Regs, lo: seq<bool>, lo': seq<bool>, hi: seq<bool>, hi': seq<bool>)
    requires Shape(s) && !IsDeposit(s.opr) && Layout(s.val, lo, hi) && |lo'| + |hi'| <= 64
    requires lo' == lo + (if WritesRight(s) then [s.srVr[0]] else [])
    requires hi' == (if WritesLeft(s) then [s.srVl[63]] else []) + hi
    requires WritesRight(s) ==> s.jr == |lo|
    requires WritesLeft(s) ==> s.jl == 63 - |hi|
    ensures Layout(Step(s).val, lo', hi')
  {
  }

  lemma DepositedStep(s: Regs, v: Bits, m: Bits, o: Opc, n: nat)
    requires Counted(s, m, o, n) && n < 64 && IsDeposit(o) && Deposited(s, v, m, n)
    requires s.srMr[0] == m[n] && Low(m, n) <= n && s.srVr[0] == v[Low(m, n)]
    ensures Deposited(Step(s), v, m, n + 1)
  {
    assert Step(s).val == if m[n] then s.val[n := v[Low(m, n)]] else s.val;
  }

  function RunN(s: Regs, n: nat): (r: Regs)
    requires Shape(s)
    ensures Shape(r)
    decreases n
  {
    if n == 0 then s else Next(RunN(s, n - 1), false, ZEROS, ZEROS, s.opr)
  }

  ghost predicate Progress(s: Regs, v: Bits, m: Bits, o: Opc, n: nat) {
    && Shifted(s, v, m, o, n) && Counted(s, m, o, n)
    && (if IsDeposit(o) then Deposited(s, v, m, n) else Packed(s, v, m, o, n))
  }

  lemma ProgressStart(v: Bits, m: Bits, o: Opc)
    ensures Progress(Load(v, m, o), v, m, o, 0)
  {
    assert m[..0] == [] && m[64..] == [] && v[..0] == [] && v[64..] == [];
  }

  lemma ProgressStep(s: Regs, v: Bits, m: Bits, o: Opc, n: nat)
    requires Progress(s, v, m, o, n) && n < 64
    ensures Progress(Step(s), v, m, o, n + 1)
  {
    ShiftedStep(s, v, m, o, n);
    CountedStep(s, v, m, o, n);
    if IsDeposit(o) {
      LowStep(m, n);
      DepositedStep(s, v, m, o, n);
    } else {
      PackedStep(s, v, m, o, n);
    }
  }

  lemma {:induction false} AfterSteps(v: Bits, m: Bits, o: Opc, n: nat)
    requires n <= 64
    ensures Progress(RunN(Load(v, m, o), n), v, m, o, n)
  {
    if n == 0 {
      ProgressStart(v, m, o);
    } else {
      AfterSteps(v, m, o, n - 1);
      ProgressStep(RunN(Load(v, m, o), n - 1), v, m, o, n - 1);
    }
  }

  lemma ProgressEnd(s: Regs, v: Bits, m: Bits, o: Opc)
    requires Progress(s, v, m, o, 64)
    ensures s.val == if o.hi then Cfuge(v, m) else if o.lo then Pext(v, m) else Pdep(v, m)
  {
    CountBoth(m);
    assert m[..64] == m && m[0..] == m && v[..64] == v && v[0..] == v;
    if o.hi {
      var lo, hi := Select(v, m, true), Select(v, m, false);
      forall k | 0 <= k < 64 ensures s.val[k] == Cfuge(v, m)[k] {
        if k >= |lo| {
          assert s.val[64 - |hi| + (k - |lo|)] == hi[k - |lo|];
        }
      }
    }
  }

  /** Exactly 64 cycles after the request, `done` is raised for the first time and the result is the instruction's. */
  lemma SortCorrect(v: Bits, m: Bits, o: Opc)
    ensures forall n | 0 <= n < 64 :: !RunN(Load(v, m, o), n).sd
    ensures var z := RunN(Load(v, m, o), 64);
            && z.sd && !z.st && !Next(z, false, v, m, o).sd && Next(z, false, v, m, o).val == z.val
            && z.val == if o.hi then Cfuge(v, m) else if o.lo then Pext(v, m) else Pdep(v, m)
  {
    forall n | 0 <= n < 64 ensures !RunN(Load(v, m, o), n).sd {
      AfterSteps(v, m, o, n);
    }
    AfterSteps(v, m, o, 64);
    ProgressEnd(RunN(Load(v, m, o), 64), v, m, o);
  }
}
