/** The hardware walk of a radix tree, from the partition table down: a function of memory, PTCR, PID and effective
    address (section 5.7.10 of Power ISA 3.0B Book III; mmu.vhdl). */
module RadixWalk {
  import opened Wrappers
  import opened ByteMemory

  /** A big-endian doubleword. */
  function Dword64(m: Mem, a: nat): nat {
    Get(m, a) * 0x100_0000_0000_0000 + Get(m, a + 1) * 0x1_0000_0000_0000 + Get(m, a + 2) * 0x100_0000_0000
    + Get(m, a + 3) * 0x1_0000_0000 + Get(m, a + 4) * 0x100_0000 + Get(m, a + 5) * 0x1_0000 + Get(m, a + 6) * 0x100
    + Get(m, a + 7)
  }

  /** One level: the next `bits` bits of the address, below which `shift - bits` bits of page number remain, index the
      table. A valid leaf ends the walk; its entry and the remaining bits are the result. */
  function Level(m: Mem, table: nat, shift: nat, bits: nat, ea: nat): Option<(nat, nat)>
    decreases shift
  {
    if bits < 5 || bits > 16 || bits > shift then None
    else
      var left := shift - bits;
      var w := Dword64(m, table + 8 * (ea / Pow2(12 + left) % Pow2(bits)));
      if w < 0x8000_0000_0000_0000 then None
      else if w / 0x4000_0000_0000_0000 % 2 == 1 then Some((w, left))
      else Level(m, w % 0x100_0000_0000_0000 / 256 * 256, left, w % 32, ea)
  }

  /** From the process table entry: the RTS field gives the size of the address space, RPDS the bits of the first
      level. */
  function FromRoot(m: Mem, root: nat, ea: nat): Option<(nat, nat)> {
    var size := root / 0x2000_0000_0000_0000 % 4 * 8 + root / 32 % 8;
    if ea >= Pow2(31 + size) then None
    else Level(m, root % 0x100_0000_0000_0000 / 256 * 256, 31 + size - 12, root % 32, ea)
  }

  /** The second doubleword of partition table entry 0 gives the process table, whose entry for `pid` gives the root. */
  function Walk(m: Mem, ptcr: nat, pid: nat, ea: nat): Option<(nat, nat)> {
    var table := Dword64(m, ptcr / 4096 * 4096 + 8) % 0x100_0000_0000_0000 / 4096 * 4096;
    FromRoot(m, Dword64(m, table + 16 * pid), ea)
  }

  lemma DwordValue(m: Mem, a: nat)
    ensures Dword64(m, a) == Value(Read8(m, a))
  {
    var s := Read8(m, a);
    assert s[..8] == s;
    ValueUpTo(s, 8);
    SumOfEight(s);
  }

  lemma SumOfEight(b: seq<nat>)
    requires |b| == 8
    ensures Sum(b, 8) == b[0] * 0x100_0000_0000_0000 + b[1] * 0x1_0000_0000_0000 + b[2] * 0x100_0000_0000
                         + b[3] * 0x1_0000_0000 + b[4] * 0x100_0000 + b[5] * 0x1_0000 + b[6] * 0x100 + b[7]
  {
    assert Sum(b, 0) == 0 && Sum(b, 1) == b[0] && Sum(b, 2) == b[0] * 0x100 + b[1];
    assert Sum(b, 4) == Sum(b, 2) * 0x1_0000 + b[2] * 0x100 + b[3];
    assert Sum(b, 6) == Sum(b, 4) * 0x1_0000 + b[4] * 0x100 + b[5];
    assert Sum(b, 8) == Sum(b, 6) * 0x1_0000 + b[6] * 0x100 + b[7];
  }

  function Sum(s: seq<nat>, n: nat): nat
    requires n <= |s|
  {
    if n == 0 then 0 else Sum(s, n - 1) * 256 + s[n - 1]
  }

  lemma {:induction false} ValueUpTo(s: seq<Byte>, n: nat)
    requires n <= |s|
    ensures Value(s[..n]) == Sum(s, n)
  {
    if n > 0 {
      ValueUpTo(s, n - 1);
      assert s[..n][..n - 1] == s[..n - 1];
    }
  }
}
