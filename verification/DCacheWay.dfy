/** One way's block RAM inside the data cache: cache_ram.vhdl as dcache.vhdl instantiates it. */
module DCacheWay {
  import opened Rows
  import opened CacheRam
  import opened DCache

  /** Address of a row in the RAM. */
  function Flat(x: RowIx): nat { x.index * ROWS_PER_LINE + x.row }

  predicate GoodRow(x: RowIx) { x.index < NUM_LINES && x.row < ROWS_PER_LINE }

  lemma {:induction false} Stride(a: nat, b: nat)
    requires a < b
    ensures a * ROWS_PER_LINE + ROWS_PER_LINE <= b * ROWS_PER_LINE
  {
    if a + 1 < b {
      Stride(a, b - 1);
    }
  }

  lemma FlatRange(x: RowIx)
    requires GoodRow(x)
    ensures Flat(x) < NUM_LINES * ROWS_PER_LINE
  {
    Stride(x.index, NUM_LINES);
  }

  lemma FlatApart(x: RowIx, y: RowIx)
    requires GoodRow(x) && GoodRow(y) && x != y
    ensures Flat(x) != Flat(y)
  {
    if x.index < y.index {
      Stride(x.index, y.index);
    } else if y.index < x.index {
      Stride(y.index, x.index);
    }
  }

  /** The block RAM holds what the model's map of rows says. */
  ghost predicate Holds(ram: Ram, m: map<RowIx, Row>)
    reads ram, ram.ram
  {
    && ram.ram.Length == NUM_LINES * ROWS_PER_LINE
    && forall x: RowIx | GoodRow(x) :: Flat(x) < ram.ram.Length && ram.ram[Flat(x)] == RamRead(m, x)
  }

  /** One clock of one way's block RAM, with the enables and selects that dcache.vhdl gives it, is the next state of
      that way's rows and of its output register. */
  method ClockWay(ram: Ram, s: Regs, i: Inputs, w: nat)
    requires Shape(s) && GoodInputs(i) && w < NUM_WAYS && Holds(ram, s.rams[w]) && ram.rdData == s.dout[w]
    modifies ram, ram.ram
    ensures Holds(ram, NextRams(s, i)[w]) && ram.rdData == NextDout(s, i)[w]
  {
    var selected := RamWrites(s, i) && w == ReplaceWay(s, i);
    var enabled := Accept(s, i) || (s.r0.full && s.r0.req.load);
    var sel := if selected then WriteSel(s) else NONE;
    var rd, wr := GetRow(NextR0(s, i).req.addr), s.r1.storeRow;
    FlatRange(rd);
    FlatRange(wr);
    MergeNone(WriteData(s, i), RamRead(s.rams[w], wr));
    ram.Clock(enabled, Flat(rd), sel, Flat(wr), WriteData(s, i));
    forall x: RowIx | GoodRow(x) ensures Flat(x) < ram.ram.Length && ram.ram[Flat(x)] == RamRead(NextRams(s, i)[w], x) {
      FlatRange(x);
      if x != wr {
        FlatApart(x, wr);
      }
    }
  }
}
