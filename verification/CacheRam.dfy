/** The byte-enabled block RAM of cache_ram.vhdl (no output buffer). */
module CacheRam {
  import opened Rows

  class Ram {
    const ram: array<Row>
    var rdData: Row

    constructor (size: nat)
      ensures ram.Length == size && fresh(ram)
    {
      ram := new Row[size](_ => ZERO);
      rdData := ZERO;
    }

    /** One clock edge: the read sees the contents before the write, and only selected lanes are written. */
    method Clock(rdEn: bool, rdAddr: nat, wrSel: Lanes, wrAddr: nat, wrData: Row)
      requires rdAddr < ram.Length && wrAddr < ram.Length
      modifies this`rdData, ram
      ensures rdData == if rdEn then old(ram[rdAddr]) else old(rdData)
      ensures ram[..] == old(ram[..])[wrAddr := Merge(wrSel, wrData, old(ram[wrAddr]))]
    {
      var seen := ram[rdAddr];
      ghost var before := ram[wrAddr];
      for b := 0 to 8
        invariant rdData == old(rdData)
        invariant forall j | 0 <= j < ram.Length && j != wrAddr :: ram[j] == old(ram[j])
        invariant forall l | 0 <= l < 8 :: ram[wrAddr][l] == if l < b && wrSel[l] then wrData[l] else before[l]
      {
        if wrSel[b] {
          ram[wrAddr] := ram[wrAddr][b := wrData[b]];
        }
      }
      assert ram[wrAddr] == Merge(wrSel, wrData, before);
      if rdEn {
        rdData := seen;
      }
    }
  }
}
