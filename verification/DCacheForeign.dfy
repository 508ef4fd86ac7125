/** What loads return while other masters write. */
module DCacheForeign {
  import opened Wrappers
  import opened Rows
  import opened DCache
  import opened DCacheBus
  import opened DCacheControl
  import opened DCacheData
  import opened DCacheTheorems
  import opened DCacheReserve

  lemma LoadValue(s: Regs, e: Env, c: Cycle)
    requires Inv(s, e) && Contract(s, e, c) && LoadCompletes(s, c.inp)
    ensures NextDataOut(s, c.inp) == SeenView(s, e, CompletedAddr(s, c.inp))
  {
    if RowArrives(s, c.inp) {
      RefillValue(s, e, c);
    } else {
      LoadHitValue(s, e, c);
    }
  }

  /** In every run, whatever other masters write: a load returns the view of its address in the cycle in which it takes
      its value, or, if another master wrote its line in the cycle before, the view of that cycle with this processor's
      own store of that cycle. */
  lemma LoadSees(w: Watch, cs: seq<Cycle>, c: Cycle, d: Cycle)
    requires Reset(w.s, w.e) && w.mark.None? && WatchRun(w, cs)
    requires var y := Watched(w, cs);
             && Contract(y.s, y.e, c)
             && var z := WatchTick(y, c); Shape(z.s) && Contract(z.s, z.e, d) && LoadCompletes(z.s, d.inp)
    ensures var y := Watched(w, cs);
            var z := WatchTick(y, c);
            var a := CompletedAddr(z.s, d.inp);
            NextDataOut(z.s, d.inp) ==
              if Touches(c, a.line) then Perform(OwnStore(y.s, y.e, c.inp), a, View(y.s, y.e, a)) else View(z.s, z.e, a)
  {
    hide Next, NextMark, View, OwnStore, Control, AllFresh;
    ResetInv(w.s, w.e);
    WatchInv(w, cs);
    var y := Watched(w, cs);
    var z := WatchTick(y, c);
    InvStep(y.s, y.e, c);
    LoadValue(z.s, z.e, d);
    PriorView(y.s, y.e, c, CompletedAddr(z.s, d.inp));
  }
}
