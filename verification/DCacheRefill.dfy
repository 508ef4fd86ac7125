/** Run-level consequences of the control invariant: refill order, store acknowledgements, unique ways. */
module DCacheRefill {
  import opened Wrappers
  import opened Rows
  import opened DCache
  import opened DCacheBus
  import opened DCacheControl
  import opened DCacheData
  import opened DCacheTheorems
  import opened DCacheReserve

  /** The row of the load that missed, and rows strobed and rows received since the current refill began. */
  datatype Trace = Trace(missed: nat, asked: seq<nat>, got: seq<nat>)

  /** The j-th row of a refill that starts at row `f`. */
  function Wrap(f: nat, j: nat): nat { if f + j < ROWS_PER_LINE then f + j else f + j - ROWS_PER_LINE }

  ghost predicate InOrder(f: nat, rows: seq<nat>) {
    |rows| <= ROWS_PER_LINE && forall j | 0 <= j < |rows| :: rows[j] == Wrap(f, j)
  }

  ghost function NextTrace(t: Trace, s: Regs, e: Env, c: Cycle): Trace
    requires Shape(s) && Contract(s, e, c)
  {
    if MissStart(s, c.inp) then Trace(Cur(s, c.inp).addr.row, [], [])
    else if s.r1.phase != Reload then t
    else Trace(t.missed,
               if Taken(s, c.inp) then t.asked + [s.r1.wb.adr.row] else t.asked,
               if c.inp.ack then t.got + [e.queue[0].addr.row] else t.got)
  }

  ghost predicate TraceInv(t: Trace, s: Regs, e: Env) {
    s.r1.phase == Reload ==>
      && FirstRow(s.r1) == t.missed && |t.got| == Got(s.r1) && |t.asked| == Got(s.r1) + |e.queue|
      && InOrder(FirstRow(s.r1), t.got) && InOrder(FirstRow(s.r1), t.asked)
  }

  lemma TraceRun(t: Trace, s: Regs, e: Env, c: Cycle)
    requires Shape(s) && RefillBus(s, e) && TraceInv(t, s, e) && Contract(s, e, c) && s.r1.phase == Reload
    ensures var t' := NextTrace(t, s, e, c);
            && |t'.got| == Got(s.r1) + (if c.inp.ack then 1 else 0)
            && |t'.asked| == |t'.got| + |NextQueue(s, e, c.inp)|
            && InOrder(FirstRow(s.r1), t'.got) && InOrder(FirstRow(s.r1), t'.asked)
  {
    if c.inp.ack {
      assert RowRead(s.r1, e.queue[0], 0);
    }
  }

  lemma TraceStep(t: Trace, s: Regs, e: Env, c: Cycle)
    requires Control(s, e) && TraceInv(t, s, e) && Contract(s, e, c)
    ensures TraceInv(NextTrace(t, s, e, c), Next(s, c.inp), NextEnv(s, e, c))
  {
    if s.r1.phase == Reload {
      TraceRun(t, s, e, c);
      if !LastAck(s, c.inp) {
        RefillCursor(s, c.inp);
      }
    } else if s.r1.phase == Idle {
      IdleStep(s, e, c);
    }
  }

  datatype Probe = Probe(s: Regs, e: Env, trace: Trace)

  ghost function ProbeTick(p: Probe, c: Cycle): (p': Probe)
    requires Shape(p.s) && Contract(p.s, p.e, c)
    ensures Shape(p'.s)
  {
    Probe(Next(p.s, c.inp), NextEnv(p.s, p.e, c), NextTrace(p.trace, p.s, p.e, c))
  }

  /** `cs` is a run from `p`; other masters may write. */
  ghost predicate ProbeRun(p: Probe, cs: seq<Cycle>)
    decreases |cs|
  {
    Shape(p.s) && (cs != [] ==> Contract(p.s, p.e, cs[0]) && ProbeRun(ProbeTick(p, cs[0]), cs[1..]))
  }

  ghost function Probed(p: Probe, cs: seq<Cycle>): (z: Probe)
    requires ProbeRun(p, cs)
    ensures Shape(z.s)
    decreases |cs|
  {
    if cs == [] then p else Probed(ProbeTick(p, cs[0]), cs[1..])
  }

  lemma {:induction false} ProbeInv(p: Probe, cs: seq<Cycle>)
    requires Control(p.s, p.e) && TraceInv(p.trace, p.s, p.e) && ProbeRun(p, cs)
    ensures var z := Probed(p, cs); Control(z.s, z.e) && TraceInv(z.trace, z.s, z.e)
    decreases |cs|
  {
    if cs != [] {
      ControlStep(p.s, p.e, cs[0]);
      TraceStep(p.trace, p.s, p.e, cs[0]);
      ProbeInv(ProbeTick(p, cs[0]), cs[1..]);
    }
  }

  /** In every run, during a refill: rows are strobed and received in wrap-around order from the row that missed,
      and the machine goes back to IDLE exactly when the whole line has been received, each row once, with no strobe
      left over. */
  lemma RefillOrder(p: Probe, cs: seq<Cycle>, c: Cycle)
    requires Reset(p.s, p.e) && ProbeRun(p, cs)
    requires Contract(Probed(p, cs).s, Probed(p, cs).e, c) && Probed(p, cs).s.r1.phase == Reload
    ensures var z := Probed(p, cs);
            var z' := ProbeTick(z, c);
            && InOrder(z.trace.missed, z'.trace.got) && InOrder(z.trace.missed, z'.trace.asked)
            && (z'.s.r1.phase == Idle <==> |z'.trace.got| == ROWS_PER_LINE)
            && (z'.s.r1.phase == Idle ==> z'.trace.asked == z'.trace.got && z'.e.queue == [])
            && (forall r: nat | r < ROWS_PER_LINE :: r in NextRowsValid(z.s, c.inp) <==> r in z'.trace.got)
  {
    ResetInv(p.s, p.e);
    ProbeInv(p, cs);
    RefillEnds(Probed(p, cs), c);
  }

  lemma RowsSeen(s: Regs, e: Env, c: Cycle, rows: seq<nat>, r: nat)
    requires Shape(s) && RefillBus(s, e) && RefillRows(s) && Contract(s, e, c) && s.r1.phase == Reload
    requires InOrder(FirstRow(s.r1), rows) && |rows| == Got(s.r1) + (if c.inp.ack then 1 else 0)
    requires r < ROWS_PER_LINE
    ensures r in NextRowsValid(s, c.inp) <==> r in rows
  {
    var f := FirstRow(s.r1);
    var d := Dist(f, r);
    assert Wrap(f, d) == r;
    if d < |rows| {
      assert rows[d] == r;
    }
  }

  lemma RefillEnds(z: Probe, c: Cycle)
    requires Control(z.s, z.e) && TraceInv(z.trace, z.s, z.e) && Contract(z.s, z.e, c) && z.s.r1.phase == Reload
    ensures var z' := ProbeTick(z, c);
            && InOrder(z.trace.missed, z'.trace.got) && InOrder(z.trace.missed, z'.trace.asked)
            && (z'.s.r1.phase == Idle <==> |z'.trace.got| == ROWS_PER_LINE)
            && (z'.s.r1.phase == Idle ==> z'.trace.asked == z'.trace.got && z'.e.queue == [])
            && (forall r: nat | r < ROWS_PER_LINE :: r in NextRowsValid(z.s, c.inp) <==> r in z'.trace.got)
  {
    TraceRun(z.trace, z.s, z.e, c);
    var got := NextTrace(z.trace, z.s, z.e, c).got;
    forall r: nat | r < ROWS_PER_LINE ensures r in NextRowsValid(z.s, c.inp) <==> r in got {
      RowsSeen(z.s, z.e, c, got, r);
    }
    IdleStep(z.s, z.e, c);
    assert LastAck(z.s, c.inp) <==> |got| == ROWS_PER_LINE;
  }

  /** In every run, during a refill: a row marked as received, in a line not snooped out, holds the data of memory; a
      store waiting in stage 1 is on top of both. */
  lemma ReceivedRows(w: Watch, cs: seq<Cycle>, r: nat)
    requires Reset(w.s, w.e) && w.mark.None? && WatchRun(w, cs) && r < ROWS_PER_LINE
    requires var s := Watched(w, cs).s; RefillingSlot(s, s.r1.storeIndex, s.r1.storeWay) && r in s.r1.rowsValid
    requires var s := Watched(w, cs).s; s.r1.storeWay in s.valids[s.r1.storeIndex]
    ensures var z := Watched(w, cs);
            var a := Addr(ReloadLine(z.s.r1), r);
            && Cached(z.s, z.s.r1.storeIndex, z.s.r1.storeWay, r) == View(z.s, z.e, a)
            && (!(z.s.r1.full && z.s.r1.req.store) ==>
                  RamRead(z.s.rams[z.s.r1.storeWay], RowIx(z.s.r1.storeIndex, r)) == MemRead(z.e.mem, a))
  {
    ResetInv(w.s, w.e);
    WatchInv(w, cs);
    RowHeld(Watched(w, cs).s, Watched(w, cs).e, r);
  }

  lemma RowHeld(s: Regs, e: Env, r: nat)
    requires Inv(s, e) && r < ROWS_PER_LINE
    requires RefillingSlot(s, s.r1.storeIndex, s.r1.storeWay) && r in s.r1.rowsValid
    requires s.r1.storeWay in s.valids[s.r1.storeIndex]
    ensures var a := Addr(ReloadLine(s.r1), r);
            && Cached(s, s.r1.storeIndex, s.r1.storeWay, r) == View(s, e, a)
            && (!(s.r1.full && s.r1.req.store) ==>
                  RamRead(s.rams[s.r1.storeWay], RowIx(s.r1.storeIndex, r)) == MemRead(e.mem, a))
  {
    var a := Addr(ReloadLine(s.r1), r);
    assert Fresh(s, e, s.r1.storeIndex, s.r1.storeWay, r);
    forall op | op in e.queue ensures op.Read? {
      var j :| 0 <= j < |e.queue| && e.queue[j] == op;
      assert RowRead(s.r1, e.queue[j], j);
    }
    ApplyReads(e.queue, a, MemRead(e.mem, a));
  }

  /** In every run, while stores are on the bus: the delayed 3-bit count is strobes presented minus acks seen up to
      the previous cycle, it stays within 7, and cyc drops only once every strobe has been acknowledged. */
  lemma StoresAcked(p: Probe, cs: seq<Cycle>, c: Cycle)
    requires Reset(p.s, p.e) && ProbeRun(p, cs)
    requires Contract(Probed(p, cs).s, Probed(p, cs).e, c) && Probed(p, cs).s.r1.phase == StoreWait
    ensures var z := Probed(p, cs);
            var z' := ProbeTick(z, c);
            && Acks(z.s.r1) == |z.e.queue| + (if z.s.r1.wb.stb then 1 else 0) <= 7
            && (!z'.s.r1.wb.cyc <==> z'.s.r1.phase == Idle)
            && (!z'.s.r1.wb.cyc ==> z'.e.queue == [] && !z'.s.r1.wb.stb)
  {
    ResetInv(p.s, p.e);
    ProbeInv(p, cs);
    IdleStep(Probed(p, cs).s, Probed(p, cs).e, c);
    StoreStep(Probed(p, cs).s, Probed(p, cs).e, c);
  }

  /** In every run, the hit logic selects at most one way, so the or-multiplexer yields that way's data. */
  lemma OneWayHits(p: Probe, cs: seq<Cycle>, i: Inputs, w: nat)
    requires Reset(p.s, p.e) && ProbeRun(p, cs)
    requires w in Hits(Probed(p, cs).s, i) && IsHit(Probed(p, cs).s, i)
    ensures Hits(Probed(p, cs).s, i) == {w}
    ensures NextDataOut(Probed(p, cs).s, i) == CacheOut(Probed(p, cs).s, i, w)
  {
    ResetInv(p.s, p.e);
    ProbeInv(p, cs);
    var s := Probed(p, cs).s;
    HitsUnique(s, i, w);
    OrMuxSingle(w, seq(NUM_WAYS, v requires 0 <= v < NUM_WAYS => CacheOut(s, i, v)), NUM_WAYS);
  }
}
