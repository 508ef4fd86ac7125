/** A load-and-reserve that completes without a reservation, from reset. */
module DCacheLarx {
  import opened Wrappers
  import opened Rows
  import opened DCache
  import opened DCacheBus
  import opened DCacheTheorems
  import opened DCacheReserve

  /** A cycle without stall, hold or snoop; the victim is way 0. */
  function Plain(req: Option<Request>, ack: bool, busData: Row): Cycle {
    Cycle(Inputs(req, ZERO, false, false, ack, busData, 0, None), ZERO, None)
  }

  function LoadOf(l: Line, row: nat, reserve: bool): Request { Request(true, reserve, Addr(l, row), ALL) }

  /** A load of row 0 of a line, a load-and-reserve of row 1 behind it, and the first rows back as early as can be. */
  function Inputs0(l: Line): Cycle { Plain(Some(LoadOf(l, 0, false)), false, ZERO) }
  function Inputs1(l: Line): Cycle { Plain(Some(LoadOf(l, 1, true)), false, ZERO) }
  function Inputs2(): Cycle { Plain(None, false, ZERO) }
  function Inputs3(l: Line, m: map<Addr, Row>): Cycle { Plain(None, true, MemRead(m, Addr(l, 0))) }
  function Inputs4(l: Line, m: map<Addr, Row>): Cycle { Plain(None, true, MemRead(m, Addr(l, 1))) }

  ghost predicate Calm(s: Regs, e: Env, m: map<Addr, Row>) {
    Shape(s) && !s.snoop.valid && !s.resv.valid && e.mem == m && e.owed == ZERO
  }

  ghost predicate NoLines(s: Regs)
    requires Shape(s)
  {
    forall k | 0 <= k < NUM_LINES :: s.valids[k] == {}
  }

  ghost predicate HasLoad(s: Regs, e: Env, l: Line, m: map<Addr, Row>) {
    && Calm(s, e, m) && NoLines(s) && e.queue == []
    && s.r0.full && s.r0.req == LoadOf(l, 0, false)
    && !s.r1.full && s.r1.phase == Idle && !s.r1.wb.cyc && !s.r1.wb.stb && !s.r1.writeTag && !s.r1.reloading
  }

  ghost predicate LarxBehind(s: Regs, l: Line) { s.r0.full && s.r0.req == LoadOf(l, 1, true) }

  ghost predicate Refilling(s: Regs, l: Line) {
    && s.r1.phase == Reload && s.r1.reloading && !s.r1.req.reserve
    && s.r1.wb.cyc && s.r1.wb.stb && !s.r1.wb.we && s.r1.wb.adr.line == l
    && s.r1.storeIndex == l.index && s.r1.endRow == ROWS_PER_LINE - 1
  }

  ghost predicate Missed(s: Regs, e: Env, l: Line, m: map<Addr, Row>) {
    && Calm(s, e, m) && NoLines(s) && e.queue == [] && LarxBehind(s, l) && Refilling(s, l)
    && s.r1.full && s.r1.req.hitReload && s.r1.req.addr == Addr(l, 0) && s.r1.wb.adr.row == 0
    && s.r1.writeTag && s.r1.reloadTag == l.tag && s.r1.storeRow.row == 0 && s.r1.rowsValid == {}
  }

  ghost predicate Allocated(s: Regs, l: Line)
    requires Shape(s) && GoodLine(l)
  {
    !s.r1.writeTag && s.tags[l.index][0] == l.tag && s.valids[l.index] == {0} && s.r1.storeWays == {0}
  }

  ghost predicate Strobed(s: Regs, e: Env, l: Line, m: map<Addr, Row>)
    requires GoodLine(l)
  {
    && Calm(s, e, m) && e.queue == [Read(Addr(l, 0))] && LarxBehind(s, l) && Refilling(s, l) && Allocated(s, l)
    && s.r1.full && s.r1.req.hitReload && s.r1.req.addr == Addr(l, 0) && s.r1.wb.adr.row == 1
    && s.r1.storeRow.row == 0 && s.r1.rowsValid == {}
  }

  ghost predicate FirstRowIn(s: Regs, e: Env, l: Line, m: map<Addr, Row>)
    requires GoodLine(l)
  {
    && Calm(s, e, m) && e.queue == [Read(Addr(l, 1))] && LarxBehind(s, l) && Allocated(s, l)
    && s.r1.phase == Reload && s.r1.reloading && !s.r1.req.reserve && s.r1.storeIndex == l.index
    && s.tagSet[0] == l.tag && !s.r1.full && s.r1.storeRow.row == 1 && s.r1.rowsValid == {0}
  }

  lemma Step0(s: Regs, e: Env, l: Line)
    requires Reset(s, e) && GoodLine(l)
    ensures Contract(s, e, Inputs0(l))
    ensures HasLoad(Next(s, Inputs0(l).inp), NextEnv(s, e, Inputs0(l)), l, e.mem)
  {
  }

  lemma Step1(s: Regs, e: Env, l: Line, m: map<Addr, Row>)
    requires HasLoad(s, e, l, m) && GoodLine(l) && ROWS_PER_LINE >= 2
    ensures Contract(s, e, Inputs1(l))
    ensures Missed(Next(s, Inputs1(l).inp), NextEnv(s, e, Inputs1(l)), l, m)
  {
  }

  lemma Step2(s: Regs, e: Env, l: Line, m: map<Addr, Row>)
    requires GoodLine(l) && Missed(s, e, l, m) && ROWS_PER_LINE >= 2
    ensures Contract(s, e, Inputs2())
    ensures Strobed(Next(s, Inputs2().inp), NextEnv(s, e, Inputs2()), l, m)
  {
    hide NextDataOut, NextForward, NextRams, NextDout;
  }

  lemma Step3(s: Regs, e: Env, l: Line, m: map<Addr, Row>)
    requires GoodLine(l) && Strobed(s, e, l, m) && ROWS_PER_LINE >= 2
    ensures Contract(s, e, Inputs3(l, m))
    ensures FirstRowIn(Next(s, Inputs3(l, m).inp), NextEnv(s, e, Inputs3(l, m)), l, m)
  {
    hide NextDataOut, NextForward, NextRams, NextDout;
  }

  lemma Step4(s: Regs, e: Env, l: Line, m: map<Addr, Row>)
    requires GoodLine(l) && FirstRowIn(s, e, l, m) && ROWS_PER_LINE >= 2
    ensures var i := Inputs4(l, m).inp;
            && Contract(s, e, Inputs4(l, m)) && LoadCompletes(s, i) && CompletedReserve(s, i)
            && CompletedAddr(s, i) == Addr(l, 1) && !Next(s, i).resv.valid
  {
    hide NextDataOut, NextForward, NextRams, NextDout;
    var i := Inputs4(l, m).inp;
    assert Hits(s, i) == {0};
    LastHitIn(Hits(s, i), NUM_WAYS, 0);
  }

  lemma Prepend(w: Watch, c: Cycle, cs: seq<Cycle>)
    requires Shape(w.s) && Contract(w.s, w.e, c) && WatchRun(WatchTick(w, c), cs)
    ensures WatchRun(w, [c] + cs) && Watched(w, [c] + cs) == Watched(WatchTick(w, c), cs)
  {
    hide Next, NextEnv, NextMark, Contract;
    assert ([c] + cs)[1..] == cs;
  }

  /** The next cycle completes the load-and-reserve and leaves no reservation. */
  ghost predicate Loses(z: Watch, l: Line, m: map<Addr, Row>) {
    var c := Inputs4(l, m);
    && Shape(z.s) && Contract(z.s, z.e, c)
    && LoadCompletes(z.s, c.inp) && CompletedReserve(z.s, c.inp)
    && CompletedAddr(z.s, c.inp) == Addr(l, 1) && !Next(z.s, c.inp).resv.valid
  }

  ghost predicate Leads(w: Watch, cs: seq<Cycle>, l: Line, m: map<Addr, Row>) {
    WatchRun(w, cs) && Loses(Watched(w, cs), l, m)
  }

  lemma From3(w: Watch, l: Line, m: map<Addr, Row>)
    requires GoodLine(l) && Strobed(w.s, w.e, l, m) && ROWS_PER_LINE >= 2
    ensures Leads(w, [Inputs3(l, m)], l, m)
  {
    hide Next, NextEnv, NextMark, FirstRowIn, Contract;
    Step3(w.s, w.e, l, m);
    var w' := WatchTick(w, Inputs3(l, m));
    Step4(w'.s, w'.e, l, m);
    assert WatchRun(w', []) && Watched(w', []) == w';
    Prepend(w, Inputs3(l, m), []);
    assert [Inputs3(l, m)] + [] == [Inputs3(l, m)];
  }

  lemma From2(w: Watch, l: Line, m: map<Addr, Row>)
    requires GoodLine(l) && Missed(w.s, w.e, l, m) && ROWS_PER_LINE >= 2
    ensures Leads(w, [Inputs2(), Inputs3(l, m)], l, m)
  {
    hide Next, NextEnv, NextMark, Strobed, Contract, Loses;
    Step2(w.s, w.e, l, m);
    From3(WatchTick(w, Inputs2()), l, m);
    Prepend(w, Inputs2(), [Inputs3(l, m)]);
    assert [Inputs2()] + [Inputs3(l, m)] == [Inputs2(), Inputs3(l, m)];
  }

  lemma From1(w: Watch, l: Line, m: map<Addr, Row>)
    requires GoodLine(l) && HasLoad(w.s, w.e, l, m) && ROWS_PER_LINE >= 2
    ensures Leads(w, [Inputs1(l), Inputs2(), Inputs3(l, m)], l, m)
  {
    hide Next, NextEnv, NextMark, Missed, Contract, Loses;
    Step1(w.s, w.e, l, m);
    From2(WatchTick(w, Inputs1(l)), l, m);
    Prepend(w, Inputs1(l), [Inputs2(), Inputs3(l, m)]);
    assert [Inputs1(l)] + [Inputs2(), Inputs3(l, m)] == [Inputs1(l), Inputs2(), Inputs3(l, m)];
  }

  /** From every reset state, with at least two rows per line: a load of row 0 misses, the load-and-reserve of row 1
      behind it meets its row straight from stage 0 and completes, and no reservation is left. */
  lemma LarxUnreserved(w: Watch, l: Line)
    requires Reset(w.s, w.e) && GoodLine(l) && ROWS_PER_LINE >= 2
    ensures var m := w.e.mem;
            Leads(w, [Inputs0(l), Inputs1(l), Inputs2(), Inputs3(l, m)], l, m)
  {
    hide Next, NextEnv, NextMark, HasLoad, Contract, Loses;
    var m := w.e.mem;
    Step0(w.s, w.e, l);
    From1(WatchTick(w, Inputs0(l)), l, m);
    Prepend(w, Inputs0(l), [Inputs1(l), Inputs2(), Inputs3(l, m)]);
    assert [Inputs0(l)] + [Inputs1(l), Inputs2(), Inputs3(l, m)] ==
           [Inputs0(l), Inputs1(l), Inputs2(), Inputs3(l, m)];
  }
}
