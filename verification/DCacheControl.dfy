/** Control invariant of the data cache: refill order, pending-ack count, tag uniqueness. */
module DCacheControl {
  import opened Rows
  import opened DCache
  import opened DCacheBus

  /** Distance from row `f` to row `r` going up and wrapping at the end of the line. */
  function Dist(f: nat, r: nat): int { if r >= f then r - f else r + ROWS_PER_LINE - f }

  function FirstRow(r: Stage1): nat { NextRow(r.endRow) }

  /** Rows received so far in a refill. */
  function Got(r: Stage1): int { Dist(FirstRow(r), r.storeRow.row) }

  function ReloadLine(r: Stage1): Line { Line(r.reloadTag, r.storeIndex) }

  ghost predicate NoValid(s: Regs, l: Line)
    requires Shape(s) && GoodLine(l)
  {
    forall w | w in s.valids[l.index] :: s.tags[l.index][w] != l.tag
  }

  ghost predicate IdleInv(s: Regs, e: Env) {
    s.r1.phase == Idle ==>
      !s.r1.wb.cyc && !s.r1.wb.stb && e.queue == [] && !s.r1.reloading && !s.r1.writeTag && !s.r1.writeBram
  }

  /** `op` reads the row that is `j` places after the next one to arrive. */
  ghost predicate RowRead(r: Stage1, op: BusOp, j: nat) {
    && op.Read? && op.addr.line == ReloadLine(r) && op.addr.row < ROWS_PER_LINE
    && Dist(FirstRow(r), op.addr.row) == Got(r) + j
  }

  /** Refill bus traffic: rows are requested and received once each, in wrap-around order from the first. */
  ghost predicate RefillBus(s: Regs, e: Env) {
    s.r1.phase == Reload ==>
      && s.r1.wb.cyc && !s.r1.wb.we && s.r1.reloading && !s.r1.writeBram
      && s.r1.storeRow.index == s.r1.storeIndex
      && (forall j | 0 <= j < |e.queue| :: RowRead(s.r1, e.queue[j], j))
      && (s.r1.wb.stb ==> s.r1.wb.adr.line == ReloadLine(s.r1)
                          && Dist(FirstRow(s.r1), s.r1.wb.adr.row) == Got(s.r1) + |e.queue|)
      && (!s.r1.wb.stb ==> Got(s.r1) + |e.queue| == ROWS_PER_LINE)
      && (s.r1.writeTag ==> e.queue == [] && Got(s.r1) == 0)
  }

  /** rows_valid marks exactly the rows received. */
  ghost predicate RefillRows(s: Regs) {
    s.r1.phase == Reload ==>
      forall r: nat | r < ROWS_PER_LINE :: r in s.r1.rowsValid <==> Dist(FirstRow(s.r1), r) < Got(s.r1)
  }

  ghost predicate RefillSlot(s: Regs)
    requires Shape(s)
  {
    s.r1.phase == Reload ==>
      && (!s.r1.writeTag ==> s.tags[s.r1.storeIndex][s.r1.storeWay] == s.r1.reloadTag
                             && s.r1.storeWays == {s.r1.storeWay})
      && (s.r1.writeTag ==> NoValid(s, ReloadLine(s.r1)))
  }

  /** The load in stage 1 during a refill: until the first row arrives it is the one that started the refill;
      if it waits for a row of this line, that row is still to come. */
  ghost predicate RefillReq(s: Regs) {
    s.r1.phase == Reload ==>
      && (Got(s.r1) == 0 ==> s.r1.full && s.r1.req.hitReload && s.r1.req.addr.row == FirstRow(s.r1))
      && (s.r1.full && s.r1.req.hitReload ==>
            s.r1.req.lmiss && s.r1.req.addr.line == ReloadLine(s.r1) && s.r1.req.addr.row !in s.r1.rowsValid)
  }

  ghost predicate StoreInv(s: Regs, e: Env) {
    s.r1.phase == StoreWait ==>
      && s.r1.wb.cyc && s.r1.wb.we && !s.r1.reloading && !s.r1.writeTag
      && (forall op | op in e.queue :: op.Write?)
      && (s.r1.full && s.r1.req.samePage ==> s.r1.req.addr.line.tag.page == s.r1.wb.adr.line.tag.page)
  }

  ghost predicate StcxInv(s: Regs, e: Env) {
    s.r1.phase == DoStcx ==>
      && s.r1.wb.cyc && s.r1.wb.we && !s.r1.wb.stb && e.queue == []
      && s.r1.full && s.r1.req.store && s.r1.req.reserve
      && !s.r1.reloading && !s.r1.writeTag && !s.r1.writeBram
      && WbOp(s) == ReqOp(s.r1.req)
      && s.r1.storeRow == GetRow(s.r1.req.addr)
      && (s.r1.req.isHit ==> s.r1.storeWay == s.r1.req.hitWay && s.r1.storeWays == s.r1.req.hitWays)
  }

  /** The delayed 3-bit counter is exact: strobes presented minus acks seen up to the previous cycle. */
  ghost predicate CountInv(s: Regs, e: Env) {
    s.r1.phase != Reload ==>
      && Acks(s.r1) == |e.queue| + (if s.r1.wb.stb then 1 else 0)
      && Acks(s.r1) <= 7
  }

  ghost predicate ReqInv(s: Regs) {
    && (s.r1.full ==> s.r1.req.valid && s.r1.req.lmiss != s.r1.req.store)
    && (s.r1.writeBram ==>
          && s.r1.phase == StoreWait && !s.r1.full && s.r1.wb.stb && s.r1.req.store && s.r1.req.isHit
          && WbOp(s) == ReqOp(s.r1.req)
          && s.r1.storeRow == GetRow(s.r1.req.addr)
          && s.r1.storeWay == s.r1.req.hitWay && s.r1.storeWays == {s.r1.storeWay})
  }

  /** A pending miss is a miss still. */
  ghost predicate MissInv(s: Regs)
    requires Shape(s)
  {
    s.r1.full && s.r1.req.lmiss && !(s.r1.phase == Reload && s.r1.req.hitReload) ==> NoValid(s, s.r1.req.addr.line)
  }

  /** The hit status recorded for a store that has yet to update the RAM is still right. */
  ghost predicate StoreHitInv(s: Regs)
    requires Shape(s)
  {
    (s.r1.full && s.r1.req.store) || s.r1.writeBram ==>
      var l := s.r1.req.addr.line;
      && (forall w | w in s.valids[l.index] && s.tags[l.index][w] == l.tag ::
            s.r1.req.isHit && w == s.r1.req.hitWay)
      && (s.r1.req.isHit ==> s.r1.req.hitWays == {s.r1.req.hitWay} && s.tags[l.index][s.r1.req.hitWay] == l.tag)
  }

  ghost predicate TagSync(s: Regs)
    requires Shape(s)
  {
    s.r0.full && !s.r1.full ==> s.tagSet == s.tags[s.r0.req.addr.line.index]
  }

  ghost predicate UniqueSlot(s: Regs, k: nat, w1: nat, w2: nat)
    requires Shape(s) && k < NUM_LINES
  {
    w1 in s.valids[k] && w2 in s.valids[k] && s.tags[k][w1] == s.tags[k][w2] ==> w1 == w2
  }

  /** At most one valid way of a set holds a given tag. */
  ghost predicate Unique(s: Regs)
    requires Shape(s)
  {
    forall k: nat, w1: nat, w2: nat | k < NUM_LINES :: UniqueSlot(s, k, w1, w2)
  }

  ghost predicate Control(s: Regs, e: Env) {
    && Shape(s)
    && IdleInv(s, e) && RefillBus(s, e) && RefillRows(s) && RefillSlot(s) && RefillReq(s)
    && StoreInv(s, e) && StcxInv(s, e) && CountInv(s, e)
    && ReqInv(s) && MissInv(s) && StoreHitInv(s) && TagSync(s) && Unique(s)
  }

  // ----- facts about the request being processed -----

  /** With unique tags and a current tag read, the hit set is the one matching valid way or empty. */
  lemma HitsUnique(s: Regs, i: Inputs, w: nat)
    requires Shape(s) && TagSync(s) && Unique(s)
    requires w in Hits(s, i)
    ensures Hits(s, i) == {w} && HitWay(s, i) == w
    ensures w in s.valids[s.r0.req.addr.line.index]
    ensures s.tags[s.r0.req.addr.line.index][w] == s.r0.req.addr.line.tag
  {
    var k := s.r0.req.addr.line.index;
    forall v | v in Hits(s, i) ensures v == w {
      assert UniqueSlot(s, k, v, w);
    }
    LastHitIn(Hits(s, i), NUM_WAYS, w);
  }

  lemma HitWayIn(s: Regs, i: Inputs)
    requires Shape(s) && Hits(s, i) != {}
    ensures HitWay(s, i) in Hits(s, i)
  {
    var w :| w in Hits(s, i);
    LastHitIn(Hits(s, i), NUM_WAYS, w);
  }

  lemma NoHitsNoValid(s: Regs, i: Inputs)
    requires Shape(s) && TagSync(s) && Go(s, i) && Hits(s, i) == {}
    ensures NoValid(s, s.r0.req.addr.line)
  {
    var l := s.r0.req.addr.line;
    forall w | w in s.valids[l.index] ensures s.tags[l.index][w] != l.tag {
      assert w !in Hits(s, i);
    }
  }

  /** A request that hits the line being refilled on a row not yet there. */
  lemma HitReloadLine(s: Regs, i: Inputs)
    requires Shape(s) && TagSync(s) && Unique(s) && RefillSlot(s)
    requires s.r1.phase == Reload && !s.r1.writeTag && HitReload(s, i)
    ensures s.r0.req.addr.line == ReloadLine(s.r1) && s.r0.req.addr.row !in s.r1.rowsValid
    ensures s.r0.req.load && Go(s, i)
  {
    HitWayIn(s, i);
    HitsUnique(s, i, HitWay(s, i));
  }

  // ----- preservation, one conjunct at a time -----

  lemma IdleStep(s: Regs, e: Env, c: Cycle)
    requires Shape(s) && IdleInv(s, e) && RefillBus(s, e) && StoreInv(s, e) && StcxInv(s, e) && CountInv(s, e)
    requires Contract(s, e, c)
    ensures IdleInv(Next(s, c.inp), NextEnv(s, e, c))
  {
  }

  lemma AcksExact(r: Stage1)
    requires r.wb.cyc && r.acksPending <= 7 && (r.decAcks ==> r.acksPending >= 1)
    requires r.wb.stb && !r.stalled && !r.decAcks ==> r.acksPending < 7
    ensures Acks(r) == r.acksPending + (if r.wb.stb && !r.stalled then 1 else 0) - (if r.decAcks then 1 else 0)
  {
  }

  /** Strobes of the next cycle: a stalled one stays, a new one is added only below the counter's limit. */
  lemma StrobeNext(s: Regs, e: Env, i: Inputs)
    requires Shape(s) && GoodInputs(i) && StoreInv(s, e) && StcxInv(s, e) && CountInv(s, e)
    requires (s.r1.phase == StoreWait || s.r1.phase == DoStcx) && (i.ack ==> e.queue != [])
    ensures var b := NextWb(s, i);
            && (b.cyc && i.stall ==> b.stb == s.r1.wb.stb)
            && (b.stb && !i.stall ==> Acks(s.r1) < 7)
            && (b.stb ==> b.cyc)
            && (!b.cyc ==> Acks(s.r1) == (if i.ack then 1 else 0) && (s.r1.wb.stb ==> !i.stall))
  {
  }

  /** What one cycle adds to the strobes presented and not yet acknowledged. */
  lemma CountRun(s: Regs, e: Env, c: Cycle)
    requires Shape(s) && StoreInv(s, e) && StcxInv(s, e) && CountInv(s, e) && Contract(s, e, c)
    requires s.r1.phase == StoreWait || s.r1.phase == DoStcx
    ensures CountInv(Next(s, c.inp), NextEnv(s, e, c))
  {
    StrobeNext(s, e, c.inp);
    var r := NextR1(s, c.inp);
    if r.wb.cyc {
      AcksExact(r);
    }
  }

  lemma CountStep(s: Regs, e: Env, c: Cycle)
    requires Shape(s) && IdleInv(s, e) && RefillBus(s, e) && StoreInv(s, e) && StcxInv(s, e) && CountInv(s, e)
    requires Contract(s, e, c)
    ensures CountInv(Next(s, c.inp), NextEnv(s, e, c))
  {
    if s.r1.phase == StoreWait || s.r1.phase == DoStcx {
      CountRun(s, e, c);
    } else {
      CountIdle(s, e, c);
    }
  }

  lemma CountIdle(s: Regs, e: Env, c: Cycle)
    requires Shape(s) && IdleInv(s, e) && RefillBus(s, e) && Contract(s, e, c)
    requires s.r1.phase == Idle || s.r1.phase == Reload
    ensures CountInv(Next(s, c.inp), NextEnv(s, e, c))
  {
  }

  lemma RefillBusStart(s: Regs, e: Env, c: Cycle)
    requires Shape(s) && IdleInv(s, e) && ReqInv(s) && Contract(s, e, c) && s.r1.phase == Idle
    ensures RefillBus(Next(s, c.inp), NextEnv(s, e, c))
  {
  }

  lemma RefillCursor(s: Regs, i: Inputs)
    requires Shape(s) && GoodInputs(i) && s.r1.phase == Reload && !LastAck(s, i)
    ensures var r := NextR1(s, i);
            && FirstRow(r) == FirstRow(s.r1) && ReloadLine(r) == ReloadLine(s.r1)
            && Got(r) == Got(s.r1) + (if i.ack then 1 else 0)
  {
  }

  lemma RefillQueueRun(s: Regs, e: Env, c: Cycle, j: nat)
    requires Shape(s) && RefillBus(s, e) && Contract(s, e, c) && s.r1.phase == Reload && !LastAck(s, c.inp)
    requires j < |NextQueue(s, e, c.inp)|
    ensures RowRead(NextR1(s, c.inp), NextQueue(s, e, c.inp)[j], j)
  {
    RefillCursor(s, c.inp);
    var shift := if c.inp.ack then 1 else 0;
    if j + shift < |e.queue| {
      assert NextQueue(s, e, c.inp)[j] == e.queue[j + shift];
      assert RowRead(s.r1, e.queue[j + shift], j + shift);
    } else {
      assert NextQueue(s, e, c.inp)[j] == WbOp(s);
    }
  }

  lemma RefillBusRun(s: Regs, e: Env, c: Cycle)
    requires Shape(s) && RefillBus(s, e) && Contract(s, e, c) && s.r1.phase == Reload
    ensures RefillBus(Next(s, c.inp), NextEnv(s, e, c))
  {
    if !LastAck(s, c.inp) {
      RefillCursor(s, c.inp);
      forall j: nat | j < |NextQueue(s, e, c.inp)|
        ensures RowRead(NextR1(s, c.inp), NextQueue(s, e, c.inp)[j], j)
      {
        RefillQueueRun(s, e, c, j);
      }
    }
  }

  lemma RefillBusStep(s: Regs, e: Env, c: Cycle)
    requires Shape(s) && IdleInv(s, e) && RefillBus(s, e) && ReqInv(s) && Contract(s, e, c)
    ensures RefillBus(Next(s, c.inp), NextEnv(s, e, c))
  {
    if s.r1.phase == Idle {
      RefillBusStart(s, e, c);
    } else if s.r1.phase == Reload {
      RefillBusRun(s, e, c);
    }
  }

  lemma RefillRowsStep(s: Regs, e: Env, c: Cycle)
    requires Shape(s) && RefillRows(s) && Contract(s, e, c)
    ensures RefillRows(Next(s, c.inp))
  {
    if s.r1.phase == Reload && !LastAck(s, c.inp) {
      RefillCursor(s, c.inp);
    }
  }

  /** The line index a request misses on stays without that line until a refill allocates it. */
  lemma NoValidStep(s: Regs, i: Inputs, l: Line)
    requires Shape(s) && GoodInputs(i) && GoodLine(l) && !s.r1.writeTag && NoValid(s, l)
    ensures NoValid(Next(s, i), l)
  {
    assert NextValid(s, i, l.index) <= s.valids[l.index];
  }

  lemma CurMissNoValid(s: Regs, e: Env, i: Inputs)
    requires Control(s, e) && s.r1.phase == Idle && Cur(s, i).lmiss
    ensures NoValid(s, Cur(s, i).addr.line)
  {
    if !s.r1.full {
      NoHitsNoValid(s, i);
    }
  }

  lemma RefillSlotStep(s: Regs, e: Env, c: Cycle)
    requires Control(s, e) && Contract(s, e, c)
    ensures RefillSlot(Next(s, c.inp))
  {
    if MissStart(s, c.inp) {
      CurMissNoValid(s, e, c.inp);
      NoValidStep(s, c.inp, Cur(s, c.inp).addr.line);
    }
  }

  lemma RefillReqStart(s: Regs, e: Env, c: Cycle)
    requires Shape(s) && ReqInv(s) && Contract(s, e, c) && s.r1.phase == Idle
    ensures RefillReq(Next(s, c.inp))
  {
  }

  lemma RefillReqRun(s: Regs, e: Env, c: Cycle)
    requires Shape(s) && RefillBus(s, e) && RefillRows(s) && RefillReq(s) && Contract(s, e, c)
    requires s.r1.phase == Reload
    requires HitReload(s, c.inp) ==>
               s.r0.req.addr.line == ReloadLine(s.r1) && s.r0.req.addr.row !in s.r1.rowsValid
    ensures RefillReq(Next(s, c.inp))
  {
  }

  lemma RefillReqStep(s: Regs, e: Env, c: Cycle)
    requires Control(s, e) && Contract(s, e, c)
    ensures RefillReq(Next(s, c.inp))
  {
    if s.r1.phase == Idle {
      RefillReqStart(s, e, c);
    } else if s.r1.phase == Reload {
      if HitReload(s, c.inp) {
        HitReloadLine(s, c.inp);
      }
      RefillReqRun(s, e, c);
    }
  }

  lemma StoreStep(s: Regs, e: Env, c: Cycle)
    requires Shape(s) && IdleInv(s, e) && StoreInv(s, e) && StcxInv(s, e) && Contract(s, e, c)
    ensures StoreInv(Next(s, c.inp), NextEnv(s, e, c))
  {
  }

  lemma StcxStep(s: Regs, e: Env, c: Cycle)
    requires Shape(s) && IdleInv(s, e) && StcxInv(s, e) && ReqInv(s) && Contract(s, e, c)
    ensures StcxInv(Next(s, c.inp), NextEnv(s, e, c))
  {
  }

  lemma StoreHitCur(s: Regs, e: Env, i: Inputs)
    requires Control(s, e) && Cur(s, i).store
    ensures Cur(s, i).isHit ==> Cur(s, i).hitWays == {Cur(s, i).hitWay}
  {
    if !s.r1.full && Hits(s, i) != {} {
      HitWayIn(s, i);
      HitsUnique(s, i, HitWay(s, i));
    }
  }

  lemma ReqStep(s: Regs, e: Env, c: Cycle)
    requires Control(s, e) && Contract(s, e, c)
    ensures ReqInv(Next(s, c.inp))
  {
    if Cur(s, c.inp).store {
      StoreHitCur(s, e, c.inp);
    }
  }

  lemma MissStep(s: Regs, e: Env, c: Cycle)
    requires Control(s, e) && Contract(s, e, c)
    ensures MissInv(Next(s, c.inp))
  {
    var s' := Next(s, c.inp);
    if s'.r1.full && s'.r1.req.lmiss && !(s'.r1.phase == Reload && s'.r1.req.hitReload) {
      if Go(s, c.inp) && Hits(s, c.inp) == {} {
        NoHitsNoValid(s, c.inp);
      }
      NoValidStep(s, c.inp, s'.r1.req.addr.line);
    }
  }

  lemma StoreHitStep(s: Regs, e: Env, c: Cycle)
    requires Control(s, e) && Contract(s, e, c)
    ensures StoreHitInv(Next(s, c.inp))
  {
    var s' := Next(s, c.inp);
    if (s'.r1.full && s'.r1.req.store) || s'.r1.writeBram {
      var l := s'.r1.req.addr.line;
      assert NextValid(s, c.inp, l.index) <= s.valids[l.index];
      if Go(s, c.inp) {
        if Hits(s, c.inp) == {} {
          NoHitsNoValid(s, c.inp);
        } else {
          HitWayIn(s, c.inp);
          HitsUnique(s, c.inp, HitWay(s, c.inp));
          forall w | w in s.valids[l.index] && s.tags[l.index][w] == l.tag ensures w == HitWay(s, c.inp) {
            assert UniqueSlot(s, l.index, w, HitWay(s, c.inp));
          }
        }
      }
    }
  }

  lemma TagSyncStep(s: Regs, e: Env, c: Cycle)
    requires Shape(s) && TagSync(s) && RefillBus(s, e) && RefillReq(s) && IdleInv(s, e) && StoreInv(s, e)
    requires StcxInv(s, e) && Contract(s, e, c)
    ensures TagSync(Next(s, c.inp))
  {
  }

  lemma UniqueSlotStep(s: Regs, i: Inputs, k: nat, w1: nat, w2: nat)
    requires Shape(s) && GoodInputs(i) && k < NUM_LINES
    requires UniqueSlot(s, k, w1, w2)
    requires s.r1.writeTag ==> NoValid(s, ReloadLine(s.r1))
    ensures UniqueSlot(Next(s, i), k, w1, w2)
  {
  }

  lemma UniqueStep(s: Regs, e: Env, c: Cycle)
    requires Shape(s) && RefillSlot(s) && IdleInv(s, e) && StoreInv(s, e) && StcxInv(s, e) && Unique(s)
    requires Contract(s, e, c)
    ensures Unique(Next(s, c.inp))
  {
    var s' := Next(s, c.inp);
    forall k: nat, w1: nat, w2: nat | k < NUM_LINES ensures UniqueSlot(s', k, w1, w2) {
      assert UniqueSlot(s, k, w1, w2);
      UniqueSlotStep(s, c.inp, k, w1, w2);
    }
  }

  /** Every cycle keeps the control invariant, whatever stalls, acks, snoops and victims it brings. */
  lemma ControlStep(s: Regs, e: Env, c: Cycle)
    requires Control(s, e) && Contract(s, e, c)
    ensures Control(Next(s, c.inp), NextEnv(s, e, c))
  {
    IdleStep(s, e, c);
    CountStep(s, e, c);
    RefillBusStep(s, e, c);
    RefillRowsStep(s, e, c);
    RefillSlotStep(s, e, c);
    RefillReqStep(s, e, c);
    StoreStep(s, e, c);
    StcxStep(s, e, c);
    ReqStep(s, e, c);
    MissStep(s, e, c);
    StoreHitStep(s, e, c);
    TagSyncStep(s, e, c);
    UniqueStep(s, e, c);
  }
}
