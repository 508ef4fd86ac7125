/** Data invariant of the data cache: every valid row agrees with the processor's view of memory. */
module DCacheData {
  import opened Wrappers
  import opened Rows
  import opened DCache
  import opened DCacheBus
  import opened DCacheControl

  /** The slot's row has arrived, if the slot is the one being refilled. */
  ghost predicate Loaded(s: Regs, k: nat, w: nat, r: nat) {
    !(s.r1.phase == Reload && !s.r1.writeTag && k == s.r1.storeIndex && w == s.r1.storeWay) || r in s.r1.rowsValid
  }

  ghost function SlotAddr(s: Regs, k: nat, w: nat, r: nat): Addr
    requires Shape(s) && k < NUM_LINES && w < NUM_WAYS
  {
    Addr(Line(s.tags[k][w], k), r)
  }

  /** A plain store that stage 1 holds and has not yet written to the RAM. */
  ghost predicate Unwritten(s: Regs) {
    s.r1.writeBram || (s.r1.full && s.r1.req.store && !s.r1.req.reserve)
  }

  ghost function Cached(s: Regs, k: nat, w: nat, r: nat): Row
    requires Shape(s) && k < NUM_LINES && w < NUM_WAYS
  {
    var raw := RamRead(s.rams[w], RowIx(k, r));
    if Unwritten(s) then Effect(ReqOp(s.r1.req), SlotAddr(s, k, w, r), raw) else raw
  }

  /** A row of a valid line agrees with the view, without a write by another master that is still on its way through the
      snoop register. */
  ghost predicate Fresh(s: Regs, e: Env, k: nat, w: nat, r: nat)
    requires Shape(s) && k < NUM_LINES && w < NUM_WAYS
  {
    w in s.valids[k] && Loaded(s, k, w, r) ==> Cached(s, k, w, r) == SeenView(s, e, SlotAddr(s, k, w, r))
  }

  ghost predicate AllFresh(s: Regs, e: Env)
    requires Shape(s)
  {
    forall k: nat, w: nat, r: nat | k < NUM_LINES && w < NUM_WAYS && r < ROWS_PER_LINE :: Fresh(s, e, k, w, r)
  }

  /** Bus ownership: strobes are outstanding only while the cache owns the bus, others write only while it does not. */
  ghost predicate OwnerInv(s: Regs, e: Env) {
    && (e.queue != [] || (s.r1.phase == Reload && Got(s.r1) > 0) ==> e.granted)
    && (e.granted ==> s.r1.wb.cyc)
    && (e.recent.Some? ==> !e.granted && s.snoop.valid && s.snoop.line == e.recent.value)
  }

  ghost predicate RefillingSlot(s: Regs, k: nat, w: nat) {
    s.r1.phase == Reload && !s.r1.writeTag && k == s.r1.storeIndex && w == s.r1.storeWay
  }

  /** The tags read for a snoop are current, except possibly in the slot just allocated. */
  ghost predicate SnoopInv(s: Regs)
    requires Shape(s)
  {
    s.snoop.valid ==>
      forall w: nat | w < NUM_WAYS && !RefillingSlot(s, s.snoop.line.index, w) ::
        s.snoop.tags[w] == s.tags[s.snoop.line.index][w]
  }

  ghost predicate DataSync(s: Regs, e: Env) {
    s.r0.full && s.r0.dValid ==> s.r0.data == e.owed
  }

  /** The RAM output register, with the previous cycle's write merged in, shows the RAM's present contents. */
  ghost predicate DoutSync(s: Regs)
    requires Shape(s)
  {
    s.r0.full && s.r0.req.load ==>
      var x := GetRow(s.r0.req.addr);
      forall w: nat | w < NUM_WAYS ::
        RamRead(s.rams[w], x) ==
          if s.r1.forward.valid && x == s.r1.forward.row && w == s.r1.forward.way
          then Merge(s.r1.forward.sel, s.r1.forward.data, s.dout[w]) else s.dout[w]
  }

  ghost predicate Inv(s: Regs, e: Env) {
    && Control(s, e)
    && OwnerInv(s, e) && SnoopInv(s) && DataSync(s, e) && DoutSync(s)
    && AllFresh(s, e)
  }

  // ----- small invariants -----

  lemma OwnerStep(s: Regs, e: Env, c: Cycle)
    requires Control(s, e) && OwnerInv(s, e) && Contract(s, e, c)
    ensures OwnerInv(Next(s, c.inp), NextEnv(s, e, c))
  {
    ControlStep(s, e, c);
  }

  lemma SnoopStep(s: Regs, e: Env, c: Cycle)
    requires Shape(s) && RefillBus(s, e) && IdleInv(s, e) && StoreInv(s, e) && StcxInv(s, e) && SnoopInv(s)
    requires Contract(s, e, c)
    ensures SnoopInv(Next(s, c.inp))
  {
  }

  lemma DataSyncStep(s: Regs, e: Env, c: Cycle)
    requires Shape(s) && DataSync(s, e) && Contract(s, e, c)
    ensures DataSync(Next(s, c.inp), NextEnv(s, e, c))
  {
  }

  lemma DoutStep(s: Regs, e: Env, c: Cycle)
    requires Shape(s) && DoutSync(s) && Contract(s, e, c)
    ensures DoutSync(Next(s, c.inp))
  {
  }

  // ----- the view changes by this processor's stores only -----

  /** No write by another master to address `a` in this cycle. */
  ghost predicate Quiet(c: Cycle, a: Addr) { c.foreign.Some? ==> c.foreign.value.addr != a }

  lemma AfterQueueQuiet(s: Regs, e: Env, c: Cycle, a: Addr)
    requires Shape(s) && OwnerInv(s, e) && Contract(s, e, c) && Quiet(c, a)
    ensures AfterQueue(NextEnv(s, e, c), a)
         == if Taken(s, c.inp) then Effect(WbOp(s), a, AfterQueue(e, a)) else AfterQueue(e, a)
  {
    if c.foreign.None? {
      AfterQueueStep(s, e, c, a);
    } else {
      assert NextEnv(s, e, c).queue == e.queue;
    }
  }

  ghost function Perform(op: Option<BusOp>, a: Addr, r: Row): Row {
    if op.Some? then Effect(op.value, a, r) else r
  }

  lemma ViewIdle(s: Regs, e: Env, c: Cycle, a: Addr)
    requires Shape(s) && IdleInv(s, e) && ReqInv(s) && OwnerInv(s, e) && DataSync(s, e) && Contract(s, e, c)
    requires Quiet(c, a)
    requires s.r1.phase == Idle
    ensures View(Next(s, c.inp), NextEnv(s, e, c), a) == Perform(OwnStore(s, e, c.inp), a, View(s, e, a))
  {
    AfterQueueQuiet(s, e, c, a);
  }

  lemma ViewReload(s: Regs, e: Env, c: Cycle, a: Addr)
    requires Shape(s) && RefillBus(s, e) && RefillReq(s) && ReqInv(s) && OwnerInv(s, e) && DataSync(s, e)
    requires Contract(s, e, c) && Quiet(c, a)
    requires s.r1.phase == Reload
    ensures View(Next(s, c.inp), NextEnv(s, e, c), a) == Perform(OwnStore(s, e, c.inp), a, View(s, e, a))
  {
    AfterQueueQuiet(s, e, c, a);
  }

  lemma ViewStoreWait(s: Regs, e: Env, c: Cycle, a: Addr)
    requires Shape(s) && StoreInv(s, e) && ReqInv(s) && CountInv(s, e) && OwnerInv(s, e) && DataSync(s, e)
    requires Contract(s, e, c) && Quiet(c, a)
    requires s.r1.phase == StoreWait
    ensures View(Next(s, c.inp), NextEnv(s, e, c), a) == Perform(OwnStore(s, e, c.inp), a, View(s, e, a))
  {
    AfterQueueQuiet(s, e, c, a);
  }

  lemma ViewDoStcx(s: Regs, e: Env, c: Cycle, a: Addr)
    requires Shape(s) && StcxInv(s, e) && OwnerInv(s, e) && DataSync(s, e) && Contract(s, e, c) && Quiet(c, a)
    requires s.r1.phase == DoStcx
    ensures View(Next(s, c.inp), NextEnv(s, e, c), a) == Perform(OwnStore(s, e, c.inp), a, View(s, e, a))
  {
    AfterQueueQuiet(s, e, c, a);
  }

  /** Without this cycle's write by another master, the view changes by this processor's own store alone, everywhere. */
  lemma PriorView(s: Regs, e: Env, c: Cycle, a: Addr)
    requires Control(s, e) && OwnerInv(s, e) && DataSync(s, e) && Contract(s, e, c)
    ensures View(Next(s, c.inp), BeforeForeign(NextEnv(s, e, c)), a)
         == Perform(OwnStore(s, e, c.inp), a, View(s, e, a))
  {
    hide Control, OwnerInv, DataSync, Next, OwnStore;
    ViewStep(s, e, c.(foreign := None), a);
  }

  /** One cycle changes the view by this processor's own store and by nothing else. */
  lemma ViewStep(s: Regs, e: Env, c: Cycle, a: Addr)
    requires Control(s, e) && OwnerInv(s, e) && DataSync(s, e) && Contract(s, e, c) && Quiet(c, a)
    ensures View(Next(s, c.inp), NextEnv(s, e, c), a) == Perform(OwnStore(s, e, c.inp), a, View(s, e, a))
  {
    match s.r1.phase
    case Idle => ViewIdle(s, e, c, a);
    case Reload => ViewReload(s, e, c, a);
    case StoreWait => ViewStoreWait(s, e, c, a);
    case DoStcx => ViewDoStcx(s, e, c, a);
  }

  // ----- rows stay fresh -----

  /** RAM contents of a valid slot after this cycle's write, if it is not the row arriving from the bus. */
  lemma RamStep(s: Regs, e: Env, c: Cycle, k: nat, w: nat, r: nat)
    requires Shape(s) && RefillBus(s, e) && IdleInv(s, e) && StoreInv(s, e) && StcxInv(s, e)
    requires ReqInv(s) && StoreHitInv(s) && Contract(s, e, c)
    requires k < NUM_LINES && w < NUM_WAYS && w in s.valids[k]
    requires !(RefillingSlot(s, k, w) && c.inp.ack && r == s.r1.storeRow.row)
    ensures RamRead(NextRams(s, c.inp)[w], RowIx(k, r))
         == if s.r1.writeBram then Cached(s, k, w, r) else RamRead(s.rams[w], RowIx(k, r))
  {
  }

  /** A store that leaves stage 0 or stage 1 for the bus without updating the RAM is to a line that is not cached. */
  lemma StoreMissNoSlot(s: Regs, e: Env, c: Cycle, k: nat, w: nat, r: nat)
    requires Control(s, e) && Contract(s, e, c) && k < NUM_LINES && w < NUM_WAYS && w in s.valids[k]
    requires Cur(s, c.inp).store && !Cur(s, c.inp).isHit
    ensures Cur(s, c.inp).addr != SlotAddr(s, k, w, r)
  {
    if !s.r1.full {
      NoHitsNoValid(s, c.inp);
    }
  }

  lemma CachedStep(s: Regs, e: Env, c: Cycle, k: nat, w: nat, r: nat)
    requires Control(s, e) && DataSync(s, e) && Contract(s, e, c)
    requires k < NUM_LINES && w < NUM_WAYS && w in s.valids[k]
    requires Next(s, c.inp).tags[k][w] == s.tags[k][w]
    requires !(RefillingSlot(s, k, w) && c.inp.ack && r == s.r1.storeRow.row)
    ensures Cached(Next(s, c.inp), k, w, r)
         == Perform(OwnStore(s, e, c.inp), SlotAddr(s, k, w, r), Cached(s, k, w, r))
  {
    RamStep(s, e, c, k, w, r);
    if Cur(s, c.inp).store && !Cur(s, c.inp).isHit {
      StoreMissNoSlot(s, e, c, k, w, r);
    }
  }

  /** The row arriving from the bus is the view of its address, but for a store waiting in stage 1. */
  lemma ArrivingRow(s: Regs, e: Env, c: Cycle)
    requires Shape(s) && RefillBus(s, e) && OwnerInv(s, e) && Contract(s, e, c)
    requires s.r1.phase == Reload && c.inp.ack
    ensures c.foreign.None?
    ensures c.inp.busData == AfterStrobe(s, e, Addr(ReloadLine(s.r1), s.r1.storeRow.row))
  {
    var a := Addr(ReloadLine(s.r1), s.r1.storeRow.row);
    assert RowRead(s.r1, e.queue[0], 0);
    assert e.queue[0].addr == a;
    ApplyReads(e.queue, a, MemRead(e.mem, a));
  }

  lemma FreshArrival(s: Regs, e: Env, c: Cycle, k: nat, w: nat, r: nat)
    requires Control(s, e) && OwnerInv(s, e) && DataSync(s, e) && Contract(s, e, c)
    requires k < NUM_LINES && w < NUM_WAYS && r < ROWS_PER_LINE
    requires RefillingSlot(s, k, w) && c.inp.ack && r == s.r1.storeRow.row
    ensures Fresh(Next(s, c.inp), NextEnv(s, e, c), k, w, r)
  {
    var a := SlotAddr(s, k, w, r);
    ArrivingRow(s, e, c);
    ViewReload(s, e, c, a);
    MergeAll(c.inp.busData, RamRead(s.rams[w], RowIx(k, r)));
  }

  /** A slot whose line another master wrote in the previous cycle is dropped now or holds no row yet. */
  lemma StaleGone(s: Regs, e: Env, c: Cycle, k: nat, w: nat, r: nat)
    requires Control(s, e) && OwnerInv(s, e) && SnoopInv(s) && Contract(s, e, c)
    requires k < NUM_LINES && w < NUM_WAYS && r < ROWS_PER_LINE
    requires w in s.valids[k] && e.recent == Some(SlotAddr(s, k, w, r).line)
    requires !(s.r1.writeTag && k == s.r1.storeIndex && w == c.inp.victim)
    ensures w in Next(s, c.inp).valids[k] ==> !Loaded(Next(s, c.inp), k, w, r)
  {
    if RefillingSlot(s, k, w) {
      RefillRowsStep(s, e, c);
      assert Got(s.r1) == 0;
    }
  }

  lemma FreshStep(s: Regs, e: Env, c: Cycle, k: nat, w: nat, r: nat)
    requires Inv(s, e) && Contract(s, e, c)
    requires k < NUM_LINES && w < NUM_WAYS && r < ROWS_PER_LINE
    ensures Fresh(Next(s, c.inp), NextEnv(s, e, c), k, w, r)
  {
    var s', e' := Next(s, c.inp), NextEnv(s, e, c);
    if w in s'.valids[k] && Loaded(s', k, w, r) {
      if s.r1.writeTag && k == s.r1.storeIndex && w == c.inp.victim {
        RefillRowsStep(s, e, c);
      } else if RefillingSlot(s, k, w) && c.inp.ack && r == s.r1.storeRow.row {
        FreshArrival(s, e, c, k, w, r);
      } else {
        FreshKept(s, e, c, k, w, r);
      }
    }
  }

  lemma LoadedBefore(s: Regs, e: Env, c: Cycle, k: nat, w: nat, r: nat)
    requires Shape(s) && RefillBus(s, e) && RefillRows(s) && Contract(s, e, c)
    requires k < NUM_LINES && w < NUM_WAYS && r < ROWS_PER_LINE
    requires Loaded(Next(s, c.inp), k, w, r)
    requires !(RefillingSlot(s, k, w) && c.inp.ack && r == s.r1.storeRow.row)
    ensures Loaded(s, k, w, r)
  {
  }

  lemma FreshKept(s: Regs, e: Env, c: Cycle, k: nat, w: nat, r: nat)
    requires Inv(s, e) && Contract(s, e, c)
    requires k < NUM_LINES && w < NUM_WAYS && r < ROWS_PER_LINE
    requires w in Next(s, c.inp).valids[k] && Loaded(Next(s, c.inp), k, w, r)
    requires !(s.r1.writeTag && k == s.r1.storeIndex && w == c.inp.victim)
    requires !(RefillingSlot(s, k, w) && c.inp.ack && r == s.r1.storeRow.row)
    ensures Fresh(Next(s, c.inp), NextEnv(s, e, c), k, w, r)
  {
    var a := SlotAddr(s, k, w, r);
    LoadedBefore(s, e, c, k, w, r);
    assert Fresh(s, e, k, w, r);
    if e.recent == Some(a.line) {
      StaleGone(s, e, c, k, w, r);
    } else {
      CachedStep(s, e, c, k, w, r);
      if NextEnv(s, e, c).recent == Some(a.line) {
        PriorView(s, e, c, a);
      } else {
        ViewStep(s, e, c, a);
      }
    }
  }

  /** Every cycle keeps the whole invariant. */
  lemma InvStep(s: Regs, e: Env, c: Cycle)
    requires Inv(s, e) && Contract(s, e, c)
    ensures Inv(Next(s, c.inp), NextEnv(s, e, c))
  {
    ControlStep(s, e, c);
    OwnerStep(s, e, c);
    SnoopStep(s, e, c);
    DataSyncStep(s, e, c);
    DoutStep(s, e, c);
    forall k: nat, w: nat, r: nat | k < NUM_LINES && w < NUM_WAYS && r < ROWS_PER_LINE
      ensures Fresh(Next(s, c.inp), NextEnv(s, e, c), k, w, r)
    {
      FreshStep(s, e, c, k, w, r);
    }
  }
}
