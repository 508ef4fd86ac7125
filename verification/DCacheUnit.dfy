/** The clocked processes of dcache.vhdl in the source's order of assignment, where a later assignment wins, proved
    equal to the register-by-register next-state functions. */
module DCacheUnit {
  import opened Wrappers
  import opened Rows
  import opened DCache

  /** Way search of dcache_request. */
  method FindHit(s: Regs, i: Inputs) returns (hits: set<nat>, way: nat, isHit: bool, hitReload: bool)
    requires Shape(s)
    ensures hits == Hits(s, i) && way == HitWay(s, i) && isHit == IsHit(s, i) && hitReload == HitReload(s, i)
  {
    var a := s.r0.req.addr;
    var idxReload := IdxReload(s, i);
    hits := {};
    for w := 0 to NUM_WAYS
      invariant forall v: nat :: v in hits <==> v in Hits(s, i) && v < w
    {
      if Go(s, i) && w in s.valids[a.line.index] && s.tagSet[w] == a.line.tag {
        hits := hits + {w};
      }
    }
    assert hits == Hits(s, i);
    way, isHit, hitReload := 0, false, false;
    for w := 0 to NUM_WAYS
      invariant way == LastHit(hits, w)
      invariant (exists v: nat :: v < w && v in hits) ==>
                  isHit == (way !in idxReload) && hitReload == (way in idxReload)
      invariant (forall v: nat | v < w :: v !in hits) ==> !isHit && !hitReload
    {
      if w in hits {
        way, isHit, hitReload := w, w !in idxReload, w in idxReload;
      }
    }
    if hits != {} {
      var v :| v in hits;
      assert v < NUM_WAYS && v in hits;
    }
  }

  /** The byte loop of one way: a store written this cycle wins over the previous cycle's write, lane by lane. */
  method ForwardBytes(s: Regs, i: Inputs, w: nat) returns (d: Row)
    requires Shape(s) && w < NUM_WAYS
    ensures d == CacheOut(s, i, w)
  {
    var x := GetRow(s.r0.req.addr);
    var useSt := Go(s, i) && x == s.r1.storeRow && s.r1.writeBram && w in s.r1.storeWays;
    var use2 := Go(s, i) && s.r1.forward.valid && x == s.r1.forward.row && w == s.r1.forward.way;
    d := ZERO;
    for b := 0 to 8
      invariant forall l | 0 <= l < b :: d[l] == CacheOut(s, i, w)[l]
    {
      if useSt && s.r1.req.sel[b] {
        d := d[b := s.r1.req.data[b]];
      } else if use2 && s.r1.forward.sel[b] {
        d := d[b := s.r1.forward.data[b]];
      } else {
        d := d[b := s.dout[w][b]];
      }
    }
  }

  /** The and-or over hit ways in dcache_fast_hit. */
  method SelectData(s: Regs, i: Inputs) returns (d: Row)
    requires Shape(s)
    ensures d == NextDataOut(s, i)
  {
    var hits, _, isHit, _ := FindHit(s, i);
    if !isHit {
      return i.busData;
    }
    d := ZERO;
    ghost var outs := seq(NUM_WAYS, w requires 0 <= w < NUM_WAYS => CacheOut(s, i, w));
    for w := 0 to NUM_WAYS
      invariant d == OrMux(hits, outs, w)
    {
      var out := ForwardBytes(s, i, w);
      d := Or(if w in hits then out else ZERO, d);
    }
  }

  /** The generated RAM instances: write port and registered read port of every way. */
  method ClockRams(s: Regs, i: Inputs) returns (rams: seq<map<RowIx, Row>>, dout: seq<Row>)
    requires Shape(s) && GoodInputs(i)
    ensures rams == NextRams(s, i) && dout == NextDout(s, i)
  {
    var reading := Accept(s, i) || (s.r0.full && s.r0.req.load);
    var rdAddr := GetRow(NextR0(s, i).req.addr);
    rams, dout := s.rams, s.dout;
    for w := 0 to NUM_WAYS
      invariant |rams| == NUM_WAYS && |dout| == NUM_WAYS
      invariant forall v | 0 <= v < NUM_WAYS :: rams[v] == if v < w then NextRams(s, i)[v] else s.rams[v]
      invariant forall v | 0 <= v < NUM_WAYS :: dout[v] == if v < w then NextDout(s, i)[v] else s.dout[v]
    {
      if reading {
        dout := dout[w := RamRead(s.rams[w], rdAddr)];
      }
      if RamWrites(s, i) && w == ReplaceWay(s, i) {
        rams := rams[w := RamWrite(rams[w], s.r1.storeRow, WriteSel(s), WriteData(s, i))];
      }
    }
  }

  /** Invalidations from a snooped store, then the valid bit of a line being allocated. */
  method ClockValids(s: Regs, i: Inputs) returns (valids: seq<set<nat>>)
    requires Shape(s) && GoodInputs(i)
    ensures valids == NextValids(s, i)
  {
    valids := s.valids;
    var k := s.snoop.line.index;
    for w := 0 to NUM_WAYS
      invariant |valids| == NUM_LINES
      invariant forall j | 0 <= j < NUM_LINES && j != k :: valids[j] == s.valids[j]
      invariant forall v :: v in valids[k] <==>
                  v in s.valids[k] && !(v < w && s.snoop.valid && s.snoop.tags[v] == s.snoop.line.tag)
    {
      if s.snoop.valid && s.snoop.tags[w] == s.snoop.line.tag {
        valids := valids[k := valids[k] - {w}];
      }
    }
    if s.r1.writeTag {
      valids := valids[s.r1.storeIndex := valids[s.r1.storeIndex] + {i.victim}];
    }
    assert forall j | 0 <= j < NUM_LINES :: valids[j] == NextValid(s, i, j);
  }

  /** State IDLE. */
  method IdleState(s: Regs, i: Inputs)
    returns (phase: Phase, full: bool, wb: Wishbone, writeBram: bool, writeTag: bool, reloading: bool,
             storeWay: nat, storeWays: set<nat>, lsValid: bool, stcxFail: bool)
    requires Shape(s) && s.r1.phase == Idle && !s.r1.writeTag
    requires s.r1.full ==> s.r1.req.lmiss != s.r1.req.store
    ensures phase == NextPhase(s, i) && full == NextFull(s, i) && wb == NextWb(s, i)
    ensures writeBram == NextWriteBram(s, i) && writeTag == NextWriteTag(s, i) && reloading == NextReloading(s, i)
    ensures storeWay == NextStoreWay(s, i) && storeWays == NextStoreWays(s, i)
    ensures lsValid == NextLsValid(s, i) && stcxFail == NextStcxFail(s, i)
  {
    var req := Cur(s, i);
    phase, lsValid := Idle, OpLoadHit(s, i);
    full := if Go(s, i) then OpLoadMiss(s, i) || OpStore(s, i) else s.r1.full;
    var cyc, stb, we := s.r1.wb.cyc, s.r1.wb.stb, s.r1.wb.we;
    writeBram, writeTag, reloading, stcxFail := false, false, s.r1.reloading, false;
    storeWay, storeWays := s.r1.storeWay, s.r1.storeWays;
    if req.isHit {
      storeWay, storeWays := req.hitWay, req.hitWays;
    }
    if req.lmiss {
      we, cyc, stb := false, true, true;
      phase, reloading, writeTag := Reload, true, true;
    }
    if req.store {
      if req.reserve {
        if !s.resv.valid || Kill(s) {
          stcxFail, full, lsValid := true, false, true;
        } else {
          we, cyc := true, true;
          phase := DoStcx;
        }
      } else {
        phase, full, lsValid, writeBram := StoreWait, false, true, req.isHit;
        we, cyc, stb := true, true, true;
      }
    }
    wb := Wishbone(cyc, stb, we, req.addr, req.data, req.sel);
  }

  /** State RELOAD_WAIT_ACK. */
  method ReloadState(s: Regs, i: Inputs, kept: bool)
    returns (phase: Phase, full: bool, wb: Wishbone, reloading: bool,
             storeWay: nat, storeWays: set<nat>, storeRow: RowIx, rowsValid: set<nat>, lsValid: bool, resvValid: bool)
    requires Shape(s) && s.r1.phase == Reload
    ensures phase == NextPhase(s, i) && full == NextFull(s, i) && wb == NextWb(s, i)
    ensures reloading == NextReloading(s, i) && storeRow == NextStoreRow(s, i) && rowsValid == NextRowsValid(s, i)
    ensures storeWay == NextStoreWay(s, i) && storeWays == NextStoreWays(s, i) && lsValid == NextLsValid(s, i)
    ensures resvValid == if RowArrives(s, i) && s.r1.req.reserve then true else kept
  {
    var req := Cur(s, i);
    phase, lsValid, resvValid := Reload, OpLoadHit(s, i), kept;
    full := if Go(s, i) then OpLoadMiss(s, i) || OpStore(s, i) else s.r1.full;
    var cyc, stb, adr := s.r1.wb.cyc, s.r1.wb.stb, s.r1.wb.adr;
    reloading, storeRow, rowsValid := s.r1.reloading, s.r1.storeRow, s.r1.rowsValid;
    storeWay, storeWays := s.r1.storeWay, s.r1.storeWays;
    if s.r1.writeTag {
      storeWay, storeWays := i.victim, {i.victim};
    }
    if !i.stall && s.r1.wb.stb {
      if s.r1.wb.adr.row == s.r1.endRow {
        stb := false;
      }
      adr := s.r1.wb.adr.(row := NextRow(s.r1.wb.adr.row));
    }
    if i.ack {
      rowsValid := s.r1.rowsValid + {s.r1.storeRow.row};
      if req.hitReload && s.r1.storeRow.row == req.addr.row {
        full, lsValid := false, true;
        if s.r1.req.reserve {
          resvValid := true;
        }
      }
      if s.r1.storeRow.row == s.r1.endRow {
        cyc, reloading, phase := false, false, Idle;
      }
      storeRow := s.r1.storeRow.(row := NextRow(s.r1.storeRow.row));
    }
    wb := s.r1.wb.(cyc := cyc, stb := stb, adr := adr);
  }

  /** State STORE_WAIT_ACK. */
  method StoreState(s: Regs, i: Inputs)
    returns (phase: Phase, full: bool, wb: Wishbone, writeBram: bool,
             storeWay: nat, storeWays: set<nat>, storeRow: RowIx, lsValid: bool)
    requires Shape(s) && s.r1.phase == StoreWait && !s.r1.writeTag
    ensures phase == NextPhase(s, i) && full == NextFull(s, i) && wb == NextWb(s, i)
    ensures writeBram == NextWriteBram(s, i) && storeRow == NextStoreRow(s, i)
    ensures storeWay == NextStoreWay(s, i) && storeWays == NextStoreWays(s, i) && lsValid == NextLsValid(s, i)
  {
    var req := Cur(s, i);
    var acks := Acks(s.r1);
    var cyc, stb, adr, dat, sel := s.r1.wb.cyc, s.r1.wb.stb, s.r1.wb.adr, s.r1.wb.dat, s.r1.wb.sel;
    phase, writeBram, lsValid := StoreWait, false, OpLoadHit(s, i);
    full := if Go(s, i) then OpLoadMiss(s, i) || OpStore(s, i) else s.r1.full;
    storeWay, storeWays, storeRow := s.r1.storeWay, s.r1.storeWays, s.r1.storeRow;
    var stbsDone := !s.r1.wb.stb;
    if !i.stall {
      if req.valid {
        adr := Addr(Line(Tag(adr.line.tag.page, req.addr.line.tag.sub), req.addr.line.index), req.addr.row);
        dat, sel := req.data, req.sel;
      }
      stb := false;
      if req.store && req.samePage && !req.reserve {
        if acks < 7 {
          stb, stbsDone := true, false;
          storeWay, storeWays, storeRow := req.hitWay, req.hitWays, GetRow(req.addr);
          writeBram, full, lsValid := req.isHit, false, true;
        }
      } else {
        stbsDone := true;
      }
    }
    if stbsDone && (acks == 0 || (i.ack && acks == 1)) {
      phase, cyc, stb := Idle, false, false;
    }
    wb := Wishbone(cyc, stb, s.r1.wb.we, adr, dat, sel);
  }

  /** State DO_STCX. */
  method StcxState(s: Regs, i: Inputs, kept: bool)
    returns (phase: Phase, full: bool, wb: Wishbone, writeBram: bool, lsValid: bool, stcxFail: bool, resvValid: bool)
    requires Shape(s) && s.r1.phase == DoStcx && s.r1.full
    ensures phase == NextPhase(s, i) && full == NextFull(s, i) && wb == NextWb(s, i)
    ensures writeBram == NextWriteBram(s, i)
    ensures lsValid == NextLsValid(s, i) && stcxFail == NextStcxFail(s, i)
    ensures resvValid == if StcxLost(s) || StcxWins(s, i) then false else kept
  {
    phase, full, lsValid, resvValid := DoStcx, s.r1.full, false, kept;
    var cyc, stb := s.r1.wb.cyc, s.r1.wb.stb;
    writeBram, stcxFail := false, false;
    if !s.resv.valid || Kill(s) || s.r1.req.addr.line != s.resv.line {
      stcxFail, full, lsValid, phase, cyc, resvValid := true, false, true, Idle, false, false;
    } else if !i.stall {
      writeBram, stb, full, lsValid, phase, resvValid := s.r1.req.isHit, true, false, true, StoreWait, false;
    }
    wb := s.r1.wb.(cyc := cyc, stb := stb);
  }

  /** The request register, the write to forward in the next cycle, and the 3-bit count of outstanding acks. */
  method LatchRequest(s: Regs, i: Inputs) returns (req: MemReq, forward: Forward, acks: nat)
    requires Shape(s)
    ensures req == NextReq(s, i) && forward == NextForward(s, i) && acks == Acks(s.r1)
  {
    hide Hits, IdxReload, IsHit, HitReload, HitWay;
    req := s.r1.req;
    if s.r0.full && !s.r1.full && !i.hold {
      var q := s.r0.req;
      var hits, way, isHit, hitReload := FindHit(s, i);
      req := MemReq(true, q.load && !isHit, !q.load, q.reserve, q.addr, if s.r0.dValid then s.r0.data else i.data,
                    if q.load then ALL else q.sel, isHit, way, hits, hitReload && q.load && !isHit,
                    q.addr.line.tag.page == s.r1.wb.adr.line.tag.page);
    }
    if s.r1.phase == Idle {
      req := req.(hitReload := true);
    }
    var data, sel := i.busData, ALL;
    if s.r1.writeBram {
      data, sel := s.r1.req.data, s.r1.req.sel;
    }
    forward := Forward(s.r1.writeBram, data, s.r1.storeRow, sel, if s.r1.writeTag then i.victim else s.r1.storeWay);
    if s.r1.reloading && i.ack {
      forward := forward.(valid := true);
    }
    acks := 0;
    if s.r1.wb.cyc {
      acks := s.r1.acksPending;
      if s.r1.wb.stb && !s.r1.stalled && !s.r1.decAcks {
        acks := (acks + 1) % 8;
      } else if (!s.r1.wb.stb || s.r1.stalled) && s.r1.decAcks {
        acks := (acks + 7) % 8;
      }
    }
  }

  /** The line that a refill would be for, and the last row it would fetch. */
  method LatchLine(s: Regs, i: Inputs) returns (reloadTag: Tag, storeIndex: nat, endRow: nat)
    requires Shape(s)
    ensures reloadTag == if s.r1.phase == Idle then Cur(s, i).addr.line.tag else s.r1.reloadTag
    ensures storeIndex == if s.r1.phase == Idle then Cur(s, i).addr.line.index else s.r1.storeIndex
    ensures endRow == if s.r1.phase == Idle then PrevRow(Cur(s, i).addr.row) else s.r1.endRow
  {
    reloadTag, storeIndex, endRow := s.r1.reloadTag, s.r1.storeIndex, s.r1.endRow;
    if s.r1.phase == Idle {
      var a := if s.r1.full then s.r1.req.addr else s.r0.req.addr;
      reloadTag, storeIndex := a.line.tag, a.line.index;
      endRow := if a.row == 0 then ROWS_PER_LINE - 1 else a.row - 1;
    }
  }

  /** All of the stage 1 register, given what the state machine assigns. */
  method LatchStage1(s: Regs, i: Inputs, phase: Phase, full: bool, wb: Wishbone,
                     writeBram: bool, writeTag: bool, reloading: bool, storeWay: nat, storeWays: set<nat>,
                     storeRow: RowIx, rowsValid: set<nat>, dataOut: Row, lsValid: bool, stcxFail: bool)
    returns (r: Stage1)
    requires Shape(s)
    ensures r == Latch(s, i, phase, full, wb, writeBram, writeTag, reloading, storeWay, storeWays, storeRow, rowsValid,
                       dataOut, lsValid, stcxFail)
  {
    hide NextReq, NextForward, Acks, Cur, Shape;
    var req, forward, acks := LatchRequest(s, i);
    var reloadTag, storeIndex, endRow := LatchLine(s, i);
    r := Stage1(phase, full, req, wb, writeBram, writeTag, reloading, reloadTag, storeWay, storeWays, storeRow,
                storeIndex, endRow, rowsValid, acks, i.stall && s.r1.wb.cyc, i.ack && s.r1.wb.cyc, forward, dataOut,
                lsValid, stcxFail);
  }

  /** dcache_slow and dcache_fast_hit together: the stage 1 register and the reservation. */
  method ClockStage1(s: Regs, i: Inputs) returns (r: Stage1, v: Reservation)
    requires Shape(s) && GoodInputs(i)
    requires s.r1.writeTag ==> s.r1.phase == Reload
    requires s.r1.phase == Idle && s.r1.full ==> s.r1.req.lmiss != s.r1.req.store
    requires s.r1.phase == DoStcx ==> s.r1.full
    ensures r == NextR1(s, i) && v == NextResv(s, i)
  {
    hide NextPhase, NextFull, NextWb, NextLsValid, NextDataOut, NextReq, NextForward, Acks, Hits, IdxReload, Kill,
      IsHit, ReqSnoopHit, Go, Cur, Latch;
    var kept, line := s.resv.valid, s.resv.line;
    if Kill(s) {
      kept := false;
    }
    if Go(s, i) && s.r0.req.load && s.r0.req.reserve {
      kept, line := IsHit(s, i) && !ReqSnoopHit(s, i), s.r0.req.addr.line;
    }
    var phase, full, wb, lsValid;
    var writeBram, writeTag, reloading, stcxFail := false, false, s.r1.reloading, false;
    var storeWay, storeWays, storeRow, rowsValid := s.r1.storeWay, s.r1.storeWays, s.r1.storeRow, s.r1.rowsValid;
    match s.r1.phase {
      case Idle =>
        phase, full, wb, writeBram, writeTag, reloading, storeWay, storeWays, lsValid, stcxFail := IdleState(s, i);
        storeRow, rowsValid := GetRow(Cur(s, i).addr), {};
      case Reload =>
        phase, full, wb, reloading, storeWay, storeWays, storeRow, rowsValid, lsValid, kept := ReloadState(s, i, kept);
      case StoreWait =>
        phase, full, wb, writeBram, storeWay, storeWays, storeRow, lsValid := StoreState(s, i);
      case DoStcx =>
        phase, full, wb, writeBram, lsValid, stcxFail, kept := StcxState(s, i, kept);
    }
    v := Reservation(kept, line);
    var dataOut := SelectData(s, i);
    r := LatchStage1(s, i, phase, full, wb, writeBram, writeTag, reloading, storeWay, storeWays, storeRow, rowsValid,
                     dataOut, lsValid, stcxFail);
  }

  /** stage_0. */
  method ClockStage0(s: Regs, i: Inputs) returns (r: Stage0)
    ensures r == NextR0(s, i)
  {
    r := s.r0;
    if Accept(s, i) {
      r := if i.req.Some? then Stage0(true, i.req.value, ZERO, false) else Stage0(false, s.r0.req, ZERO, false);
    } else if !s.r0.dValid {
      r := s.r0.(data := i.data, dValid := s.r0.full);
    }
  }

  /** Tag RAM: the two read ports and the write of a newly allocated tag. */
  method ClockTags(s: Regs, i: Inputs) returns (tags: seq<seq<Tag>>, tagSet: seq<Tag>, snoop: Snoop)
    requires Shape(s) && GoodInputs(i)
    ensures tags == NextTags(s, i) && tagSet == NextTagSet(s, i) && snoop == NextSnoop(s, i)
  {
    tags := s.tags;
    if !Accept(s, i) || i.req.None? {
      tagSet := s.tags[s.r0.req.addr.line.index];
    } else {
      tagSet := s.tags[i.req.value.addr.line.index];
    }
    snoop := s.snoop.(valid := false);
    if i.snoop.Some? {
      snoop := Snoop(true, i.snoop.value, s.tags[i.snoop.value.index]);
    }
    if s.r1.writeTag {
      tags := tags[s.r1.storeIndex := tags[s.r1.storeIndex][i.victim := s.r1.reloadTag]];
    }
  }

  class DataCache {
    var r0: Stage0
    var r1: Stage1
    var tags: seq<seq<Tag>>
    var tagSet: seq<Tag>
    var valids: seq<set<nat>>
    var rams: seq<map<RowIx, Row>>
    var dout: seq<Row>
    var snoop: Snoop
    var resv: Reservation

    function State(): Regs
      reads this
    {
      Regs(r0, r1, tags, tagSet, valids, rams, dout, snoop, resv)
    }

    /** One rising clock edge: every process reads the old registers. */
    method Clock(i: Inputs)
      requires Shape(State()) && GoodInputs(i)
      requires r1.writeTag ==> r1.phase == Reload
      requires r1.phase == Idle && r1.full ==> r1.req.lmiss != r1.req.store
      requires r1.phase == DoStcx ==> r1.full
      modifies this
      ensures State() == Next(old(State()), i)
    {
      hide NextR0, NextR1, NextTags, NextTagSet, NextValids, NextRams, NextDout, NextSnoop, NextResv;
      var s := State();
      var newR0 := ClockStage0(s, i);
      var newR1, newResv := ClockStage1(s, i);
      var newTags, newTagSet, newSnoop := ClockTags(s, i);
      var newValids := ClockValids(s, i);
      var newRams, newDout := ClockRams(s, i);
      r0, r1, tags, tagSet, valids := newR0, newR1, newTags, newTagSet, newValids;
      rams, dout, snoop, resv := newRams, newDout, newSnoop, newResv;
    }
  }
}
