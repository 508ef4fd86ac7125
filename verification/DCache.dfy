/** The data cache of dcache.vhdl: registers, inputs, and next-state logic of one clock cycle, for real-mode,
    permitted, cacheable loads, stores, load-and-reserves and store-conditionals. */
module DCache {
  import opened Wrappers
  import opened Rows

  type Positive = n: nat | n >= 1 witness 1

  // Geometry generics; nothing below depends on their values.
  const NUM_WAYS: Positive
  const NUM_LINES: Positive
  const ROWS_PER_LINE: Positive

  /** A tag is split at the page boundary: `page` is the real page number, `sub` the tag bits below it. */
  datatype Tag = Tag(page: nat, sub: nat)
  datatype Line = Line(tag: Tag, index: nat)
  datatype Addr = Addr(line: Line, row: nat)

  /** Position of a row in the data RAM of a way. */
  datatype RowIx = RowIx(index: nat, row: nat)

  predicate GoodLine(l: Line) { l.index < NUM_LINES }
  predicate GoodAddr(a: Addr) { GoodLine(a.line) && a.row < ROWS_PER_LINE }

  function GetRow(a: Addr): RowIx { RowIx(a.line.index, a.row) }

  function NextRow(r: nat): nat { if r + 1 >= ROWS_PER_LINE then 0 else r + 1 }

  function PrevRow(r: nat): nat { if r == 0 then ROWS_PER_LINE - 1 else r - 1 }

  // ----- registers -----

  datatype Request = Request(load: bool, reserve: bool, addr: Addr, sel: Lanes)

  datatype Stage0 = Stage0(full: bool, req: Request, data: Row, dValid: bool)

  datatype MemReq = MemReq(valid: bool, lmiss: bool, store: bool, reserve: bool, addr: Addr, data: Row, sel: Lanes,
                           isHit: bool, hitWay: nat, hitWays: set<nat>, hitReload: bool, samePage: bool)

  datatype Phase = Idle | Reload | StoreWait | DoStcx

  datatype Wishbone = Wishbone(cyc: bool, stb: bool, we: bool, adr: Addr, dat: Row, sel: Lanes)

  datatype Forward = Forward(valid: bool, data: Row, row: RowIx, sel: Lanes, way: nat)

  datatype Stage1 = Stage1(
    phase: Phase, full: bool, req: MemReq, wb: Wishbone,
    writeBram: bool, writeTag: bool, reloading: bool, reloadTag: Tag,
    storeWay: nat, storeWays: set<nat>, storeRow: RowIx, storeIndex: nat, endRow: nat, rowsValid: set<nat>,
    acksPending: nat, stalled: bool, decAcks: bool,
    forward: Forward, dataOut: Row, lsValid: bool, stcxFail: bool)

  datatype Snoop = Snoop(valid: bool, line: Line, tags: seq<Tag>)

  datatype Reservation = Reservation(valid: bool, line: Line)

  datatype Regs = Regs(
    r0: Stage0, r1: Stage1,
    tags: seq<seq<Tag>>, tagSet: seq<Tag>, valids: seq<set<nat>>,
    rams: seq<map<RowIx, Row>>, dout: seq<Row>,
    snoop: Snoop, resv: Reservation)

  /** What the cache sees in one cycle. `busData` is wishbone_in.dat, `victim` the replacement choice,
      `snoop` an active snooped store. */
  datatype Inputs = Inputs(req: Option<Request>, data: Row, hold: bool,
                           stall: bool, ack: bool, busData: Row, victim: nat, snoop: Option<Line>)

  ghost predicate GoodInputs(i: Inputs) {
    && (i.req.Some? ==> GoodAddr(i.req.value.addr))
    && i.victim < NUM_WAYS
    && (i.snoop.Some? ==> GoodLine(i.snoop.value))
  }

  ghost predicate Shape1(r: Stage1) {
    && GoodAddr(r.req.addr)
    && GoodAddr(r.wb.adr)
    && r.storeWay < NUM_WAYS
    && r.req.hitWay < NUM_WAYS
    && r.storeIndex < NUM_LINES
    && r.storeRow.index < NUM_LINES && r.storeRow.row < ROWS_PER_LINE
    && r.endRow < ROWS_PER_LINE
  }

  ghost predicate TagShape(tags: seq<seq<Tag>>) {
    && |tags| == NUM_LINES
    && forall k | 0 <= k < NUM_LINES :: |tags[k]| == NUM_WAYS
  }

  ghost predicate ValidShape(valids: seq<set<nat>>) {
    && |valids| == NUM_LINES
    && forall k | 0 <= k < NUM_LINES :: forall w | w in valids[k] :: w < NUM_WAYS
  }

  /** Array shapes and address ranges. */
  ghost predicate Shape(s: Regs) {
    && TagShape(s.tags)
    && |s.tagSet| == NUM_WAYS
    && ValidShape(s.valids)
    && |s.rams| == NUM_WAYS
    && |s.dout| == NUM_WAYS
    && |s.snoop.tags| == NUM_WAYS
    && GoodLine(s.snoop.line)
    && GoodAddr(s.r0.req.addr)
    && Shape1(s.r1)
  }

  // ----- combinational request logic (dcache_request) -----

  predicate Go(s: Regs, i: Inputs) { s.r0.full && !s.r1.full && !i.hold }

  /** Stage 0 takes a new request from loadstore1. */
  predicate Accept(s: Regs, i: Inputs) { !s.r1.full && !i.hold }

  function Hits(s: Regs, i: Inputs): set<nat>
    requires Shape(s)
  {
    var a := s.r0.req.addr;
    set w: nat | w < NUM_WAYS && Go(s, i) && w in s.valids[a.line.index] && s.tagSet[w] == a.line.tag
  }

  function IdxReload(s: Regs, i: Inputs): set<nat> {
    var q := s.r0.req;
    if Go(s, i) && s.r1.reloading && q.addr.line.index == s.r1.storeIndex && q.load && q.addr.row !in s.r1.rowsValid
    then s.r1.storeWays else {}
  }

  function HitWay(s: Regs, i: Inputs): (w: nat)
    requires Shape(s)
    ensures w < NUM_WAYS
  {
    LastHit(Hits(s, i), NUM_WAYS)
  }

  predicate IsHit(s: Regs, i: Inputs)
    requires Shape(s)
  {
    Hits(s, i) != {} && HitWay(s, i) !in IdxReload(s, i)
  }

  predicate HitReload(s: Regs, i: Inputs)
    requires Shape(s)
  {
    Hits(s, i) != {} && HitWay(s, i) in IdxReload(s, i)
  }

  predicate ReqSnoopHit(s: Regs, i: Inputs)
    requires Shape(s)
  {
    && s.snoop.line.index == s.r0.req.addr.line.index
    && exists w: nat :: w < NUM_WAYS && w in Hits(s, i) && s.snoop.valid && s.snoop.tags[w] == s.snoop.line.tag
  }

  predicate OpLoadHit(s: Regs, i: Inputs) requires Shape(s) { Go(s, i) && s.r0.req.load && IsHit(s, i) }
  predicate OpLoadMiss(s: Regs, i: Inputs) requires Shape(s) { Go(s, i) && s.r0.req.load && !IsHit(s, i) }
  predicate OpStore(s: Regs, i: Inputs) { Go(s, i) && !s.r0.req.load }

  /** Store data: sampled late, so it may still be on the input port. */
  function StoreData(s: Regs, i: Inputs): Row { if s.r0.dValid then s.r0.data else i.data }

  function FromR0(s: Regs, i: Inputs): MemReq
    requires Shape(s)
  {
    var q := s.r0.req;
    MemReq(Go(s, i), OpLoadMiss(s, i), OpStore(s, i), q.reserve, q.addr, StoreData(s, i),
           if q.load then ALL else q.sel,
           IsHit(s, i), HitWay(s, i), Hits(s, i), HitReload(s, i) && OpLoadMiss(s, i),
           q.addr.line.tag.page == s.r1.wb.adr.line.tag.page)
  }

  /** The request the state machine works on. */
  function Cur(s: Regs, i: Inputs): MemReq
    requires Shape(s)
  {
    if s.r1.full then s.r1.req else FromR0(s, i)
  }

  predicate Kill(s: Regs) { s.snoop.valid && s.resv.valid && s.snoop.line == s.resv.line }

  function ReplaceWay(s: Regs, i: Inputs): nat { if s.r1.writeTag then i.victim else s.r1.storeWay }

  /** Pending-ack count, brought up to date with the previous cycle (3-bit arithmetic). */
  function Acks(r: Stage1): nat {
    if !r.wb.cyc then 0
    else if r.wb.stb && !r.stalled && !r.decAcks then (r.acksPending + 1) % 8
    else if (!r.wb.stb || r.stalled) && r.decAcks then (r.acksPending + 7) % 8
    else r.acksPending
  }

  // ----- state machine conditions (dcache_slow) -----

  /** A further plain store to the same page is waiting and the bus took the last strobe. */
  predicate Another(s: Regs, i: Inputs)
    requires Shape(s)
  {
    !i.stall && Cur(s, i).store && Cur(s, i).samePage && !Cur(s, i).reserve
  }

  predicate Merging(s: Regs, i: Inputs)
    requires Shape(s)
  {
    s.r1.phase == StoreWait && Another(s, i) && Acks(s.r1) < 7
  }

  predicate StrobesDone(s: Regs, i: Inputs)
    requires Shape(s)
  {
    if i.stall then !s.r1.wb.stb
    else if Another(s, i) then Acks(s.r1) >= 7 && !s.r1.wb.stb
    else true
  }

  predicate StoreDone(s: Regs, i: Inputs)
    requires Shape(s)
  {
    StrobesDone(s, i) && (Acks(s.r1) == 0 || (i.ack && Acks(s.r1) == 1))
  }

  predicate LastAck(s: Regs, i: Inputs) {
    s.r1.phase == Reload && i.ack && s.r1.storeRow.row == s.r1.endRow
  }

  /** The arriving row is the one the current request is waiting for. */
  predicate RowArrives(s: Regs, i: Inputs)
    requires Shape(s)
  {
    s.r1.phase == Reload && i.ack && Cur(s, i).hitReload && s.r1.storeRow.row == Cur(s, i).addr.row
  }

  predicate StcxRefused(s: Regs, i: Inputs)
    requires Shape(s)
  {
    s.r1.phase == Idle && Cur(s, i).store && Cur(s, i).reserve && (!s.resv.valid || Kill(s))
  }

  predicate StcxLost(s: Regs) {
    s.r1.phase == DoStcx && (!s.resv.valid || Kill(s) || s.r1.req.addr.line != s.resv.line)
  }

  predicate StcxWins(s: Regs, i: Inputs) {
    s.r1.phase == DoStcx && !StcxLost(s) && !i.stall
  }

  predicate PlainStart(s: Regs, i: Inputs)
    requires Shape(s)
  {
    s.r1.phase == Idle && Cur(s, i).store && !Cur(s, i).reserve
  }

  predicate MissStart(s: Regs, i: Inputs)
    requires Shape(s)
  {
    s.r1.phase == Idle && Cur(s, i).lmiss
  }

  /** A load hands its data to loadstore1 at the end of this cycle. */
  predicate LoadCompletes(s: Regs, i: Inputs)
    requires Shape(s)
  {
    OpLoadHit(s, i) || RowArrives(s, i)
  }

  // ----- data path (rams, dcache_fast_hit) -----

  function RamRead(m: map<RowIx, Row>, x: RowIx): Row { if x in m then m[x] else ZERO }

  function RamWrite(m: map<RowIx, Row>, x: RowIx, sel: Lanes, d: Row): map<RowIx, Row> {
    m[x := Merge(sel, d, RamRead(m, x))]
  }

  predicate RamWrites(s: Regs, i: Inputs) { s.r1.writeBram || (s.r1.reloading && i.ack) }

  function WriteData(s: Regs, i: Inputs): Row { if s.r1.writeBram then s.r1.req.data else i.busData }

  function WriteSel(s: Regs): Lanes { if s.r1.writeBram then s.r1.req.sel else ALL }

  /** One way's output with this cycle's and the previous cycle's write forwarded. */
  function CacheOut(s: Regs, i: Inputs, w: nat): Row
    requires Shape(s) && w < NUM_WAYS
  {
    var x := GetRow(s.r0.req.addr);
    var older :=
      if Go(s, i) && s.r1.forward.valid && x == s.r1.forward.row && w == s.r1.forward.way
      then Merge(s.r1.forward.sel, s.r1.forward.data, s.dout[w]) else s.dout[w];
    if Go(s, i) && x == s.r1.storeRow && s.r1.writeBram && w in s.r1.storeWays
    then Merge(s.r1.req.sel, s.r1.req.data, older) else older
  }

  function NextDataOut(s: Regs, i: Inputs): Row
    requires Shape(s)
  {
    if !IsHit(s, i) then i.busData
    else OrMux(Hits(s, i), seq(NUM_WAYS, w requires 0 <= w < NUM_WAYS => CacheOut(s, i, w)), NUM_WAYS)
  }

  function NextForward(s: Regs, i: Inputs): Forward {
    Forward(RamWrites(s, i), WriteData(s, i), s.r1.storeRow, WriteSel(s), ReplaceWay(s, i))
  }

  // ----- next state, register by register -----

  function NextR0(s: Regs, i: Inputs): Stage0 {
    if Accept(s, i) then
      match i.req
      case Some(q) => Stage0(true, q, ZERO, false)
      case None => Stage0(false, s.r0.req, ZERO, false)
    else if !s.r0.dValid then s.r0.(data := i.data, dValid := s.r0.full)
    else s.r0
  }

  function NextPhase(s: Regs, i: Inputs): Phase
    requires Shape(s)
  {
    match s.r1.phase
    case Idle =>
      if Cur(s, i).lmiss then Reload
      else if Cur(s, i).store then
        (if !Cur(s, i).reserve then StoreWait else if StcxRefused(s, i) then Idle else DoStcx)
      else Idle
    case Reload => if LastAck(s, i) then Idle else Reload
    case StoreWait => if StoreDone(s, i) then Idle else StoreWait
    case DoStcx => if StcxLost(s) then Idle else if !i.stall then StoreWait else DoStcx
  }

  function NextFull(s: Regs, i: Inputs): bool
    requires Shape(s)
  {
    && (if Go(s, i) then OpLoadMiss(s, i) || OpStore(s, i) else s.r1.full)
    && !PlainStart(s, i) && !StcxRefused(s, i) && !RowArrives(s, i) && !Merging(s, i)
    && !StcxLost(s) && !StcxWins(s, i)
  }

  function NextReq(s: Regs, i: Inputs): MemReq
    requires Shape(s)
  {
    var q := if Go(s, i) then FromR0(s, i) else s.r1.req;
    if s.r1.phase == Idle then q.(hitReload := true) else q
  }

  function NextWb(s: Regs, i: Inputs): Wishbone
    requires Shape(s)
  {
    var b := s.r1.wb;
    var q := Cur(s, i);
    match s.r1.phase
    case Idle =>
      var start := q.lmiss || (q.store && !StcxRefused(s, i));
      Wishbone(b.cyc || start, b.stb || q.lmiss || PlainStart(s, i),
               if q.lmiss then false else b.we || start, q.addr, q.data, q.sel)
    case Reload =>
      var taken := !i.stall && b.stb;
      b.(cyc := b.cyc && !LastAck(s, i),
         stb := b.stb && !(taken && b.adr.row == s.r1.endRow),
         adr := if taken then b.adr.(row := NextRow(b.adr.row)) else b.adr)
    case StoreWait =>
      var load := !i.stall && q.valid;
      b.(cyc := b.cyc && !StoreDone(s, i),
         stb := !StoreDone(s, i) && (if i.stall then b.stb else Merging(s, i)),
         adr := if load then Addr(Line(Tag(b.adr.line.tag.page, q.addr.line.tag.sub), q.addr.line.index), q.addr.row)
                else b.adr,
         dat := if load then q.data else b.dat,
         sel := if load then q.sel else b.sel)
    case DoStcx => b.(cyc := b.cyc && !StcxLost(s), stb := b.stb || StcxWins(s, i))
  }

  function NextWriteBram(s: Regs, i: Inputs): bool
    requires Shape(s)
  {
    || ((PlainStart(s, i) || Merging(s, i)) && Cur(s, i).isHit)
    || (StcxWins(s, i) && s.r1.req.isHit)
  }

  function NextWriteTag(s: Regs, i: Inputs): bool
    requires Shape(s)
  {
    MissStart(s, i)
  }

  function NextReloading(s: Regs, i: Inputs): bool
    requires Shape(s)
  {
    (s.r1.reloading && !LastAck(s, i)) || MissStart(s, i)
  }

  function NextStoreWay(s: Regs, i: Inputs): nat
    requires Shape(s)
  {
    if (s.r1.phase == Idle && Cur(s, i).isHit) || Merging(s, i) then Cur(s, i).hitWay else ReplaceWay(s, i)
  }

  function NextStoreWays(s: Regs, i: Inputs): set<nat>
    requires Shape(s)
  {
    if (s.r1.phase == Idle && Cur(s, i).isHit) || Merging(s, i) then Cur(s, i).hitWays
    else if s.r1.writeTag then {i.victim} else s.r1.storeWays
  }

  function NextStoreRow(s: Regs, i: Inputs): RowIx
    requires Shape(s)
  {
    if s.r1.phase == Idle || Merging(s, i) then GetRow(Cur(s, i).addr)
    else if s.r1.phase == Reload && i.ack then s.r1.storeRow.(row := NextRow(s.r1.storeRow.row))
    else s.r1.storeRow
  }

  function NextRowsValid(s: Regs, i: Inputs): set<nat> {
    if s.r1.phase == Idle then {}
    else if s.r1.phase == Reload && i.ack then s.r1.rowsValid + {s.r1.storeRow.row}
    else s.r1.rowsValid
  }

  function NextLsValid(s: Regs, i: Inputs): bool
    requires Shape(s)
  {
    || LoadCompletes(s, i) || PlainStart(s, i) || StcxRefused(s, i)
    || Merging(s, i) || StcxLost(s) || StcxWins(s, i)
  }

  function NextStcxFail(s: Regs, i: Inputs): bool
    requires Shape(s)
  {
    StcxRefused(s, i) || StcxLost(s)
  }

  /** The stage 1 register, given what the state machine assigns. */
  function Latch(s: Regs, i: Inputs, phase: Phase, full: bool, wb: Wishbone,
                 writeBram: bool, writeTag: bool, reloading: bool, storeWay: nat, storeWays: set<nat>,
                 storeRow: RowIx, rowsValid: set<nat>, dataOut: Row, lsValid: bool, stcxFail: bool): Stage1
    requires Shape(s)
  {
    var idle := s.r1.phase == Idle;
    var a := Cur(s, i).addr;
    Stage1(
      phase, full, NextReq(s, i), wb, writeBram, writeTag, reloading,
      if idle then a.line.tag else s.r1.reloadTag,
      storeWay, storeWays, storeRow,
      if idle then a.line.index else s.r1.storeIndex,
      if idle then PrevRow(a.row) else s.r1.endRow,
      rowsValid,
      Acks(s.r1), i.stall && s.r1.wb.cyc, i.ack && s.r1.wb.cyc,
      NextForward(s, i), dataOut, lsValid, stcxFail)
  }

  function NextR1(s: Regs, i: Inputs): (r: Stage1)
    requires Shape(s) && GoodInputs(i)
    ensures Shape1(r)
  {
    Latch(s, i, NextPhase(s, i), NextFull(s, i), NextWb(s, i),
          NextWriteBram(s, i), NextWriteTag(s, i), NextReloading(s, i), NextStoreWay(s, i), NextStoreWays(s, i),
          NextStoreRow(s, i), NextRowsValid(s, i), NextDataOut(s, i), NextLsValid(s, i), NextStcxFail(s, i))
  }

  function NextTags(s: Regs, i: Inputs): (tags: seq<seq<Tag>>)
    requires Shape(s) && GoodInputs(i)
    ensures TagShape(tags)
  {
    if s.r1.writeTag
    then s.tags[s.r1.storeIndex := s.tags[s.r1.storeIndex][i.victim := s.r1.reloadTag]]
    else s.tags
  }

  /** Valid ways of line index `k`: snooped ways are dropped, then the way being allocated is added. */
  function NextValid(s: Regs, i: Inputs, k: nat): (ways: set<nat>)
    requires Shape(s) && GoodInputs(i) && k < NUM_LINES
    ensures forall w | w in ways :: w < NUM_WAYS
  {
    var kept := set w | w in s.valids[k] && !(s.snoop.valid && s.snoop.line.index == k &&
                                             w < NUM_WAYS && s.snoop.tags[w] == s.snoop.line.tag);
    if s.r1.writeTag && k == s.r1.storeIndex then kept + {i.victim} else kept
  }

  function NextValids(s: Regs, i: Inputs): (valids: seq<set<nat>>)
    requires Shape(s) && GoodInputs(i)
    ensures ValidShape(valids)
  {
    seq(NUM_LINES, k requires 0 <= k < NUM_LINES => NextValid(s, i, k))
  }

  function NextRams(s: Regs, i: Inputs): seq<map<RowIx, Row>>
    requires Shape(s) && GoodInputs(i)
  {
    var w := ReplaceWay(s, i);
    if RamWrites(s, i)
    then s.rams[w := RamWrite(s.rams[w], s.r1.storeRow, WriteSel(s), WriteData(s, i))]
    else s.rams
  }

  function NextDout(s: Regs, i: Inputs): seq<Row>
    requires Shape(s)
  {
    if Accept(s, i) || (s.r0.full && s.r0.req.load)
    then seq(NUM_WAYS, w requires 0 <= w < NUM_WAYS => RamRead(s.rams[w], GetRow(NextR0(s, i).req.addr)))
    else s.dout
  }

  function NextSnoop(s: Regs, i: Inputs): Snoop
    requires Shape(s) && GoodInputs(i)
  {
    match i.snoop
    case Some(l) => Snoop(true, l, s.tags[l.index])
    case None => s.snoop.(valid := false)
  }

  function NextResv(s: Regs, i: Inputs): Reservation
    requires Shape(s)
  {
    var larx := Go(s, i) && s.r0.req.load && s.r0.req.reserve;
    var kept := if larx then IsHit(s, i) && !ReqSnoopHit(s, i) else s.resv.valid && !Kill(s);
    Reservation(
      if StcxLost(s) || StcxWins(s, i) then false
      else if RowArrives(s, i) && s.r1.req.reserve then true
      else kept,
      if larx then s.r0.req.addr.line else s.resv.line)
  }

  function NextTagSet(s: Regs, i: Inputs): seq<Tag>
    requires Shape(s) && GoodInputs(i)
  {
    s.tags[NextR0(s, i).req.addr.line.index]
  }

  /** All registers after the clock edge that ends this cycle. */
  function Next(s: Regs, i: Inputs): (s': Regs)
    requires Shape(s) && GoodInputs(i)
    ensures Shape(s')
  {
    Regs(NextR0(s, i), NextR1(s, i),
         NextTags(s, i), NextTagSet(s, i), NextValids(s, i),
         NextRams(s, i), NextDout(s, i), NextSnoop(s, i), NextResv(s, i))
  }
}
