/** The other side of the data cache's ports: a pipelined in-order memory slave, other bus masters,
    and the load/store unit. */
module DCacheBus {
  import opened Wrappers
  import opened Rows
  import opened DCache

  datatype BusOp = Read(addr: Addr) | Write(addr: Addr, sel: Lanes, data: Row)

  /** `queue`: strobes accepted and not yet acknowledged, oldest first.
      `granted`: the cache already owned the bus before this cycle and has not dropped cyc since.
      `owed`: store data the load/store unit presents one cycle after handing over its request.
      `recent`: the line another master wrote in the previous cycle; `prior`: memory without that write. */
  datatype Env = Env(mem: map<Addr, Row>, queue: seq<BusOp>, granted: bool, owed: Row, recent: Option<Line>,
                     prior: map<Addr, Row>)

  /** One cycle: cache inputs, the data of a request handed over now, and a write by another master. */
  datatype Cycle = Cycle(inp: Inputs, data: Row, foreign: Option<BusOp>)

  function MemRead(m: map<Addr, Row>, a: Addr): Row { if a in m then m[a] else ZERO }

  /** Effect of one bus operation on the row stored at address `a`. */
  function Effect(op: BusOp, a: Addr, r: Row): Row {
    match op
    case Read(_) => r
    case Write(x, sel, d) => if x == a then Merge(sel, d, r) else r
  }

  function MemApply(m: map<Addr, Row>, op: BusOp): map<Addr, Row> {
    match op
    case Read(_) => m
    case Write(x, _, _) => m[x := Effect(op, x, MemRead(m, x))]
  }

  /** Row at `a` once all of `ops` have been carried out in order. */
  function Apply(ops: seq<BusOp>, a: Addr, r: Row): Row {
    if ops == [] then r else Effect(ops[|ops| - 1], a, Apply(ops[..|ops| - 1], a, r))
  }

  function WbOp(s: Regs): BusOp {
    var b := s.r1.wb;
    if b.we then Write(b.adr, b.sel, b.dat) else Read(b.adr)
  }

  function ReqOp(q: MemReq): BusOp { Write(q.addr, q.sel, q.data) }

  predicate Taken(s: Regs, i: Inputs) { s.r1.wb.cyc && s.r1.wb.stb && !i.stall }

  predicate Owns(s: Regs, e: Env, i: Inputs) { s.r1.wb.cyc && (e.granted || !i.stall) }

  /** What the surroundings promise: an ack answers a strobe accepted in an earlier cycle, read data comes from
      memory, store data follows its request by one cycle, and other masters write only while the cache does not
      own the bus, and every such write is snooped. Snoops that match no such write are allowed. */
  ghost predicate Contract(s: Regs, e: Env, c: Cycle) {
    && GoodInputs(c.inp)
    && (c.inp.ack ==> e.queue != [])
    && (c.inp.ack && e.queue[0].Read? ==> c.inp.busData == MemRead(e.mem, e.queue[0].addr))
    && (s.r0.full && !s.r0.dValid ==> c.inp.data == e.owed)
    && (c.foreign.Some? ==>
          && c.foreign.value.Write?
          && !Owns(s, e, c.inp)
          && c.inp.snoop == Some(c.foreign.value.addr.line))
  }

  function NextQueue(s: Regs, e: Env, i: Inputs): seq<BusOp>
    requires i.ack ==> e.queue != []
  {
    (if i.ack then e.queue[1..] else e.queue) + (if Taken(s, i) then [WbOp(s)] else [])
  }

  function NextMem(e: Env, c: Cycle): map<Addr, Row>
    requires c.inp.ack ==> e.queue != []
  {
    var m := if c.foreign.Some? then MemApply(e.mem, c.foreign.value) else e.mem;
    if c.inp.ack then MemApply(m, e.queue[0]) else m
  }

  function NextEnv(s: Regs, e: Env, c: Cycle): Env
    requires Shape(s) && (c.inp.ack ==> e.queue != [])
  {
    Env(NextMem(e, c), NextQueue(s, e, c.inp),
        Owns(s, e, c.inp) && NextWb(s, c.inp).cyc,
        if Accept(s, c.inp) then c.data else e.owed,
        if c.foreign.Some? then Some(c.foreign.value.addr.line) else None,
        NextMem(e, c.(foreign := None)))
  }

  // ----- the processor's view of memory -----

  function AfterQueue(e: Env, a: Addr): Row { Apply(e.queue, a, MemRead(e.mem, a)) }

  function AfterStrobe(s: Regs, e: Env, a: Addr): Row {
    if s.r1.wb.stb && s.r1.wb.we then Effect(WbOp(s), a, AfterQueue(e, a)) else AfterQueue(e, a)
  }

  /** Memory with every store of this processor that is still on its way applied in order: unacknowledged strobes,
      the strobe being presented, and a store waiting in stage 1. */
  function View(s: Regs, e: Env, a: Addr): Row {
    if s.r1.full && s.r1.req.store && !s.r1.req.reserve
    then Effect(ReqOp(s.r1.req), a, AfterStrobe(s, e, a)) else AfterStrobe(s, e, a)
  }

  /** The surroundings without the previous cycle's write by another master. */
  function BeforeForeign(e: Env): Env { e.(mem := e.prior) }

  /** The view as the cache can show it: a write by another master in the previous cycle is still in the snoop
      register. */
  function SeenView(s: Regs, e: Env, a: Addr): Row {
    View(s, if e.recent == Some(a.line) then BeforeForeign(e) else e, a)
  }

  /** The store, if any, that this processor performs in this cycle: a plain store when it leaves stage 0,
      a store-conditional when it wins the bus with its reservation intact. */
  function OwnStore(s: Regs, e: Env, i: Inputs): Option<BusOp> {
    if OpStore(s, i) && !s.r0.req.reserve then Some(Write(s.r0.req.addr, s.r0.req.sel, e.owed))
    else if StcxWins(s, i) then Some(ReqOp(s.r1.req))
    else None
  }

  lemma {:induction false} ApplyPop(ops: seq<BusOp>, a: Addr, r: Row)
    requires ops != []
    ensures Apply(ops, a, r) == Apply(ops[1..], a, Effect(ops[0], a, r))
  {
    if |ops| > 1 {
      ApplyPop(ops[..|ops| - 1], a, r);
      assert ops[..|ops| - 1][1..] == ops[1..][..|ops| - 2];
    }
  }

  lemma ApplyPush(ops: seq<BusOp>, op: BusOp, a: Addr, r: Row)
    ensures Apply(ops + [op], a, r) == Effect(op, a, Apply(ops, a, r))
  {
    assert (ops + [op])[..|ops|] == ops;
  }

  /** Reads in the queue change nothing. */
  lemma {:induction false} ApplyReads(ops: seq<BusOp>, a: Addr, r: Row)
    requires forall op | op in ops :: op.Read?
    ensures Apply(ops, a, r) == r
  {
    if ops != [] {
      ApplyReads(ops[..|ops| - 1], a, r);
    }
  }

  lemma MemApplyRead(m: map<Addr, Row>, op: BusOp, a: Addr)
    ensures MemRead(MemApply(m, op), a) == Effect(op, a, MemRead(m, a))
  {
  }

  /** A store changes the selected bytes of its row and nothing else. */
  lemma StoreMeans(m: map<Addr, Row>, a: Addr, sel: Lanes, d: Row, x: Addr, b: nat)
    requires b < 8
    ensures MemRead(MemApply(m, Write(a, sel, d)), x)[b] == if x == a && sel[b] then d[b] else MemRead(m, x)[b]
  {
    MergeLane(sel, d, MemRead(m, x), b);
  }

  /** The bus moves operations from the strobe through the queue into memory without changing their joint effect. */
  lemma AfterQueueStep(s: Regs, e: Env, c: Cycle, a: Addr)
    requires Shape(s) && (c.inp.ack ==> e.queue != []) && c.foreign.None?
    ensures AfterQueue(NextEnv(s, e, c), a)
         == if Taken(s, c.inp) then Effect(WbOp(s), a, AfterQueue(e, a)) else AfterQueue(e, a)
  {
    var e' := NextEnv(s, e, c);
    var rest := if c.inp.ack then e.queue[1..] else e.queue;
    if c.inp.ack {
      ApplyPop(e.queue, a, MemRead(e.mem, a));
      MemApplyRead(e.mem, e.queue[0], a);
    }
    if Taken(s, c.inp) {
      ApplyPush(rest, WbOp(s), a, MemRead(e'.mem, a));
    } else {
      assert e'.queue == rest;
    }
  }
}
