/** The JTAG debug transport of dmi_dtm_ecp5.vhdl: a request/acknowledge handshake across two unrelated clocks. */
module DmiTransport {
  import opened Wrappers

  // Widths of address and data.
  const ABITS: nat
  const DBITS: nat

  /** Bit 0 first: two op bits, data, address. */
  type Word = s: seq<bool> | |s| == ABITS + DBITS + 2 witness Blank(ABITS + DBITS + 2)

  type Data = s: seq<bool> | |s| == DBITS witness Blank(DBITS)

  function Blank(n: nat): (r: seq<bool>)
    ensures |r| == n
  {
    seq(n, _ => false)
  }

  const OP_NOP: seq<bool> := [false, false]
  const OP_RD: seq<bool> := [true, false]
  const OP_WR: seq<bool> := [false, true]
  const RSP_OK: seq<bool> := [false, false]
  const RSP_BSY: seq<bool> := [true, true]

  function OpOf(w: Word): seq<bool> { w[..2] }
  function DataOf(w: Word): Data { w[2..DBITS + 2] }
  function AddrOf(w: Word): seq<bool> { w[DBITS + 2..] }

  datatype Dtm = Dtm(shiftr: Word, request: Word, jtagReq: bool, req0: bool, req1: bool, ack0: bool, ack1: bool)

  /** What the TAP drives in one JTAG clock. */
  datatype Tap = Tap(tdi: bool, shift: bool, update: bool, capture: bool)

  predicate Busy(d: Dtm) { d.jtagReq || d.ack1 }

  predicate OpValid(w: Word) { OpOf(w) == OP_RD || OpOf(w) == OP_WR }

  function RspOp(d: Dtm): seq<bool> { if Busy(d) then RSP_BSY else RSP_OK }

  predicate Accepts(d: Dtm, t: Tap) { t.update && OpValid(d.shiftr) && !Busy(d) }

  predicate Completes(d: Dtm) { d.jtagReq && d.ack1 }

  function NextShiftr(d: Dtm, t: Tap): Word {
    if t.capture then RspOp(d) + d.request[2..]
    else
      var s := if t.shift then d.shiftr[1..] + [t.tdi] else d.shiftr;
      if t.update && OpValid(d.shiftr) then RSP_BSY + s[2..] else s
  }

  function NextRequest(d: Dtm, t: Tap, din: Data): Word {
    if Accepts(d, t) then d.shiftr
    else if Completes(d) && OpOf(d.request) == OP_RD then d.request[..2] + din + d.request[DBITS + 2..]
    else d.request
  }

  /** The JTAG clock domain, `ack` and `din` as driven by the slave. */
  function JtagNext(d: Dtm, t: Tap, ack: bool, din: Data): Dtm {
    d.(shiftr := NextShiftr(d, t), request := NextRequest(d, t, din),
       jtagReq := Accepts(d, t) || (d.jtagReq && !d.ack1),
       ack0 := ack, ack1 := d.ack0)
  }

  /** The system clock domain. */
  function SysNext(d: Dtm, jtagReq: bool): Dtm { d.(req0 := jtagReq, req1 := d.req0) }

  class DmiDtm {
    var shiftr: Word
    var request: Word
    var jtagReq: bool
    var req0: bool
    var req1: bool
    var ack0: bool
    var ack1: bool

    ghost function View(): Dtm
      reads this
    {
      Dtm(shiftr, request, jtagReq, req0, req1, ack0, ack1)
    }

    method ShiftRegister(t: Tap) returns (s: Word)
      ensures s == NextShiftr(View(), t)
    {
      s := shiftr;
      if t.shift {
        s := shiftr[1..] + [t.tdi];
      }
      if t.update && OpValid(shiftr) {
        s := RSP_BSY + s[2..];
      }
      if t.capture {
        s := (if jtagReq || ack1 then RSP_BSY else RSP_OK) + request[2..];
      }
    }

    method RequestLatch(t: Tap, din: Data) returns (r: Word, req: bool)
      ensures r == NextRequest(View(), t, din) && req == (Accepts(View(), t) || (jtagReq && !ack1))
    {
      hide OpOf;
      r, req := request, jtagReq;
      if t.update && OpValid(shiftr) && !(jtagReq || ack1) {
        r, req := shiftr, true;
      }
      if jtagReq && ack1 {
        req := false;
        if OpOf(request) == OP_RD {
          r := request[..2] + din + request[DBITS + 2..];
        }
      }
    }

    /** Process shifter with the acknowledge synchronizer, one rising edge of the JTAG clock. */
    method JtagClock(t: Tap, ack: bool, din: Data)
      modifies this`shiftr, this`request, this`jtagReq, this`ack0, this`ack1
      ensures View() == JtagNext(old(View()), t, ack, din)
    {
      hide NextShiftr, NextRequest, Accepts;
      var s := ShiftRegister(t);
      var r, req := RequestLatch(t, din);
      ack1 := ack0;
      ack0 := ack;
      shiftr, request, jtagReq := s, r, req;
    }

    /** Process dmi_req_sync, one rising edge of the system clock. */
    method SysClock()
      modifies this`req0, this`req1
      ensures View() == SysNext(old(View()), old(jtagReq))
    {
      req1 := req0;
      req0 := jtagReq;
    }
  }

  // ----- link with a slave, under every interleaving -----

  datatype Slave = Slave(ack: bool, din: Data)

  /** One exchange as the slave saw it; `din` is what it drove when it raised ack. */
  datatype Trans = Trans(addr: seq<bool>, wr: bool, dout: Data, din: Data)

  /** `accepted`: commands latched so far; `cmd`: the last one; `pulses`: rises of dmi_req; `log`: slave exchanges;
      `taken`: what the slave drove at the JTAG edge that ended the last exchange. */
  datatype Link = Link(d: Dtm, s: Slave, accepted: nat, cmd: Word, pulses: nat, log: seq<Trans>, taken: Data)

  /** Either clock, or both edges at once, or a change of the slave's outputs. */
  datatype Event = Clocks(jtag: Option<Tap>, sys: bool) | SlaveMove(ack: bool, din: Data)

  predicate Writing(d: Dtm) { OpOf(d.request) == OP_WR }

  /** The slave raises ack only under req and drops it only after req. Its data may move at any time. */
  predicate LegalEvent(l: Link, v: Event) {
    v.SlaveMove? ==>
      && (v.ack && !l.s.ack ==> l.d.req1)
      && (!v.ack && l.s.ack ==> !l.d.req1)
  }

  function NextDtm(l: Link, v: Event): Dtm {
    match v
    case SlaveMove(_, _) => l.d
    case Clocks(jtag, sys) =>
      var d := if jtag.Some? then JtagNext(l.d, jtag.value, l.s.ack, l.s.din) else l.d;
      if sys then SysNext(d, l.d.jtagReq) else d
  }

  predicate CompletesNow(l: Link, v: Event) { v.Clocks? && v.jtag.Some? && Completes(l.d) }

  predicate AcceptsNow(l: Link, v: Event) { v.Clocks? && v.jtag.Some? && Accepts(l.d, v.jtag.value) }

  function Next(l: Link, v: Event): Link {
    var d := NextDtm(l, v);
    Link(d, if v.SlaveMove? then Slave(v.ack, v.din) else l.s,
         if AcceptsNow(l, v) then l.accepted + 1 else l.accepted,
         if AcceptsNow(l, v) then l.d.shiftr else l.cmd,
         if d.req1 && !l.d.req1 then l.pulses + 1 else l.pulses,
         if v.SlaveMove? && v.ack && !l.s.ack
         then l.log + [Trans(AddrOf(l.d.request), Writing(l.d), DataOf(l.d.request), v.din)] else l.log,
         if CompletesNow(l, v) then l.s.din else l.taken)
  }

  /** The six flags rise in order and fall in order. */
  ghost predicate Chain(l: Link) {
    var d := l.d;
    if d.jtagReq then
      (d.ack1 ==> d.ack0) && (d.ack0 ==> l.s.ack) && (l.s.ack ==> d.req1) && (d.req1 ==> d.req0)
    else
      (d.req0 ==> d.req1) && (d.req1 ==> l.s.ack) && (l.s.ack ==> d.ack0) && (d.ack0 ==> d.ack1)
  }

  predicate Quiet(d: Dtm, s: Slave) { !d.jtagReq && !d.req0 && !d.req1 && !s.ack && !d.ack0 && !d.ack1 }

  /** Pulses and exchanges lag accepted commands by exactly what the handshake has in flight. */
  ghost predicate Counted(l: Link, base: nat, logged: nat) {
    && l.accepted >= base
    && l.pulses == l.accepted - One(l.d.jtagReq && !l.d.req1)
    && |l.log| + base == l.accepted + logged - One(l.d.jtagReq && !l.s.ack)
  }

  /** While a command is in flight the request register still holds it; a read has its data replaced at the end. */
  ghost predicate Latched(l: Link) {
    !Quiet(l.d, l.s) ==>
      && OpValid(l.cmd) && OpOf(l.d.request) == OpOf(l.cmd) && AddrOf(l.d.request) == AddrOf(l.cmd)
      && (Writing(l.d) || l.d.jtagReq ==> DataOf(l.d.request) == DataOf(l.cmd))
  }

  /** The exchange of the last command, once acknowledged. */
  ghost predicate Logged(l: Link) {
    l.s.ack ==>
      && l.log != []
      && var t := l.log[|l.log| - 1];
         t.addr == AddrOf(l.cmd) && t.wr == (OpOf(l.cmd) == OP_WR) && t.dout == DataOf(l.cmd)
  }

  lemma RequestParts(d: Dtm, t: Tap, din: Data)
    ensures !Accepts(d, t) ==>
              OpOf(NextRequest(d, t, din)) == OpOf(d.request) && AddrOf(NextRequest(d, t, din)) == AddrOf(d.request)
    ensures !Accepts(d, t) && Completes(d) && OpOf(d.request) == OP_RD ==> DataOf(NextRequest(d, t, din)) == din
    ensures !Accepts(d, t) && !(Completes(d) && OpOf(d.request) == OP_RD) ==> NextRequest(d, t, din) == d.request
  {
  }

  lemma ChainStep(l: Link, v: Event)
    requires Chain(l) && LegalEvent(l, v)
    ensures Chain(Next(l, v))
  {
    hide OpOf, DataOf, AddrOf, NextShiftr, NextRequest;
  }

  lemma CountedStep(l: Link, v: Event, base: nat, logged: nat)
    requires Chain(l) && Counted(l, base, logged) && LegalEvent(l, v)
    ensures Counted(Next(l, v), base, logged)
  {
    hide OpOf, DataOf, AddrOf, NextShiftr, NextRequest;
  }

  lemma LatchedStep(l: Link, v: Event)
    requires Chain(l) && Latched(l) && LegalEvent(l, v)
    ensures Latched(Next(l, v))
  {
    hide OpOf, DataOf, AddrOf, NextShiftr;
    if v.Clocks? && v.jtag.Some? {
      RequestParts(l.d, v.jtag.value, l.s.din);
    }
  }

  lemma LoggedStep(l: Link, v: Event)
    requires Chain(l) && Latched(l) && Logged(l) && LegalEvent(l, v)
    ensures Logged(Next(l, v))
  {
    hide OpOf, DataOf, AddrOf, NextShiftr, NextRequest;
  }

  ghost predicate LinkInv(l: Link, base: nat, logged: nat) {
    Chain(l) && Counted(l, base, logged) && Latched(l) && Logged(l)
  }

  lemma LinkStep(l: Link, v: Event, base: nat, logged: nat)
    requires LinkInv(l, base, logged) && LegalEvent(l, v)
    ensures LinkInv(Next(l, v), base, logged)
  {
    ChainStep(l, v);
    CountedStep(l, v, base, logged);
    LatchedStep(l, v);
    LoggedStep(l, v);
  }

  ghost predicate LegalRun(l: Link, vs: seq<Event>)
    decreases |vs|
  {
    vs != [] ==> LegalEvent(l, vs[0]) && LegalRun(Next(l, vs[0]), vs[1..])
  }

  ghost function Run(l: Link, vs: seq<Event>): Link
    decreases |vs|
  {
    if vs == [] then l else Run(Next(l, vs[0]), vs[1..])
  }

  lemma {:induction false} RunInv(l: Link, vs: seq<Event>, base: nat, logged: nat)
    requires LinkInv(l, base, logged) && LegalRun(l, vs)
    ensures LinkInv(Run(l, vs), base, logged)
    decreases |vs|
  {
    if vs != [] {
      LinkStep(l, vs[0], base, logged);
      RunInv(Next(l, vs[0]), vs[1..], base, logged);
    }
  }

  ghost predicate Start(l: Link) { Quiet(l.d, l.s) && l.pulses == l.accepted }

  /** Under every interleaving of the two clocks and every legal slave: one dmi_req pulse per accepted command, at most
      the last one still to come, and every acknowledged command is one exchange. */
  lemma OnePulseEach(l: Link, vs: seq<Event>)
    requires Start(l) && LegalRun(l, vs)
    ensures var z := Run(l, vs);
            && z.pulses == z.accepted - One(z.d.jtagReq && !z.d.req1)
            && |z.log| - |l.log| == z.accepted - l.accepted - One(z.d.jtagReq && !z.s.ack)
  {
    RunInv(l, vs, l.accepted, |l.log|);
  }

  /** While dmi_req is high, address and direction do not move, nor does the data of a write. */
  lemma StableWhileRequested(l: Link, vs: seq<Event>, v: Event)
    requires Start(l) && LegalRun(l, vs) && LegalEvent(Run(l, vs), v)
    requires Run(l, vs).d.req1 && Next(Run(l, vs), v).d.req1
    ensures var z, z' := Run(l, vs), Next(Run(l, vs), v);
            && AddrOf(z'.d.request) == AddrOf(z.d.request) == AddrOf(z.cmd)
            && Writing(z'.d) == Writing(z.d) == (OpOf(z.cmd) == OP_WR)
            && (Writing(z.d) ==> DataOf(z'.d.request) == DataOf(z.d.request) == DataOf(z.cmd))
  {
    RunInv(l, vs, l.accepted, |l.log|);
    var z := Run(l, vs);
    if v.Clocks? && v.jtag.Some? {
      RequestParts(z.d, v.jtag.value, z.s.din);
    }
  }

  /** The edge that ends an exchange finds request and acknowledge high, so what it takes is what the slave drives in
      answer to this command. */
  lemma TakenUnderAck(l: Link, vs: seq<Event>, v: Event)
    requires Start(l) && LegalRun(l, vs) && CompletesNow(Run(l, vs), v)
    ensures var z := Run(l, vs);
            && z.d.req1 && z.s.ack && AddrOf(z.d.request) == AddrOf(z.cmd)
            && Next(z, v).taken == z.s.din
            && (OpOf(z.cmd) == OP_RD ==> DataOf(Next(z, v).d.request) == z.s.din)
  {
    hide NextShiftr, NextRequest, OpOf, AddrOf, DataOf;
    RunInv(l, vs, l.accepted, |l.log|);
    RequestParts(Run(l, vs).d, v.jtag.value, Run(l, vs).s.din);
  }

  /** Holding update does not start a command again: after an update tick the op bits read busy, and they stay so until
      the next shift or capture. */
  lemma HeldUpdateInert(d: Dtm, t: Tap, t': Tap, ack: bool, din: Data)
    requires t.update && !t.shift && !t.capture && t'.update && !t'.shift && !t'.capture
    ensures var d1 := JtagNext(d, t, ack, din);
            OpValid(d.shiftr) ==> OpOf(d1.shiftr) == RSP_BSY && !Accepts(d1, t') && NextShiftr(d1, t') == d1.shiftr
  {
  }
}
