/** The host's dmi_read and dmi_write loops of mw_debug.c over the transport. */
module DmiHost {
  import opened Wrappers
  import opened DmiTransport

  /** Progress of one jtag_command: capture, shift every bit, update, return. */
  datatype Stage = ToCapture | Shifting | ToUpdate | Updated

  /** `word`: what the command shifts in; `received`: what it has shifted out; `captured`: what was captured for it;
      `first`: the request itself, as opposed to a poll. */
  datatype Session = Session(l: Link, stage: Stage, word: Word, received: seq<bool>, captured: Word, first: bool)

  /** A line event, or the host starting its next poll with some data in the data field. */
  datatype HostEvent = Line(v: Event) | NextPoll(data: Data)

  function MakeWord(op: seq<bool>, addr: seq<bool>, data: Data): Word
    requires |op| == 2 && |addr| == ABITS
  {
    op + data + addr
  }

  function WordLength(): nat { ABITS + DBITS + 2 }

  /** The loop goes on after the request, and after a poll whose status is not OK. */
  predicate LoopContinues(h: Session) {
    h.stage == Updated && (h.first || (|h.received| >= 2 && h.received[..2] != RSP_OK))
  }

  predicate TapAllowed(h: Session, t: Tap)
    requires h.stage == Shifting ==> |h.received| < WordLength()
  {
    match h.stage
    case ToCapture => !t.shift && !t.update
    case Shifting => !t.update && !t.capture && (t.shift ==> t.tdi == h.word[|h.received|])
    case ToUpdate => !t.shift && !t.capture
    case Updated => !t.shift && !t.capture
  }

  predicate Legal(h: Session, x: HostEvent) {
    && (h.stage == Shifting ==> |h.received| < WordLength())
    && match x
       case Line(v) => LegalEvent(h.l, v) && (v.Clocks? && v.jtag.Some? ==> TapAllowed(h, v.jtag.value))
       case NextPoll(_) => LoopContinues(h)
  }

  function HostTick(h: Session, t: Tap): Session {
    match h.stage
    case ToCapture => if t.capture then h.(stage := Shifting, received := [], captured := NextShiftr(h.l.d, t)) else h
    case Shifting =>
      if t.shift then
        var got := h.received + [h.l.d.shiftr[0]];
        h.(received := got, stage := if |got| == WordLength() then ToUpdate else Shifting)
      else h
    case ToUpdate => if t.update then h.(stage := Updated) else h
    case Updated => h
  }

  function Next(h: Session, x: HostEvent): Session {
    match x
    case NextPoll(data) => h.(stage := ToCapture, word := MakeWord(OP_NOP, Blank(ABITS), data), first := false)
    case Line(v) =>
      var g := if v.Clocks? && v.jtag.Some? then HostTick(h, v.jtag.value) else h;
      g.(l := DmiTransport.Next(h.l, v))
  }

  /** The request: address, direction, data, and where the counters stood before it. */
  datatype Goal = Goal(word: Word, base: nat, logged: nat)

  predicate IsRead(g: Goal) { OpOf(g.word) == OP_RD }

  ghost predicate Sent(h: Session) { !h.first || h.stage == Updated }

  /** The exchange asked for, and no other since. */
  ghost predicate Exchanged(l: Link, g: Goal) {
    && |l.log| == g.logged + 1
    && var t := l.log[g.logged];
       && t.addr == AddrOf(g.word) && t.wr == !IsRead(g) && t.dout == DataOf(g.word)
       && (IsRead(g) ==> DataOf(l.d.request) == l.taken)
  }

  ghost predicate CountInv(h: Session, g: Goal) {
    && LinkInv(h.l, g.base, g.logged) && OpValid(g.word)
    && (!Sent(h) ==> h.word == g.word && h.l.accepted == g.base && Quiet(h.l.d, h.l.s))
    && (Sent(h) ==> h.l.accepted == g.base + 1 && h.l.cmd == g.word)
    && (!h.first ==> OpOf(h.word) == OP_NOP)
  }

  ghost predicate ShiftInv(h: Session) {
    match h.stage
    case ToCapture => true
    case Shifting =>
      var k := |h.received|;
      && k < WordLength() && h.received == h.captured[..k] && h.l.d.shiftr == h.captured[k..] + h.word[..k]
    case ToUpdate => h.received == h.captured && h.l.d.shiftr == h.word
    case Updated => h.received == h.captured && !OpValid(h.l.d.shiftr)
  }

  ghost predicate DoneInv(h: Session, g: Goal) {
    Sent(h) && !h.l.d.jtagReq ==> Exchanged(h.l, g)
  }

  /** A poll's status is OK or busy; OK means the exchange is over and the poll carries its data. */
  ghost predicate PollInv(h: Session, g: Goal) {
    !h.first && h.stage != ToCapture ==>
      && (OpOf(h.captured) == RSP_OK || OpOf(h.captured) == RSP_BSY)
      && (OpOf(h.captured) == RSP_OK ==>
            Quiet(h.l.d, h.l.s) && Exchanged(h.l, g) && DataOf(h.captured) == DataOf(h.l.d.request))
  }

  ghost predicate Inv(h: Session, g: Goal) {
    CountInv(h, g) && ShiftInv(h) && DoneInv(h, g) && PollInv(h, g)
  }

  lemma CapturedParts(d: Dtm, t: Tap)
    requires t.capture
    ensures OpOf(NextShiftr(d, t)) == RspOp(d) && DataOf(NextShiftr(d, t)) == DataOf(d.request)
  {
  }

  /** What a session's events do to acceptance: only the request's first update is a command. */
  lemma AcceptsOnce(h: Session, g: Goal, x: HostEvent)
    requires CountInv(h, g) && ShiftInv(h) && Legal(h, x) && x.Line?
    ensures AcceptsNow(h.l, x.v) <==>
              h.first && h.stage == ToUpdate && x.v.Clocks? && x.v.jtag.Some? && x.v.jtag.value.update
  {
  }

  lemma CountStep(h: Session, g: Goal, x: HostEvent)
    requires CountInv(h, g) && ShiftInv(h) && Legal(h, x)
    ensures CountInv(Next(h, x), g)
  {
    hide LinkInv, NextShiftr, NextRequest;
    match x
    case NextPoll(data) => assert OpOf(MakeWord(OP_NOP, Blank(ABITS), data)) == OP_NOP;
    case Line(v) =>
      AcceptsOnce(h, g, x);
      LinkStep(h.l, v, g.base, g.logged);
  }

  lemma ShiftStep(h: Session, g: Goal, x: HostEvent)
    requires CountInv(h, g) && ShiftInv(h) && Legal(h, x)
    ensures ShiftInv(Next(h, x))
  {
    hide LinkInv, NextRequest;
    if x.Line? && x.v.Clocks? && x.v.jtag.Some? {
      TickShift(h, x.v.jtag.value);
    }
  }

  /** One shift: a captured bit leaves, a bit of the word enters. */
  lemma ShiftOne(c: Word, w: Word, sr: Word, k: nat)
    requires k < WordLength() && sr == c[k..] + w[..k]
    ensures sr[0] == c[k] && c[..k] + [c[k]] == c[..k + 1]
    ensures sr[1..] + [w[k]] == c[k + 1..] + w[..k + 1]
    ensures k + 1 == WordLength() ==> c[..k + 1] == c && c[k + 1..] + w[..k + 1] == w
  {
  }

  /** The shift register through one JTAG clock of a command. */
  lemma TickShift(h: Session, t: Tap)
    requires ShiftInv(h) && (h.stage == Shifting ==> |h.received| < WordLength()) && TapAllowed(h, t)
    ensures var s := NextShiftr(h.l.d, t);
            match HostTick(h, t).stage
            case ToCapture => true
            case Shifting =>
              var g := HostTick(h, t);
              var k := |g.received|;
              k < WordLength() && g.received == g.captured[..k] && s == g.captured[k..] + g.word[..k]
            case ToUpdate => HostTick(h, t).received == h.captured && s == h.word
            case Updated => HostTick(h, t).received == h.captured && !OpValid(s)
  {
    if h.stage == Shifting {
      ShiftOne(h.captured, h.word, h.l.d.shiftr, |h.received|);
    }
  }

  lemma DoneStep(h: Session, g: Goal, x: HostEvent)
    requires CountInv(h, g) && ShiftInv(h) && DoneInv(h, g) && Legal(h, x)
    ensures DoneInv(Next(h, x), g)
  {
    hide NextShiftr, NextRequest, OpOf, AddrOf, DataOf;
    if x.Line? {
      AcceptsOnce(h, g, x);
      if x.v.Clocks? && x.v.jtag.Some? {
        RequestParts(h.l.d, x.v.jtag.value, h.l.s.din);
      }
    }
  }

  lemma PollStep(h: Session, g: Goal, x: HostEvent)
    requires Inv(h, g) && Legal(h, x)
    ensures PollInv(Next(h, x), g)
  {
    hide NextShiftr, NextRequest, OpOf, AddrOf, DataOf;
    if x.Line? {
      AcceptsOnce(h, g, x);
      if x.v.Clocks? && x.v.jtag.Some? {
        RequestParts(h.l.d, x.v.jtag.value, h.l.s.din);
        if x.v.jtag.value.capture {
          CapturedParts(h.l.d, x.v.jtag.value);
        }
      }
    }
  }

  lemma InvStep(h: Session, g: Goal, x: HostEvent)
    requires Inv(h, g) && Legal(h, x)
    ensures Inv(Next(h, x), g)
  {
    CountStep(h, g, x);
    ShiftStep(h, g, x);
    DoneStep(h, g, x);
    PollStep(h, g, x);
  }

  ghost predicate LegalRun(h: Session, xs: seq<HostEvent>)
    decreases |xs|
  {
    xs != [] ==> Legal(h, xs[0]) && LegalRun(Next(h, xs[0]), xs[1..])
  }

  ghost function Run(h: Session, xs: seq<HostEvent>): Session
    decreases |xs|
  {
    if xs == [] then h else Run(Next(h, xs[0]), xs[1..])
  }

  lemma {:induction false} RunInv(h: Session, g: Goal, xs: seq<HostEvent>)
    requires Inv(h, g) && LegalRun(h, xs)
    ensures Inv(Run(h, xs), g)
    decreases |xs|
  {
    if xs != [] {
      InvStep(h, g, xs[0]);
      RunInv(Next(h, xs[0]), g, xs[1..]);
    }
  }

  /** dmi_read or dmi_write called on a quiescent link. */
  ghost predicate Start(h: Session) {
    && DmiTransport.Start(h.l) && h.first && h.stage == ToCapture && OpValid(h.word)
  }

  /** From a quiescent link, whatever the clocks and the slave do and however many polls come back busy: when the loop
      ends, the slave has seen exactly one exchange, with the requested address, direction and data, a read returns
      what the slave drove at the JTAG edge that ended it, and the link is quiescent again. Every poll's status is OK
      or busy. */
  lemma LoopCorrect(h: Session, xs: seq<HostEvent>)
    requires Start(h) && LegalRun(h, xs)
    ensures var z := Run(h, xs);
            && |z.l.log| <= |h.l.log| + 1
            && (z.stage == Updated && !z.first ==>
                  && |z.received| == WordLength()
                  && (OpOf(z.received) == RSP_OK || OpOf(z.received) == RSP_BSY)
                  && (OpOf(z.received) == RSP_OK ==>
                        && |z.l.log| == |h.l.log| + 1 && Quiet(z.l.d, z.l.s)
                        && var t := z.l.log[|h.l.log|];
                           && t.addr == AddrOf(h.word) && t.wr == (OpOf(h.word) == OP_WR) && t.dout == DataOf(h.word)
                           && (OpOf(h.word) == OP_RD ==> DataOf(z.received) == z.l.taken)))
  {
    RunInv(h, Goal(h.word, h.l.accepted, |h.l.log|), xs);
  }

  /** The layout of a command: op in bits 1 to 0, data above it, address on top. */
  lemma CommandWord(op: seq<bool>, addr: seq<bool>, data: Data)
    requires |op| == 2 && |addr| == ABITS
    ensures var word := MakeWord(op, addr, data);
            word[..2] == op && word[2..DBITS + 2] == data && word[DBITS + 2..] == addr
  {
  }

  /** The same promise bit by bit: op 1 reads and op 2 writes, status 0 is OK and 3 is busy. */
  lemma LoopByBits(h: Session, xs: seq<HostEvent>)
    requires Start(h) && LegalRun(h, xs) && (h.word[..2] == [true, false] || h.word[..2] == [false, true])
    ensures var z := Run(h, xs);
            z.stage == Updated && !z.first ==>
              && |z.received| == ABITS + DBITS + 2
              && (z.received[..2] == [false, false] || z.received[..2] == [true, true])
              && (z.received[..2] == [false, false] ==>
                    && |z.l.log| == |h.l.log| + 1
                    && var t := z.l.log[|h.l.log|];
                       && t.addr == h.word[DBITS + 2..] && t.wr == (h.word[..2] == [false, true])
                       && t.dout == h.word[2..DBITS + 2]
                       && (h.word[..2] == [true, false] ==> z.received[2..DBITS + 2] == z.l.taken))
  {
    hide LegalRun, Run;
    LoopCorrect(h, xs);
  }

  // ----- a slave that holds its data -----

  /** The slave's data does not move while its ack is high. */
  predicate Holding(h: Session, x: HostEvent) {
    x.Line? && x.v.SlaveMove? && x.v.ack && h.l.s.ack ==> x.v.din == h.l.s.din
  }

  ghost predicate HoldingRun(h: Session, xs: seq<HostEvent>)
    decreases |xs|
  {
    xs != [] ==> Holding(h, xs[0]) && HoldingRun(Next(h, xs[0]), xs[1..])
  }

  ghost predicate HeldInv(h: Session, g: Goal) {
    && (h.l.s.ack ==> h.l.log != [] && h.l.log[|h.l.log| - 1].din == h.l.s.din)
    && (Sent(h) && !h.l.d.jtagReq ==> |h.l.log| == g.logged + 1 && h.l.taken == h.l.log[g.logged].din)
  }

  lemma HeldStep(h: Session, g: Goal, x: HostEvent)
    requires Inv(h, g) && HeldInv(h, g) && Legal(h, x) && Holding(h, x)
    ensures HeldInv(Next(h, x), g)
  {
    hide NextShiftr, NextRequest, OpOf, AddrOf, DataOf;
    if x.Line? {
      AcceptsOnce(h, g, x);
    }
  }

  lemma {:induction false} HeldRun(h: Session, g: Goal, xs: seq<HostEvent>)
    requires Inv(h, g) && HeldInv(h, g) && LegalRun(h, xs) && HoldingRun(h, xs)
    ensures Inv(Run(h, xs), g) && HeldInv(Run(h, xs), g)
    decreases |xs|
  {
    if xs != [] {
      InvStep(h, g, xs[0]);
      HeldStep(h, g, xs[0]);
      HeldRun(Next(h, xs[0]), g, xs[1..]);
    }
  }

  /** With a slave that holds its data under ack, a read returns what the slave drove when it raised ack. */
  lemma HeldRead(h: Session, xs: seq<HostEvent>)
    requires Start(h) && LegalRun(h, xs) && HoldingRun(h, xs)
    ensures var z := Run(h, xs);
            && z.stage == Updated && !z.first && |z.received| == WordLength()
            && OpOf(z.received) == RSP_OK && OpOf(h.word) == OP_RD ==>
              |z.l.log| == |h.l.log| + 1 && DataOf(z.received) == z.l.log[|h.l.log|].din
  {
    HeldRun(h, Goal(h.word, h.l.accepted, |h.l.log|), xs);
  }
}
