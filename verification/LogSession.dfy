/** One dmi_read or dmi_write of the host, over the transport of dmi_dtm_ecp5.vhdl, to the log of core_debug.vhdl. */
module LogSession {
  import opened Wrappers
  import T = DmiTransport
  import H = DmiHost
  import opened LogLink
  import opened LogRing
  import opened LogPort

  /** The system clock edges of a call as the log sees them: before its request, `n` with it, `n` after it. */
  datatype Edges = Before | High(n: nat) | After(n: nat)

  /** A call under way. `polled`: system clock edges since the last capture; `seen`: the log when its answer was taken;
      `entries`: everything logged so far; `counted`: how many entries that was when the answer was taken. */
  datatype Call = Call(h: H.Session, g: Log, edges: Edges, polled: nat, seen: Log, entries: seq<Entry>, counted: nat)

  datatype Happening = Happening(x: H.HostEvent, o: Outside)

  predicate Ticks(x: H.HostEvent) { x.Line? && SysTick(x.v) }

  predicate Captures(x: H.HostEvent) { x.Line? && x.v.Clocks? && x.v.jtag.Some? && x.v.jtag.value.capture }

  function Following(edges: Edges, req: bool): Edges {
    match edges
    case Before => if req then High(1) else Before
    case High(n) => if req then High(n + 1) else After(1)
    case After(n) => After(n + 1)
  }

  function NextCall(q: Call, w: Wiring, e: Happening): Call {
    var taking := e.x.Line? && T.CompletesNow(q.h.l, e.x.v);
    Call(H.Next(q.h, e.x),
         if Ticks(e.x) then LogRing.Next(q.g, PortOf(q.h.l, w), e.o) else q.g,
         if Ticks(e.x) then Following(q.edges, q.h.l.d.req1) else q.edges,
         if Captures(e.x) then 0 else q.polled + One(Ticks(e.x)),
         if taking then q.g else q.seen,
         if Ticks(e.x) && Writes(q.g, e.o) then q.entries + [e.o.entry] else q.entries,
         if taking then |q.entries| else q.counted)
  }

  /** core_debug answers combinationally: ack is the request, and the data is the selected register as it is now. */
  predicate Answers(q: Call, w: Wiring) {
    q.h.l.s.ack == q.h.l.d.req1 && w.number(q.h.l.s.din) == Dout(q.g, w.reg(T.AddrOf(q.h.l.d.request)))
  }

  /** What the host and the clocks do. Between the capture and the update of a poll there are enough system clocks for
      the read pipeline of the log. */
  predicate Allowed(q: Call, w: Wiring, e: Happening) {
    && H.Legal(q.h, e.x)
    && (e.x.Line? && e.x.v.Clocks? ==> Answers(q, w))
    && (q.h.stage == H.ToUpdate && H.Next(q.h, e.x).stage == H.Updated && !q.h.first ==> q.polled >= PIPELINE)
  }

  /** The port that a command asks for. */
  function PortFor(word: T.Word, w: Wiring): Port {
    Port(true, T.OpOf(word) == T.OP_WR, w.reg(T.AddrOf(word)), w.number(T.DataOf(word)))
  }

  // ----- the transport's side -----

  /** One pulse of the request, and where in it the call is. */
  ghost predicate Pulsed(q: Call, base: nat) {
    && (q.edges.Before? ==> q.h.l.pulses == base + One(q.h.l.d.req1))
    && (!q.edges.Before? ==> q.h.l.pulses == base + 1)
    && (q.edges.After? ==> !q.h.l.d.req1)
  }

  lemma PulsedStep(q: Call, w: Wiring, e: Happening, goal: H.Goal)
    requires H.Inv(q.h, goal) && Pulsed(q, goal.base) && Allowed(q, w, e)
    ensures Pulsed(NextCall(q, w, e), goal.base)
  {
    hide T.OpOf, T.DataOf, T.AddrOf, T.NextShiftr, T.NextRequest, Dout, LogRing.Next;
    if e.x.Line? {
      H.AcceptsOnce(q.h, goal, e.x);
    }
  }

  /** A poll that was answered OK was captured after the request had gone, and every clock since has seen it gone. */
  ghost predicate Gone(q: Call) {
    !q.h.first && q.h.stage != H.ToCapture && T.OpOf(q.h.captured) == T.RSP_OK ==>
      && !q.h.l.d.req1 && !q.edges.Before?
      && (q.polled > 0 ==> q.edges.After? && q.edges.n >= q.polled)
      && (q.h.stage == H.Updated ==> q.polled >= PIPELINE)
  }

  lemma GoneStep(q: Call, w: Wiring, e: Happening, goal: H.Goal)
    requires H.Inv(q.h, goal) && Pulsed(q, goal.base) && Gone(q) && Allowed(q, w, e)
    ensures Gone(NextCall(q, w, e))
  {
    hide T.OpOf, T.DataOf, T.AddrOf, T.NextShiftr, T.NextRequest, Dout, LogRing.Next;
    if e.x.Line? {
      H.AcceptsOnce(q.h, goal, e.x);
      if e.x.v.Clocks? && e.x.v.jtag.Some? && e.x.v.jtag.value.capture {
        H.CapturedParts(q.h.l.d, e.x.v.jtag.value);
      }
    }
  }

  // ----- the log's side -----

  predicate SameRing(s: Log, z: Log) { z.ring == s.ring && z.wrPtr == s.wrPtr }

  /** The accesses of log_dump: reads, and writes of the address register. */
  predicate Access(p: Port) { p.req && (p.wr ==> p.reg == LogAddr) }

  /** After a data read the address has moved on, and a stopped log has not changed. */
  predicate MovedOn(g0: Log, g: Log) {
    Stopped(g0) && Bumped(g0.addr) >= P31 ==> g.addr == Bumped(g0.addr) && SameRing(g0, g)
  }

  predicate Loaded(g0: Log, g: Log, p: Port) {
    g.addr == p.din % P32 && (Stopped(g0) && Stopped(g) ==> SameRing(g0, g))
  }

  /** At least `n` clocks into the fetch. */
  ghost predicate FetchedFor(g: Log, n: nat) { exists k: nat :: n <= k && Fetching(g, k) }

  /** The log at each edge of an access that began at `g0`. */
  ghost predicate Track(g0: Log, g: Log, edges: Edges, p: Port) {
    match edges
    case Before => Ready(g) && Kept(g0, g)
    case High(n) =>
      && n >= 1 && g.req1 && Steady(g, p)
      && if p.wr then Fetching(g, n - 1) && Loaded(g0, g, p) else Fetching(g, 3) && Kept(g0, g)
    case After(n) =>
      && n >= 1 && !g.req1
      && if p.wr then NoRead(g) && FetchedFor(g, n) && Loaded(g0, g, p)
         else if p.reg != LogData then NoRead(g) && Fetching(g, 3) && Kept(g0, g)
         else if n == 1 then ReadEnded(g) && Fetching(g, 3) && Kept(g0, g)
         else NoRead(g) && Fetching(g, n - 2) && MovedOn(g0, g)
  }

  /** The port as the log sees it: the access, but for the data lines of a read, or no request. */
  predicate Shows(pp: Port, p: Port) {
    pp.req ==> pp.wr == p.wr && pp.reg == p.reg && (p.wr ==> pp.din == p.din)
  }

  lemma TrackBefore(g0: Log, g: Log, p: Port, pp: Port, o: Outside)
    requires Access(p) && Track(g0, g, Before, p) && Shows(pp, p)
    ensures Track(g0, LogRing.Next(g, pp, o), Following(Before, pp.req), p)
  {
    hide EntryOf, DwordOf, Bumped, Residue, Low, LogRing.After;
    if !LoadsAddr(g, pp) {
      FetchStep(g, pp, o, 3);
    }
  }

  lemma TrackHigh(g0: Log, g: Log, n: nat, p: Port, pp: Port, o: Outside)
    requires Access(p) && Track(g0, g, High(n), p) && Shows(pp, p)
    ensures Track(g0, LogRing.Next(g, pp, o), Following(High(n), pp.req), p)
  {
    hide EntryOf, DwordOf, Bumped, Residue, Low, LogRing.After;
    FetchStep(g, pp, o, if p.wr then n - 1 else 3);
    assert p.wr ==> Fetching(LogRing.Next(g, pp, o), n);
  }

  lemma TrackAfter(g0: Log, g: Log, n: nat, p: Port, pp: Port, o: Outside)
    requires Access(p) && Track(g0, g, After(n), p) && !pp.req
    ensures Track(g0, LogRing.Next(g, pp, o), After(n + 1), p)
  {
    hide EntryOf, DwordOf, Bumped, Residue, Low, LogRing.After;
    if p.wr {
      var k: nat :| n <= k && Fetching(g, k);
      FetchStep(g, pp, o, k);
      assert Fetching(LogRing.Next(g, pp, o), k + 1);
    } else if p.reg != LogData {
      FetchStep(g, pp, o, 3);
    } else if n >= 2 {
      FetchStep(g, pp, o, n - 2);
    }
  }

  // ----- a whole call -----

  /** The answer of a read: what the log showed when it was taken, and how much had been logged then. */
  ghost predicate Taken(q: Call, w: Wiring, g0: Log, p: Port) {
    H.Sent(q.h) && !q.h.l.d.jtagReq && !p.wr ==>
      && w.number(q.h.l.taken) == Dout(q.seen, p.reg) && Kept(g0, q.seen) && Fetching(q.seen, 3)
      && q.counted <= |q.entries| && Holds(q.seen, q.entries[..q.counted])
  }

  ghost predicate CallInv(q: Call, w: Wiring, goal: H.Goal, g0: Log) {
    var p := PortFor(goal.word, w);
    && H.Inv(q.h, goal) && Pulsed(q, goal.base) && Gone(q)
    && Access(p) && Track(g0, q.g, q.edges, p) && Holds(q.g, q.entries) && Taken(q, w, g0, p)
  }

  /** While the request is high, the port shows the command. */
  lemma PortShows(q: Call, w: Wiring, goal: H.Goal)
    requires H.Inv(q.h, goal)
    ensures Shows(PortOf(q.h.l, w), PortFor(goal.word, w))
    ensures q.h.l.d.req1 ==> T.AddrOf(q.h.l.d.request) == T.AddrOf(goal.word)
  {
  }

  lemma TrackStep(q: Call, w: Wiring, e: Happening, goal: H.Goal, g0: Log)
    requires CallInv(q, w, goal, g0) && Allowed(q, w, e)
    ensures Track(g0, NextCall(q, w, e).g, NextCall(q, w, e).edges, PortFor(goal.word, w))
  {
    hide H.Inv, LogRing.Next, Track, Taken, Gone, Dout, H.Next;
    var p, pp := PortFor(goal.word, w), PortOf(q.h.l, w);
    PortShows(q, w, goal);
    if Ticks(e.x) {
      match q.edges
      case Before => TrackBefore(g0, q.g, p, pp, e.o);
      case High(n) => TrackHigh(g0, q.g, n, p, pp, e.o);
      case After(n) => TrackAfter(g0, q.g, n, p, pp, e.o);
    }
  }

  lemma EntriesStep(q: Call, w: Wiring, e: Happening)
    requires Holds(q.g, q.entries)
    ensures Holds(NextCall(q, w, e).g, NextCall(q, w, e).entries)
  {
    hide Holds, LogRing.Next, H.Next, Writes;
    if Ticks(e.x) {
      HoldsStep(q.g, PortOf(q.h.l, w), e.o, q.entries);
    }
  }

  /** The answer is taken while request and ack are high. */
  lemma TakingUnderReq(q: Call, w: Wiring, e: Happening, goal: H.Goal, g0: Log)
    requires CallInv(q, w, goal, g0) && Allowed(q, w, e) && e.x.Line? && T.CompletesNow(q.h.l, e.x.v)
    ensures q.h.l.d.req1 && Answers(q, w) && T.AddrOf(q.h.l.d.request) == T.AddrOf(goal.word)
    ensures !PortFor(goal.word, w).wr ==> Kept(g0, q.g) && Fetching(q.g, 3)
  {
    hide LogRing.Next, Taken, Gone, Dout, H.Next, Kept, Fetching, Holds;
    PortShows(q, w, goal);
  }

  lemma TakenStep(q: Call, w: Wiring, e: Happening, goal: H.Goal, g0: Log)
    requires CallInv(q, w, goal, g0) && Allowed(q, w, e)
    ensures Taken(NextCall(q, w, e), w, g0, PortFor(goal.word, w))
  {
    hide LogRing.Next, Gone, Dout, Kept, Fetching, Holds, Track, T.NextShiftr, T.NextRequest, T.OpOf, T.AddrOf,
      T.DataOf;
    var z := NextCall(q, w, e);
    assert q.counted <= |q.entries| ==> z.entries[..q.counted] == q.entries[..q.counted];
    assert z.entries[..|q.entries|] == q.entries;
    if e.x.Line? {
      H.AcceptsOnce(q.h, goal, e.x);
      if T.CompletesNow(q.h.l, e.x.v) {
        TakingUnderReq(q, w, e, goal, g0);
      }
    }
  }

  lemma CallStep(q: Call, w: Wiring, e: Happening, goal: H.Goal, g0: Log)
    requires CallInv(q, w, goal, g0) && Allowed(q, w, e)
    ensures CallInv(NextCall(q, w, e), w, goal, g0)
  {
    hide H.Inv, Pulsed, Gone, Track, Holds, Taken, LogRing.Next, H.Next;
    H.InvStep(q.h, goal, e.x);
    PulsedStep(q, w, e, goal);
    GoneStep(q, w, e, goal);
    TrackStep(q, w, e, goal, g0);
    EntriesStep(q, w, e);
    TakenStep(q, w, e, goal, g0);
  }

  ghost predicate AllowedRun(q: Call, w: Wiring, es: seq<Happening>)
    decreases |es|
  {
    es != [] ==> Allowed(q, w, es[0]) && AllowedRun(NextCall(q, w, es[0]), w, es[1..])
  }

  function CallAfter(q: Call, w: Wiring, es: seq<Happening>): Call
    decreases |es|
  {
    if es == [] then q else CallAfter(NextCall(q, w, es[0]), w, es[1..])
  }

  lemma {:induction false} CallRun(q: Call, w: Wiring, es: seq<Happening>, goal: H.Goal, g0: Log)
    requires CallInv(q, w, goal, g0) && AllowedRun(q, w, es)
    ensures CallInv(CallAfter(q, w, es), w, goal, g0)
    decreases |es|
  {
    hide CallInv, Allowed, NextCall;
    if es != [] {
      CallStep(q, w, es[0], goal, g0);
      CallRun(NextCall(q, w, es[0]), w, es[1..], goal, g0);
    }
  }

  /** A call is made on a quiescent link, with the log's port at rest. */
  ghost predicate Called(q: Call, w: Wiring) {
    && H.Start(q.h) && Access(PortFor(q.h.word, w)) && Ready(q.g) && q.edges == Before && Holds(q.g, q.entries)
  }

  /** The call returns: its last poll said OK. */
  predicate Returned(q: Call) {
    && q.h.stage == H.Updated && !q.h.first && |q.h.received| == H.WordLength()
    && T.OpOf(q.h.received) == T.RSP_OK
  }

  function Answer(q: Call, w: Wiring): nat
    requires |q.h.received| == H.WordLength()
  {
    w.number(T.DataOf(q.h.received))
  }

  lemma CallBegins(q: Call, w: Wiring)
    requires Called(q, w)
    ensures CallInv(q, w, H.Goal(q.h.word, q.h.l.accepted, |q.h.l.log|), q.g)
  {
  }

  lemma CallEnds(z: Call, w: Wiring, goal: H.Goal, g0: Log)
    requires CallInv(z, w, goal, g0) && Returned(z)
    ensures var p := PortFor(goal.word, w);
            && T.Start(z.h.l) && z.edges.After? && z.edges.n >= PIPELINE && Track(g0, z.g, z.edges, p)
            && Holds(z.g, z.entries)
            && (!p.wr ==>
                  && Answer(z, w) == Dout(z.seen, p.reg) && Kept(g0, z.seen) && Fetching(z.seen, 3)
                  && z.counted <= |z.entries| && Holds(z.seen, z.entries[..z.counted]))
  {
    hide Track, Holds, Dout, Fetching, Kept;
  }
}
