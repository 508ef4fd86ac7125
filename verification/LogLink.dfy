/** The log of core_debug.vhdl driven by the debug transport of dmi_dtm_ecp5.vhdl. */
module LogLink {
  import opened Wrappers
  import opened DmiTransport
  import opened LogRing

  /** A request that falls is low at two system clock edges at least: the synchronizer's first stage is low too. */
  lemma TwoLowEdges(l: DmiTransport.Link, vs: seq<Event>, v: Event)
    requires DmiTransport.Start(l) && LegalRun(l, vs) && LegalEvent(DmiTransport.Run(l, vs), v)
    requires var z := DmiTransport.Run(l, vs); z.d.req1 && !DmiTransport.Next(z, v).d.req1
    ensures !DmiTransport.Next(DmiTransport.Run(l, vs), v).d.req0
  {
    DmiTransport.RunInv(l, vs, l.accepted, |l.log|);
    FallsLow(DmiTransport.Run(l, vs), v);
  }

  lemma FallsLow(l: DmiTransport.Link, v: Event)
    requires Chain(l) && l.d.req1 && !DmiTransport.Next(l, v).d.req1
    ensures !DmiTransport.Next(l, v).d.req0
  {
    hide OpOf, DataOf, AddrOf, NextShiftr, NextRequest;
  }

  /** How the core decodes an address, and the number on the data lines. */
  datatype Wiring = Wiring(reg: seq<bool> -> Reg, number: seq<bool> -> nat)

  /** The transport, and the log as clocked by the same system clock. */
  datatype Joined = Joined(l: DmiTransport.Link, g: Log)

  /** The port of the log is wired to the request register. */
  function PortOf(l: DmiTransport.Link, w: Wiring): Port {
    Port(l.d.req1, Writing(l.d), w.reg(AddrOf(l.d.request)), w.number(DataOf(l.d.request)))
  }

  predicate SysTick(v: Event) { v.Clocks? && v.sys }

  function Tick(j: Joined, w: Wiring, v: Event, o: Outside): Joined {
    Joined(DmiTransport.Next(j.l, v), if SysTick(v) then LogRing.Next(j.g, PortOf(j.l, w), o) else j.g)
  }

  /** What the log saw at the last edge, against what it will see at the next. */
  ghost predicate Seen(j: Joined, w: Wiring) {
    && (j.g.readLog ==> j.g.req1)
    && (j.g.req1 && j.l.d.req1 ==> j.g.readLog == (PortOf(j.l, w).reg == LogData))
    && (j.g.readLog1 && !j.g.readLog ==> !j.g.req1 && !j.l.d.req1)
    && (j.g.req1 && !j.l.d.req1 ==> !j.l.d.req0)
  }

  lemma SeenStep(j: Joined, w: Wiring, v: Event, o: Outside, base: nat, logged: nat)
    requires LinkInv(j.l, base, logged) && Seen(j, w) && LegalEvent(j.l, v)
    ensures Seen(Tick(j, w, v, o), w)
  {
    hide OpOf, DataOf, AddrOf, NextShiftr, NextRequest, EntryOf, DwordOf, NextAddr, Counted, Logged;
    if v.Clocks? && v.jtag.Some? {
      RequestParts(j.l.d, v.jtag.value, j.l.s.din);
    }
  }

  datatype Step = Step(v: Event, o: Outside)

  ghost predicate JoinedRun(j: Joined, w: Wiring, xs: seq<Step>)
    decreases |xs|
  {
    xs != [] ==> LegalEvent(j.l, xs[0].v) && JoinedRun(Tick(j, w, xs[0].v, xs[0].o), w, xs[1..])
  }

  ghost function After(j: Joined, w: Wiring, xs: seq<Step>): Joined
    decreases |xs|
  {
    if xs == [] then j else After(Tick(j, w, xs[0].v, xs[0].o), w, xs[1..])
  }

  lemma {:induction false} JoinedInv(j: Joined, w: Wiring, xs: seq<Step>, base: nat, logged: nat)
    requires LinkInv(j.l, base, logged) && Seen(j, w) && JoinedRun(j, w, xs)
    ensures LinkInv(After(j, w, xs).l, base, logged) && Seen(After(j, w, xs), w)
    decreases |xs|
  {
    if xs != [] {
      LinkStep(j.l, xs[0].v, base, logged);
      SeenStep(j, w, xs[0].v, xs[0].o, base, logged);
      JoinedInv(Tick(j, w, xs[0].v, xs[0].o), w, xs[1..], base, logged);
    }
  }

  ghost predicate Begins(j: Joined) { DmiTransport.Start(j.l) && !j.g.req1 && !j.g.readLog && !j.g.readLog1 }

  /** Over this transport no increment of the log address is ever lost: in every run, under every interleaving of the
      clocks, whenever the end of a data read is due to be acted on, no new request rises, and the next system clock
      moves the address on and starts the next fetch. */
  lemma NoIncrementLost(j: Joined, w: Wiring, xs: seq<Step>, v: Event, o: Outside)
    requires Begins(j) && JoinedRun(j, w, xs) && LegalEvent(After(j, w, xs).l, v) && SysTick(v)
    requires ReadEnded(After(j, w, xs).g)
    ensures var z := After(j, w, xs);
            && !PortOf(z.l, w).req
            && Tick(z, w, v, o).g.addr == Bumped(z.g.addr) && Tick(z, w, v, o).g.doRead
  {
    hide EntryOf, DwordOf, Bumped;
    JoinedInv(j, w, xs, j.l.accepted, |j.l.log|);
  }
}
