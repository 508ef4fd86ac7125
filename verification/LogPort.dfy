/** DMI accesses to the log of core_debug.vhdl: what the debug port answers and does, clock by clock. */
module LogPort {
  import opened Wrappers
  import opened LogRing

  /** One DMI access: request held for `hold` clocks, data taken in clock `sample` of these, then `gap` clocks without a
      request. */
  datatype Timing = Timing(hold: nat, sample: nat, gap: nat)

  /** Everything outside: what the core drives at each clock, and the timing of each access. */
  datatype Env = Env(world: nat -> Outside, timing: nat -> Timing)

  /** The length of the read pipeline after the end of an access. */
  const PIPELINE: nat := 5

  ghost predicate Spaced(e: Env) {
    forall k: nat :: var t := e.timing(k); t.sample < t.hold && t.gap >= PIPELINE
  }

  /** `n` clocks from `now` with the port held at `p`. */
  function Cycles(s: Log, p: Port, world: nat -> Outside, now: nat, n: nat): Log {
    if n == 0 then s else Next(Cycles(s, p, world, now, n - 1), p, world(now + n - 1))
  }

  predicate Stopped(s: Log) { s.addr >= P31 }

  /** The doubleword that the address register selects. */
  function Want(s: Log): nat { DwordOf(s.ring[EntryOf(s.addr)], s.addr) }

  /** `k` clocks into the fetch of the selected doubleword, three and more when it has arrived. */
  predicate Fetching(s: Log, k: nat) {
    if k == 0 then s.doRead
    else if k == 1 then !s.doRead && s.reading && (Stopped(s) ==> s.rdPtr == EntryOf(s.addr))
    else if k == 2 then !s.doRead && !s.reading && s.readDone && (Stopped(s) ==> s.rd == s.ring[EntryOf(s.addr)])
    else !s.doRead && !s.reading && !s.readDone && (Stopped(s) ==> s.data == Want(s))
  }

  predicate NoRead(s: Log) { !s.readLog && !s.readLog1 }

  /** No access and no fetch under way. */
  predicate Settled(s: Log) { !s.req1 && NoRead(s) && !s.doRead && !s.reading && !s.readDone }

  /** Nothing changes but perhaps the ring, and a stopped ring does not. */
  predicate Kept(s: Log, z: Log) {
    z.addr == s.addr && (Stopped(s) ==> z.ring == s.ring && z.wrPtr == s.wrPtr)
  }

  predicate Calm(s: Log, p: Port) { !LoadsAddr(s, p) && !Bumps(s, p) }

  lemma FetchStep(s: Log, p: Port, o: Outside, k: nat)
    requires Fetching(s, k) && Calm(s, p)
    ensures Fetching(Next(s, p, o), k + 1) && Kept(s, Next(s, p, o))
  {
    hide EntryOf, DwordOf, Bumped, Residue, Low;
  }

  /** Either the request is held past its first clock, or there is none. */
  predicate Steady(s: Log, p: Port) {
    if p.req then s.req1 && s.readLog == (p.reg == LogData) && (s.readLog1 ==> s.readLog) else NoRead(s)
  }

  lemma {:induction false} SteadyRun(s: Log, p: Port, world: nat -> Outside, now: nat, n: nat, k: nat)
    requires Fetching(s, k) && Steady(s, p)
    ensures var z := Cycles(s, p, world, now, n);
            Fetching(z, k + n) && Steady(z, p) && Kept(s, z) && (n > 0 ==> z.req1 == p.req)
  {
    if n > 0 {
      SteadyRun(s, p, world, now, n - 1, k);
      FetchStep(Cycles(s, p, world, now, n - 1), p, world(now + n - 1), k + n - 1);
    }
  }

  lemma {:induction false} CyclesJoin(s: Log, p: Port, world: nat -> Outside, now: nat, m: nat, n: nat)
    ensures Cycles(Cycles(s, p, world, now, m), p, world, now + m, n) == Cycles(s, p, world, now, m + n)
  {
    hide Next;
    if n > 0 {
      CyclesJoin(s, p, world, now, m, n - 1);
      assert Cycles(s, p, world, now, m + n) == Next(Cycles(s, p, world, now, m + (n - 1)), p, world(now + m + n - 1));
    }
  }

  lemma OneCycle(s: Log, p: Port, world: nat -> Outside, now: nat)
    ensures Cycles(s, p, world, now, 1) == Next(s, p, world(now))
  {
    assert Cycles(s, p, world, now, 0) == s;
  }

  function Idle(p: Port): Port { p.(req := false) }

  /** A read of either register, up to its last clock: data and address do not move. */
  lemma HeldRead(s: Log, p: Port, world: nat -> Outside, now: nat, n: nat)
    requires Settled(s) && Fetching(s, 3) && p.req && !p.wr
    ensures var z := Cycles(s, p, world, now, n);
            Fetching(z, 3) && Kept(s, z) && (n > 0 ==> Steady(z, p) && z.req1)
  {
    if n > 0 {
      OneCycle(s, p, world, now);
      FetchStep(s, p, world(now), 3);
      var f := Next(s, p, world(now));
      SteadyRun(f, p, world, now + 1, n - 1, 4);
      CyclesJoin(s, p, world, now, 1, n - 1);
    }
  }

  /** Gap without a pending read of the data register. */
  lemma GapQuiet(s: Log, p: Port, world: nat -> Outside, now: nat, n: nat, k: nat)
    requires NoRead(s) && Fetching(s, k) && n > 0 && k + n >= 3
    ensures var z := Cycles(s, Idle(p), world, now, n); Settled(z) && Fetching(z, 3) && Kept(s, z)
  {
    SteadyRun(s, Idle(p), world, now, n, k);
  }

  /** The two clocks in which the end of a data read is seen and acted on. */
  lemma BumpSteps(s: Log, q: Port, o: Outside, o': Outside)
    requires Fetching(s, 3) && s.readLog && Stopped(s) && !q.req
    ensures var z := Next(Next(s, q, o), q, o');
            NoRead(z) && Fetching(z, 0) && z.ring == s.ring && z.wrPtr == s.wrPtr && z.addr == Bumped(s.addr)
  {
    hide EntryOf, DwordOf, Bumped, Residue, Low;
    FetchStep(s, q, o, 3);
  }

  /** In the second clock after a data read, the address moves on exactly when no new request rises; one that does rise
      makes the increment get lost. */
  lemma LostIncrement(s: Log, p: Port, world: nat -> Outside, now: nat, n: nat, o: Outside, q: Port, o': Outside)
    requires Settled(s) && Fetching(s, 3) && p == Port(true, false, LogData, p.din) && n > 0
    requires q.reg != LogAddr || !q.wr
    ensures var g := Next(Cycles(s, p, world, now, n), Idle(p), o);
            Next(g, q, o').addr == if q.req then s.addr else Bumped(s.addr)
  {
    hide Fetching, Cycles, EntryOf, DwordOf, Bumped, Residue, Low;
    HeldRead(s, p, world, now, n);
  }

  /** Gap after a read of the data register: the address moves on and the next doubleword is fetched. */
  lemma GapBump(s: Log, p: Port, world: nat -> Outside, now: nat, n: nat)
    requires Fetching(s, 3) && s.readLog && Stopped(s) && Bumped(s.addr) >= P31 && n >= PIPELINE
    ensures var z := Cycles(s, Idle(p), world, now, n);
            && Settled(z) && Fetching(z, 3)
            && z.ring == s.ring && z.wrPtr == s.wrPtr && z.addr == Bumped(s.addr)
  {
    hide Next, Fetching, Bumped, Cycles;
    var q := Idle(p);
    OneCycle(s, q, world, now);
    OneCycle(Next(s, q, world(now)), q, world, now + 1);
    CyclesJoin(s, q, world, now, 1, 1);
    BumpSteps(s, q, world(now), world(now + 1));
    GapQuiet(Cycles(s, q, world, now, 2), q, world, now + 2, n - 2, 0);
    CyclesJoin(s, q, world, now, 2, n - 2);
  }

  /** A write of the address register: afterwards the doubleword it selects has been fetched. */
  lemma HeldWrite(s: Log, p: Port, world: nat -> Outside, now: nat, n: nat)
    requires Settled(s) && n > 0 && p.req && p.wr && p.reg == LogAddr
    ensures var z := Cycles(s, p, world, now, n);
            && NoRead(z) && z.req1 && Fetching(z, n - 1) && z.addr == p.din % P32
            && (Stopped(s) && Stopped(z) ==> z.ring == s.ring && z.wrPtr == s.wrPtr)
  {
    hide EntryOf, DwordOf, Bumped, Residue, Low;
    OneCycle(s, p, world, now);
    var f := Next(s, p, world(now));
    SteadyRun(f, p, world, now + 1, n - 1, 0);
    CyclesJoin(s, p, world, now, 1, n - 1);
  }

  // ----- the host -----

  /** The log, the clock number and the number of the next access. */
  datatype Link = Link(s: Log, now: nat, k: nat)

  function Accessed(l: Link, p: Port, e: Env): Link {
    var t := e.timing(l.k);
    Link(Cycles(Cycles(l.s, p, e.world, l.now, t.hold), Idle(p), e.world, l.now + t.hold, t.gap),
         l.now + t.hold + t.gap, l.k + 1)
  }

  function ReadPort(reg: Reg): Port { Port(true, false, reg, 0) }
  function WritePort(v: nat): Port { Port(true, true, LogAddr, v) }

  /** Value returned by dmi_read, and the state after it. */
  function ReadValue(l: Link, reg: Reg, e: Env): nat {
    Dout(Cycles(l.s, ReadPort(reg), e.world, l.now, e.timing(l.k).sample), reg)
  }
  function DmiRead(l: Link, reg: Reg, e: Env): Link { Accessed(l, ReadPort(reg), e) }
  function DmiWrite(l: Link, v: nat, e: Env): Link { Accessed(l, WritePort(v), e) }

  ghost predicate Ready(s: Log) { Settled(s) && Fetching(s, 3) }

  lemma ReadAddrAccess(l: Link, e: Env)
    requires Ready(l.s) && Spaced(e)
    ensures var z := DmiRead(l, LogAddr, e).s; Ready(z) && Kept(l.s, z)
    ensures var v := ReadValue(l, LogAddr, e);
            && v % P32 == l.s.addr && LENGTH <= v / P32 < 2 * LENGTH
            && (Stopped(l.s) ==> v / P32 == LENGTH + l.s.wrPtr)
  {
    hide Fetching, Cycles;
    var t := e.timing(l.k);
    var p := ReadPort(LogAddr);
    HeldRead(l.s, p, e.world, l.now, t.sample);
    HeldRead(l.s, p, e.world, l.now, t.hold);
    GapQuiet(Cycles(l.s, p, e.world, l.now, t.hold), p, e.world, l.now + t.hold, t.gap, 3);
  }

  lemma ReadDataAccess(l: Link, e: Env)
    requires Ready(l.s) && Spaced(e) && Stopped(l.s) && Bumped(l.s.addr) >= P31
    ensures ReadValue(l, LogData, e) == Want(l.s)
    ensures var z := DmiRead(l, LogData, e).s;
            Ready(z) && z.ring == l.s.ring && z.wrPtr == l.s.wrPtr && z.addr == Bumped(l.s.addr)
  {
    hide Cycles, EntryOf, DwordOf, Bumped;
    var t := e.timing(l.k);
    var p := ReadPort(LogData);
    HeldRead(l.s, p, e.world, l.now, t.sample);
    HeldRead(l.s, p, e.world, l.now, t.hold);
    GapBump(Cycles(l.s, p, e.world, l.now, t.hold), p, e.world, l.now + t.hold, t.gap);
  }

  lemma WriteAccess(l: Link, v: nat, e: Env)
    requires Ready(l.s) && Spaced(e)
    ensures var z := DmiWrite(l, v, e).s;
            && Ready(z) && z.addr == v % P32
            && (Stopped(l.s) && Stopped(z) ==> z.ring == l.s.ring && z.wrPtr == l.s.wrPtr)
  {
    hide Fetching, Cycles;
    var t := e.timing(l.k);
    var p := WritePort(v);
    HeldWrite(l.s, p, e.world, l.now, t.hold);
    GapQuiet(Cycles(l.s, p, e.world, l.now, t.hold), p, e.world, l.now + t.hold, t.gap, t.hold - 1);
  }

  // ----- what is logged meanwhile -----

  /** Entries written in `n` clocks from `now` with the port held at `p`. */
  ghost function Written(s: Log, p: Port, world: nat -> Outside, now: nat, n: nat): seq<Entry> {
    if n == 0 then []
    else
      Written(s, p, world, now, n - 1) +
      (if Writes(Cycles(s, p, world, now, n - 1), world(now + n - 1)) then [world(now + n - 1).entry] else [])
  }

  lemma {:induction false} WrittenHolds(
    s: Log, p: Port, world: nat -> Outside, now: nat, n: nat, logged: seq<Entry>)
    requires Holds(s, logged)
    ensures Holds(Cycles(s, p, world, now, n), logged + Written(s, p, world, now, n))
  {
    hide Holds, Next, Writes;
    if n == 0 {
      assert logged + [] == logged;
    } else {
      var before := logged + Written(s, p, world, now, n - 1);
      var t, o := Cycles(s, p, world, now, n - 1), world(now + n - 1);
      WrittenHolds(s, p, world, now, n - 1, logged);
      HoldsStep(t, p, o, before);
      assert logged + Written(s, p, world, now, n) == if Writes(t, o) then before + [o.entry] else before;
    }
  }

  /** Nothing is written while the log is stopped, by whatever means. */
  lemma {:induction false} WrittenNone(s: Log, p: Port, world: nat -> Outside, now: nat, n: nat)
    requires forall j | 0 <= j < n :: !Writes(Cycles(s, p, world, now, j), world(now + j))
    ensures Written(s, p, world, now, n) == []
  {
    hide Next, Writes;
    if n > 0 {
      WrittenNone(s, p, world, now, n - 1);
    }
  }

  /** While it runs, every clock writes its entry. */
  lemma {:induction false} WrittenAll(s: Log, p: Port, world: nat -> Outside, now: nat, n: nat)
    requires forall j | 0 <= j < n :: Writes(Cycles(s, p, world, now, j), world(now + j))
    ensures |Written(s, p, world, now, n)| == n
    ensures forall j | 0 <= j < n :: Written(s, p, world, now, n)[j] == world(now + j).entry
  {
    hide Cycles, Writes;
    if n > 0 {
      WrittenAll(s, p, world, now, n - 1);
    }
  }

  /** Entries written during one access. */
  ghost function WrittenIn(l: Link, p: Port, e: Env): seq<Entry> {
    var t := e.timing(l.k);
    Written(l.s, p, e.world, l.now, t.hold) +
    Written(Cycles(l.s, p, e.world, l.now, t.hold), Idle(p), e.world, l.now + t.hold, t.gap)
  }

  lemma AccessHolds(l: Link, p: Port, e: Env, logged: seq<Entry>)
    requires Holds(l.s, logged)
    ensures Holds(Accessed(l, p, e).s, logged + WrittenIn(l, p, e))
  {
    hide Holds, Cycles, Written;
    var t := e.timing(l.k);
    var a := Written(l.s, p, e.world, l.now, t.hold);
    var m := Cycles(l.s, p, e.world, l.now, t.hold);
    var b := Written(m, Idle(p), e.world, l.now + t.hold, t.gap);
    WrittenHolds(l.s, p, e.world, l.now, t.hold, logged);
    WrittenHolds(m, Idle(p), e.world, l.now + t.hold, t.gap, logged + a);
    assert logged + a + b == logged + (a + b);
  }

  // ----- a log that is stopped -----

  /** Stopped from outside: by a trigger, or by the top bit of the core's own read address. */
  predicate Halted(o: Outside) { o.triggered || o.readAddr >= P31 }

  ghost predicate HaltedFor(world: nat -> Outside, from: nat, until: nat) {
    forall t: nat | from <= t < until :: Halted(world(t))
  }

  lemma HaltedNone(s: Log, p: Port, world: nat -> Outside, now: nat, n: nat)
    requires HaltedFor(world, now, now + n)
    ensures Written(s, p, world, now, n) == []
  {
    hide Cycles;
    forall j | 0 <= j < n ensures !Writes(Cycles(s, p, world, now, j), world(now + j)) {
      assert Halted(world(now + j));
    }
    WrittenNone(s, p, world, now, n);
  }

  lemma StillStopped(s: Log, p: Port, world: nat -> Outside, now: nat, m: nat, j: nat)
    requires Ready(s) && p.req && !p.wr && Stopped(s)
    ensures Stopped(Cycles(Cycles(s, p, world, now, m), p, world, now + m, j))
  {
    hide Fetching, Next, Cycles;
    CyclesJoin(s, p, world, now, m, j);
    HeldRead(s, p, world, now, m + j);
  }

  lemma HeldReadNone(s: Log, p: Port, world: nat -> Outside, now: nat, m: nat, n: nat)
    requires Ready(s) && p.req && !p.wr && Stopped(s)
    ensures Written(Cycles(s, p, world, now, m), p, world, now + m, n) == []
  {
    hide Fetching, Next, Cycles;
    var t, at := Cycles(s, p, world, now, m), now + m;
    forall j | 0 <= j < n ensures !Writes(Cycles(t, p, world, at, j), world(at + j)) {
      StillStopped(s, p, world, now, m, j);
    }
    WrittenNone(t, p, world, at, n);
  }

  lemma GapNone(s: Log, p: Port, world: nat -> Outside, now: nat, n: nat, k: nat)
    requires NoRead(s) && Fetching(s, k) && Stopped(s)
    ensures Written(s, Idle(p), world, now, n) == []
  {
    hide Fetching, Next;
    forall j | 0 <= j < n ensures !Writes(Cycles(s, Idle(p), world, now, j), world(now + j)) {
      SteadyRun(s, Idle(p), world, now, j, k);
    }
    WrittenNone(s, Idle(p), world, now, n);
  }

  /** Nothing is logged during a write of the address register from one stopped state to another. */
  lemma WriteNone(l: Link, v: nat, e: Env)
    requires Ready(l.s) && Spaced(e) && Stopped(l.s) && v % P32 >= P31
    ensures WrittenIn(l, WritePort(v), e) == []
  {
    hide Fetching, Next, Cycles;
    var t, p := e.timing(l.k), WritePort(v);
    forall j | 0 <= j < t.hold ensures !Writes(Cycles(l.s, p, e.world, l.now, j), e.world(l.now + j)) {
      if j > 0 {
        HeldWrite(l.s, p, e.world, l.now, j);
      } else {
        NoCycle(l.s, p, e.world, l.now);
      }
    }
    WrittenNone(l.s, p, e.world, l.now, t.hold);
    HeldWrite(l.s, p, e.world, l.now, t.hold);
    GapNone(Cycles(l.s, p, e.world, l.now, t.hold), p, e.world, l.now + t.hold, t.gap, t.hold - 1);
  }

  lemma NoCycle(s: Log, p: Port, world: nat -> Outside, now: nat)
    ensures Cycles(s, p, world, now, 0) == s
  {
  }

  lemma HaltedIn(l: Link, p: Port, e: Env)
    requires HaltedFor(e.world, l.now, Accessed(l, p, e).now)
    ensures WrittenIn(l, p, e) == []
  {
    hide Cycles, Written;
    var t := e.timing(l.k);
    HaltedNone(l.s, p, e.world, l.now, t.hold);
    HaltedNone(Cycles(l.s, p, e.world, l.now, t.hold), Idle(p), e.world, l.now + t.hold, t.gap);
  }
}
