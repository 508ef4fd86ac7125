/** A log that is still running when log_dump is called. */
module LogRunning {
  import opened Wrappers
  import opened LogRing
  import opened LogPort
  import opened LogDump

  function Tagged(i: nat): Entry { [i % P64, 0, 0, 0] }

  function Numbered(from: nat, n: nat): (r: seq<Entry>)
    ensures |r| == n && forall i | 0 <= i < n :: r[i] == Tagged(from + i)
  {
    if n == 0 then [] else Numbered(from, n - 1) + [Tagged(from + n - 1)]
  }

  function Running(t: nat): Outside { Outside(Tagged(LENGTH + t), 0, false) }

  /** Every clock logs an entry of its own; accesses hold their request for two clocks, are sampled in
      the first, and are six clocks apart. */
  function Bench(): Env { Env((t: nat) => Running(t), (k: nat) => Timing(2, 0, 6)) }

  /** The ring has just been filled. */
  function Filled(): Link {
    Link(Log(Numbered(0, LENGTH), 0, 0, Tagged(0), 0, 0, 0, false, false, false, false, false, false), 0, 0)
  }

  lemma FilledHolds()
    ensures Holds(Filled().s, Numbered(0, LENGTH)) && Ready(Filled().s) && Spaced(Bench())
  {
  }

  /** A run of clocks in which the address register is not touched logs one entry each. */
  lemma LogsEach(s: Log, p: Port, now: nat, n: nat)
    requires forall j | 0 <= j < n :: Cycles(s, p, Bench().world, now, j).addr < P31
    ensures Written(s, p, Bench().world, now, n) == Numbered(LENGTH + now, n)
  {
    hide Cycles;
    var world := Bench().world;
    forall j | 0 <= j < n ensures Writes(Cycles(s, p, world, now, j), world(now + j)) {
      assert world(now + j) == Running(now + j);
    }
    WrittenAll(s, p, world, now, n);
  }

  lemma ReadLogs()
    ensures BeforeSeen(Filled(), Bench()) == [] && WhileReading(Filled(), Bench()) == Numbered(LENGTH, 8)
    ensures var a := DmiRead(Filled(), LogAddr, Bench()); Ready(a.s) && a.s.addr == 0 && a.now == 8 && a.k == 1
  {
    hide Fetching, Next, Written, Cycles;
    var l, e, p := Filled(), Bench(), ReadPort(LogAddr);
    FilledHolds();
    ReadAddrAccess(l, e);
    NoCycle(l.s, p, e.world, 0);
    LogsEach(l.s, p, 0, 0);
    forall j | 0 <= j < 2 ensures Cycles(l.s, p, e.world, 0, j).addr < P31 {
      HeldRead(l.s, p, e.world, 0, j);
    }
    LogsEach(l.s, p, 0, 2);
    HeldRead(l.s, p, e.world, 0, 2);
    var m := Cycles(l.s, p, e.world, 0, 2);
    forall j | 0 <= j < 6 ensures Cycles(m, Idle(p), e.world, 2, j).addr < P31 {
      SteadyRun(m, Idle(p), e.world, 2, j, 3);
    }
    LogsEach(m, Idle(p), 2, 6);
    assert Numbered(LENGTH, 2) + Numbered(LENGTH + 2, 6) == Numbered(LENGTH, 8);
  }

  /** Writing the stop bit: the first clock still logs an entry, the rest do not. */
  lemma StopHold(a: Link)
    requires Ready(a.s) && a.s.addr == 0 && a.now == 8
    ensures WrittenIn(a, WritePort(P31), Bench()) == Numbered(LENGTH + 8, 1)
  {
    hide Fetching, Next, Cycles, Numbered;
    var e, p := Bench(), WritePort(P31);
    NoCycle(a.s, p, e.world, 8);
    LogsEach(a.s, p, 8, 1);
    HeldWrite(a.s, p, e.world, 8, 1);
    HeldWrite(a.s, p, e.world, 8, 2);
    assert Written(a.s, p, e.world, 8, 2) == Written(a.s, p, e.world, 8, 1) + [];
    GapNone(Cycles(a.s, p, e.world, 8, 2), p, e.world, 10, 6, 1);
  }

  lemma StopLogs()
    ensures WhileStopping(Filled(), Bench()) == Numbered(LENGTH + 8, 1)
  {
    hide Fetching, Next, Cycles, SeenPtr, Numbered, WrittenIn, Bench, DmiRead, DmiWrite;
    var l, e := Filled(), Bench();
    FilledHolds();
    ReadLogs();
    var a := DmiRead(l, LogAddr, e);
    StopHold(a);
    WriteAccess(a, P31, e);
    SeenRange(l, e);
    WriteNone(DmiWrite(a, P31, e), P31 + 4 * SeenPtr(l, e), e);
  }

  lemma {:induction false} ResidueOdd(a: nat, d: nat)
    requires d > 0 && a % 2 == 1
    ensures Residue(a, 2 * d) % 2 == 1
  {
    if a >= 2 * d {
      ResidueOdd(a - 2 * d, d);
    }
  }

  lemma NineLogged()
    ensures var all := AllLogged(Filled(), Bench(), Numbered(0, LENGTH));
            Spaced(Bench()) && |SinceSeen(Filled(), Bench())| == 9 && |all| >= LENGTH && Distinct(Recent(all))
  {
    hide Holds, Fetching, BeforeSeen, WhileReading, WhileStopping, Filled, Bench, Residue, Tagged;
    TopLow();
    FilledHolds();
    ReadLogs();
    StopLogs();
    var all := AllLogged(Filled(), Bench(), Numbered(0, LENGTH));
    assert all == Numbered(0, LENGTH) + [] + (Numbered(LENGTH, 8) + Numbered(LENGTH + 8, 1));
    forall i, j | 0 <= i < j < LENGTH ensures Recent(all)[i] != Recent(all)[j] {
      TaggedAt(all, i + 9);
      TaggedAt(all, j + 9);
      TaggedApart(i + 9, j + 9);
    }
  }

  lemma TaggedApart(i: nat, j: nat)
    requires i < j < P32
    ensures Tagged(i) != Tagged(j)
  {
    assert Tagged(i)[0] == i && Tagged(j)[0] == j;
  }

  lemma TaggedAt(all: seq<Entry>, i: nat)
    requires all == Numbered(0, LENGTH) + [] + (Numbered(LENGTH, 8) + Numbered(LENGTH + 8, 1)) && i < LENGTH + 9
    ensures all[i] == Tagged(i)
  {
  }

  /** Whatever the length of the log, from two entries up: nine entries are logged after the write pointer has been
      read, and the dump is not the last LENGTH entries oldest first. */
  lemma RunningDump()
    requires LENGTH >= 2
    ensures var l, e, logged := Filled(), Bench(), Numbered(0, LENGTH);
            && Ready(l.s) && Spaced(e) && Holds(l.s, logged)
            && |SinceSeen(l, e)| == 9
            && |AllLogged(l, e, logged)| >= LENGTH
            && DumpOf(l, e) != Dwords(Recent(AllLogged(l, e, logged)))
  {
    hide DumpOf, Dwords, Holds, Fetching, SinceSeen, AllLogged, Distinct, Filled, Bench, Numbered;
    FilledHolds();
    NineLogged();
    ResidueOdd(9, Pow2(INDEX_BITS - 1));
    DumpIff(Filled(), Bench(), Numbered(0, LENGTH));
  }
}
