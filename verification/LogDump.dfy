/** log_stop and log_dump of mw_debug.c over the log of core_debug.vhdl. */
module LogDump {
  import opened Wrappers
  import opened LogRing
  import opened LogPort

  lemma {:induction false} PowMonotone(m: nat, n: nat)
    requires m < n
    ensures 2 * Pow2(m) <= Pow2(n)
  {
    if m + 1 < n {
      PowMonotone(m, n - 1);
    }
  }

  /** Decodes the sentinel: the power of two that is the highest bit of `waddr`. */
  method LogSize(waddr: nat) returns (lsize: nat)
    requires waddr < P32
    ensures waddr < 2 * lsize
    ensures forall b: nat | Pow2(b) <= waddr < 2 * Pow2(b) :: lsize == Pow2(b)
  {
    ghost var n := 0;
    lsize := 1;
    while lsize != 0
      invariant lsize == Pow2(n) && lsize <= waddr + 1 && (n > 0 ==> 2 * Pow2(n - 1) <= waddr)
      decreases waddr + 1 - lsize
    {
      if waddr / 2 < lsize {
        break;
      }
      lsize := lsize * 2 % 0x1_0000_0000_0000_0000;
      n := n + 1;
    }
    forall b: nat | Pow2(b) <= waddr < 2 * Pow2(b) ensures b == n {
      if b < n {
        PowMonotone(b, n);
      } else if n < b {
        PowMonotone(n, b);
      }
    }
  }

  /** `w & ~p` for a power of two above half of `w`. */
  function WithoutTop(w: nat, p: nat): nat
    requires w < 2 * p
  {
    if w >= p then w - p else w
  }

  /** Doublewords of the ring from entry `w` on, all the way round. */
  ghost function DumpFrom(r: Ring, w: Index): (d: seq<nat>)
    ensures |d| == 4 * LENGTH
  {
    seq(4 * LENGTH, j requires 0 <= j < 4 * LENGTH => r[Residue(w + j / 4, LENGTH)][j % 4])
  }

  /** Doublewords of entries in order. */
  ghost function Dwords(es: seq<Entry>): seq<nat> {
    seq(4 * |es|, j requires 0 <= j < 4 * |es| => es[j / 4][j % 4])
  }

  lemma HeldAt(s: Log, logged: seq<Entry>, m: nat)
    requires Holds(s, logged) && |logged| >= LENGTH && m < LENGTH
    ensures s.ring[Residue(s.wrPtr + m, LENGTH)] == logged[|logged| - LENGTH + m]
  {
    var n := |logged|;
    ResidueShift(n, m, LENGTH);
    assert Residue(n + m, LENGTH) == Residue(n + m - LENGTH, LENGTH);
  }

  /** Once the log has wrapped, going round from the write pointer gives the last LENGTH entries, oldest first. */
  lemma OldestFirst(s: Log, logged: seq<Entry>)
    requires Holds(s, logged) && |logged| >= LENGTH
    ensures DumpFrom(s.ring, s.wrPtr) == Dwords(logged[|logged| - LENGTH..])
  {
    hide Holds, Residue;
    forall j | 0 <= j < 4 * LENGTH ensures DumpFrom(s.ring, s.wrPtr)[j] == Dwords(logged[|logged| - LENGTH..])[j] {
      HeldAt(s, logged, j / 4);
    }
  }

  /** With distinct entries, going round from different entries gives different dumps. */
  lemma RotationsDiffer(r: Ring, seen: Index, w: Index)
    requires forall i, j | 0 <= i < j < LENGTH :: r[i] != r[j]
    ensures DumpFrom(r, seen) == DumpFrom(r, w) <==> seen == w
  {
    if DumpFrom(r, seen) == DumpFrom(r, w) {
      forall j | 0 <= j < 4 ensures r[seen][j] == r[w][j] {
        assert DumpFrom(r, seen)[j] == r[seen][j] && DumpFrom(r, w)[j] == r[w][j];
      }
      assert r[seen] == r[w];
    }
  }

  /** Address of the doubleword after `i` reads from entry `w`. */
  ghost function AddrAfter(w: Index, i: nat): nat { P31 + Low(4 * w + i) }

  lemma AddrStart(w: Index)
    ensures AddrAfter(w, 0) == P31 + 4 * w
  {
  }

  lemma AddrStep(w: Index, i: nat)
    ensures AddrAfter(w, i) < P32 && Bumped(AddrAfter(w, i)) == AddrAfter(w, i + 1)
  {
    TopLow();
    StopLow(Low(4 * w + i));
    ResidueNext(4 * w + i, 4 * LENGTH);
  }

  lemma LowOfAddr(w: Index, i: nat)
    ensures Low(AddrAfter(w, i)) == Low(4 * w + i) == 4 * Residue(w + i / 4, LENGTH) + i % 4
    ensures AddrAfter(w, i) % 4 == i % 4
  {
    StopLow(Low(4 * w + i));
    assert 4 * (w + i / 4) + i % 4 == 4 * w + i;
    ResidueQuad(w + i / 4, i % 4, LENGTH);
  }

  lemma AddrWant(s: Log, w: Index, i: nat)
    requires s.addr == AddrAfter(w, i) && i < 4 * LENGTH
    ensures Want(s) == DumpFrom(s.ring, w)[i]
  {
    hide Low, Residue, AddrAfter;
    LowOfAddr(w, i);
  }

  /** The write pointer that the first read of log_dump sees. */
  function SeenPtr(l: Link, e: Env): int { ReadValue(l, LogAddr, e) / P32 - LENGTH }

  /** The link when the dump starts reading data. */
  function Begun(l: Link, e: Env): Link {
    var a := DmiRead(l, LogAddr, e);
    var b := if l.s.addr >= P31 then a else DmiWrite(a, P31, e);
    if SeenPtr(l, e) < 0 then b else DmiWrite(b, P31 + 4 * SeenPtr(l, e), e)
  }

  // ----- what log_dump gets from a log that may still be running -----

  /** Entries logged before the clock in which the first read is sampled. */
  ghost function BeforeSeen(l: Link, e: Env): seq<Entry> {
    Written(l.s, ReadPort(LogAddr), e.world, l.now, e.timing(l.k).sample)
  }

  /** The log at that clock. */
  function SeenLog(l: Link, e: Env): Log { Cycles(l.s, ReadPort(LogAddr), e.world, l.now, e.timing(l.k).sample) }

  /** Entries logged from that clock until the first read is over. */
  ghost function WhileReading(l: Link, e: Env): seq<Entry>
    requires Spaced(e)
  {
    var t, p := e.timing(l.k), ReadPort(LogAddr);
    Written(SeenLog(l, e), p, e.world, l.now + t.sample, t.hold - t.sample) +
    Written(Cycles(l.s, p, e.world, l.now, t.hold), Idle(p), e.world, l.now + t.hold, t.gap)
  }

  /** Entries logged by the writes of the address register that follow. */
  ghost function WhileStopping(l: Link, e: Env): seq<Entry> {
    var a := DmiRead(l, LogAddr, e);
    var b := if l.s.addr >= P31 then a else DmiWrite(a, P31, e);
    (if l.s.addr >= P31 then [] else WrittenIn(a, WritePort(P31), e)) +
    (if SeenPtr(l, e) < 0 then [] else WrittenIn(b, WritePort(P31 + 4 * SeenPtr(l, e)), e))
  }

  /** Entries logged from the clock in which the write pointer is read until the dump reads data. */
  ghost function SinceSeen(l: Link, e: Env): seq<Entry>
    requires Spaced(e)
  {
    WhileReading(l, e) + WhileStopping(l, e)
  }

  /** Everything logged when the dump reads data. */
  ghost function AllLogged(l: Link, e: Env, logged: seq<Entry>): seq<Entry>
    requires Spaced(e)
  {
    logged + BeforeSeen(l, e) + SinceSeen(l, e)
  }

  lemma SeenHolds(l: Link, e: Env, logged: seq<Entry>)
    requires Spaced(e) && Holds(l.s, logged)
    ensures Holds(DmiRead(l, LogAddr, e).s, logged + BeforeSeen(l, e) + WhileReading(l, e))
    ensures SeenPtr(l, e) == Residue(|logged + BeforeSeen(l, e)|, LENGTH)
  {
    hide Cycles, Written, Residue, Next;
    var t, p := e.timing(l.k), ReadPort(LogAddr);
    var before, seen := BeforeSeen(l, e), SeenLog(l, e);
    var m := Cycles(l.s, p, e.world, l.now, t.hold);
    var x := Written(seen, p, e.world, l.now + t.sample, t.hold - t.sample);
    var y := Written(m, Idle(p), e.world, l.now + t.hold, t.gap);
    WrittenHolds(l.s, p, e.world, l.now, t.sample, logged);
    WrittenHolds(seen, p, e.world, l.now + t.sample, t.hold - t.sample, logged + before);
    CyclesJoin(l.s, p, e.world, l.now, t.sample, t.hold - t.sample);
    WrittenHolds(m, Idle(p), e.world, l.now + t.hold, t.gap, logged + before + x);
    assert logged + before + x + y == logged + before + (x + y);
    SeenValue(l, e);
  }

  lemma SeenValue(l: Link, e: Env)
    ensures SeenPtr(l, e) == SeenLog(l, e).wrPtr
  {
    hide Cycles;
    var s := SeenLog(l, e);
    assert ReadValue(l, LogAddr, e) == (LENGTH + s.wrPtr) * P32 + s.addr;
  }

  lemma BegunHolds(l: Link, e: Env, logged: seq<Entry>)
    requires Spaced(e) && Holds(l.s, logged)
    ensures Holds(Begun(l, e).s, AllLogged(l, e, logged))
  {
    hide Holds, Cycles, Written, Residue, WrittenIn, Accessed, ReadValue, BeforeSeen, WhileReading;
    SeenHolds(l, e, logged);
    SeenValue(l, e);
    var base := logged + BeforeSeen(l, e) + WhileReading(l, e);
    var a := DmiRead(l, LogAddr, e);
    var b := if l.s.addr >= P31 then a else DmiWrite(a, P31, e);
    var x := if l.s.addr >= P31 then [] else WrittenIn(a, WritePort(P31), e);
    assert Holds(b.s, base + x) by {
      if l.s.addr >= P31 {
        assert base + x == base;
      } else {
        AccessHolds(a, WritePort(P31), e, base);
      }
    }
    var p := WritePort(P31 + 4 * SeenPtr(l, e));
    AccessHolds(b, p, e, base + x);
    assert base + x + WrittenIn(b, p, e) == AllLogged(l, e, logged);
  }

  lemma {:induction false} ResidueAgain(a: nat, n: nat, d: nat)
    requires d > 0
    ensures Residue(a + n, d) == Residue(a, d) <==> Residue(n, d) == 0
  {
    if n >= d {
      ResidueAgain(a, n - d, d);
      assert Residue(a + n, d) == Residue(a + n - d, d);
    } else {
      ResidueShift(a, n, d);
    }
  }

  /** The last LENGTH entries. */
  ghost function Recent(all: seq<Entry>): seq<Entry>
    requires |all| >= LENGTH
  {
    all[|all| - LENGTH..]
  }

  ghost predicate Distinct(es: seq<Entry>) { forall i, j | 0 <= i < j < |es| :: es[i] != es[j] }

  lemma RingDistinct(s: Log, all: seq<Entry>)
    requires Holds(s, all) && |all| >= LENGTH && Distinct(Recent(all))
    ensures forall i, j | 0 <= i < j < LENGTH :: s.ring[i] != s.ring[j]
  {
    forall i, j | 0 <= i < j < LENGTH ensures s.ring[i] != s.ring[j] {
      var m, n := AgeOf(s, i), AgeOf(s, j);
      HeldAt(s, all, m);
      HeldAt(s, all, n);
      assert Recent(all)[m] == s.ring[i] && Recent(all)[n] == s.ring[j];
    }
  }

  /** Steps from the write pointer to entry `i`. */
  ghost function AgeOf(s: Log, i: Index): (m: Index)
    ensures Residue(s.wrPtr + m, LENGTH) == i
  {
    if i >= s.wrPtr then i - s.wrPtr else i + LENGTH - s.wrPtr
  }

  lemma HoldsPointer(s: Log, all: seq<Entry>)
    requires Holds(s, all)
    ensures s.wrPtr == Residue(|all|, LENGTH)
  {
  }

  /** What log_dump writes to its file. */
  ghost function DumpOf(l: Link, e: Env): seq<nat> {
    if 0 <= SeenPtr(l, e) < LENGTH then DumpFrom(Begun(l, e).s.ring, SeenPtr(l, e)) else []
  }

  /** On any log that has wrapped when the data is read: if the entries logged since the write pointer was read go round
      the ring a whole number of times, the dump is the last LENGTH entries oldest first; with distinct entries, only
      then. */
  lemma DumpIff(l: Link, e: Env, logged: seq<Entry>)
    requires Spaced(e) && Holds(l.s, logged) && |AllLogged(l, e, logged)| >= LENGTH
    ensures var recent := Recent(AllLogged(l, e, logged));
            && (Residue(|SinceSeen(l, e)|, LENGTH) == 0 ==> DumpOf(l, e) == Dwords(recent))
            && (Distinct(recent) && DumpOf(l, e) == Dwords(recent) ==> Residue(|SinceSeen(l, e)|, LENGTH) == 0)
  {
    hide Begun, SinceSeen, BeforeSeen, Residue, DumpFrom, Dwords, SeenPtr, Distinct, Holds;
    var all, z := AllLogged(l, e, logged), Begun(l, e).s;
    var n := |logged + BeforeSeen(l, e)|;
    SeenHolds(l, e, logged);
    BegunHolds(l, e, logged);
    assert z.wrPtr == Residue(|all|, LENGTH) by { HoldsPointer(z, all); }
    OldestFirst(z, all);
    ResidueAgain(n, |SinceSeen(l, e)|, LENGTH);
    if Distinct(Recent(all)) {
      RingDistinct(z, all);
      RotationsDiffer(z.ring, SeenPtr(l, e), z.wrPtr);
    }
  }

  /** The log stands still from the start of log_dump until it reads data: stopped by its address register, by a trigger
      or by the core's own read address. */
  ghost predicate Frozen(l: Link, e: Env) { Stopped(l.s) || HaltedFor(e.world, l.now, Begun(l, e).now) }

  lemma StoppedNone(l: Link, e: Env)
    requires Ready(l.s) && Spaced(e) && Stopped(l.s)
    ensures BeforeSeen(l, e) == [] && SinceSeen(l, e) == []
  {
    hide Cycles, Written, WrittenIn, Fetching, SeenPtr;
    var t, p := e.timing(l.k), ReadPort(LogAddr);
    NoCycle(l.s, p, e.world, l.now);
    HeldReadNone(l.s, p, e.world, l.now, 0, t.sample);
    HeldReadNone(l.s, p, e.world, l.now, t.sample, t.hold - t.sample);
    HeldRead(l.s, p, e.world, l.now, t.hold);
    GapNone(Cycles(l.s, p, e.world, l.now, t.hold), p, e.world, l.now + t.hold, t.gap, 3);
    ReadAddrAccess(l, e);
    SeenRange(l, e);
    WriteNone(DmiRead(l, LogAddr, e), P31 + 4 * SeenPtr(l, e), e);
  }

  lemma SeenRange(l: Link, e: Env)
    ensures 0 <= SeenPtr(l, e) && P31 + 4 * SeenPtr(l, e) < P32
  {
    SeenValue(l, e);
    TopLow();
  }

  lemma HaltedReading(l: Link, e: Env)
    requires Spaced(e) && HaltedFor(e.world, l.now, DmiRead(l, LogAddr, e).now)
    ensures BeforeSeen(l, e) == [] && WhileReading(l, e) == []
  {
    hide Cycles, Written;
    var t, p := e.timing(l.k), ReadPort(LogAddr);
    HaltedNone(l.s, p, e.world, l.now, t.sample);
    HaltedNone(SeenLog(l, e), p, e.world, l.now + t.sample, t.hold - t.sample);
    HaltedNone(Cycles(l.s, p, e.world, l.now, t.hold), Idle(p), e.world, l.now + t.hold, t.gap);
  }

  lemma HaltedStopping(l: Link, e: Env)
    requires !Stopped(l.s) && SeenPtr(l, e) >= 0 && HaltedFor(e.world, l.now, Begun(l, e).now)
    ensures WhileStopping(l, e) == [] && l.now <= DmiRead(l, LogAddr, e).now <= Begun(l, e).now
  {
    hide Cycles, Written, WrittenIn, SeenPtr;
    var a := DmiRead(l, LogAddr, e);
    var b := DmiWrite(a, P31, e);
    HaltedIn(a, WritePort(P31), e);
    HaltedIn(b, WritePort(P31 + 4 * SeenPtr(l, e)), e);
  }

  /** Nothing is logged during log_dump on a frozen log. */
  lemma FrozenNone(l: Link, e: Env)
    requires Ready(l.s) && Spaced(e) && Frozen(l, e)
    ensures BeforeSeen(l, e) == [] && SinceSeen(l, e) == []
  {
    hide WhileReading, WhileStopping, BeforeSeen, SeenPtr, Fetching, Settled, Begun, DmiRead;
    if Stopped(l.s) {
      StoppedNone(l, e);
    } else {
      SeenRange(l, e);
      HaltedStopping(l, e);
      HaltedReading(l, e);
    }
  }

  /** On a log that was stopped, however, and had wrapped, the dump is the last LENGTH entries oldest first. */
  lemma FrozenDump(l: Link, e: Env, logged: seq<Entry>)
    requires Ready(l.s) && Spaced(e) && Frozen(l, e) && Holds(l.s, logged) && |logged| >= LENGTH
    ensures AllLogged(l, e, logged) == logged && DumpOf(l, e) == Dwords(Recent(logged))
  {
    hide Begun, SinceSeen, BeforeSeen, DumpOf, Dwords, Holds;
    FrozenNone(l, e);
    assert logged + [] + [] == logged;
    DumpIff(l, e, logged);
  }

  /** log_stop: reports the length of the log and the pointer of the next write, with the log stopped. */
  method LogStop(l: Link, e: Env) returns (z: Link, lsize: nat, waddr: nat)
    requires Ready(l.s) && Spaced(e)
    ensures Ready(z.s) && Stopped(z.s) && lsize == LENGTH && waddr == z.s.wrPtr
  {
    hide Fetching, Settled, ReadValue, DmiRead, DmiWrite;
    WriteAccess(l, P31, e);
    z := DmiWrite(l, P31, e);
    ReadAddrAccess(z, e);
    var laddr := ReadValue(z, LogAddr, e);
    z := DmiRead(z, LogAddr, e);
    waddr := laddr / P32;
    TopLow();
    lsize := LogSize(waddr);
    waddr := WithoutTop(waddr, lsize);
  }

  /** The loop of log_dump. */
  method ReadOut(l: Link, w: Index, count: nat, e: Env) returns (z: Link, out: seq<nat>)
    requires Ready(l.s) && Spaced(e) && l.s.addr == P31 + 4 * w && count == 4 * LENGTH
    ensures Ready(z.s) && Stopped(z.s) && z.s.ring == l.s.ring && z.s.wrPtr == l.s.wrPtr
    ensures out == DumpFrom(l.s.ring, w)
  {
    hide Fetching, Settled, ReadValue, DmiRead, Bumped, Want, Low, DumpFrom;
    AddrStart(w);
    z, out := l, [];
    var i := 0;
    while i < count
      invariant 0 <= i <= count && Ready(z.s) && z.s.addr == AddrAfter(w, i)
      invariant z.s.ring == l.s.ring && z.s.wrPtr == l.s.wrPtr
      invariant out == DumpFrom(l.s.ring, w)[..i]
    {
      AddrStep(w, i);
      AddrWant(z.s, w, i);
      ReadDataAccess(z, e);
      out := out + [ReadValue(z, LogData, e)];
      z := DmiRead(z, LogData, e);
      i := i + 1;
    }
  }

  /** log_dump. The file holds the whole ring from the write pointer that was read first, and the address register is
      put back. If the log has wrapped, that is the last LENGTH entries oldest first exactly when (for distinct
      entries) the number of entries logged since the pointer was read is a multiple of LENGTH; on a log that was
      stopped before, by any of the three ways, it always is. */
  method LogDump(l: Link, e: Env) returns (z: Link, out: seq<nat>)
    requires Ready(l.s) && Spaced(e)
    ensures Ready(z.s) && z.s.addr == l.s.addr
    ensures 0 <= SeenPtr(l, e) < LENGTH && out == DumpFrom(Begun(l, e).s.ring, SeenPtr(l, e)) == DumpOf(l, e)
    ensures Stopped(l.s) ==> z.s.ring == l.s.ring && z.s.wrPtr == l.s.wrPtr && SeenPtr(l, e) == l.s.wrPtr
    ensures forall logged | Holds(l.s, logged) && |AllLogged(l, e, logged)| >= LENGTH ::
              var recent := Recent(AllLogged(l, e, logged));
              && (Residue(|SinceSeen(l, e)|, LENGTH) == 0 ==> out == Dwords(recent))
              && (Distinct(recent) ==> (out == Dwords(recent) <==> Residue(|SinceSeen(l, e)|, LENGTH) == 0))
    ensures forall logged | Holds(l.s, logged) && |logged| >= LENGTH && Frozen(l, e) ::
              SinceSeen(l, e) == [] && out == Dwords(Recent(logged))
  {
    hide Fetching, Settled, ReadValue, DmiRead, DmiWrite, Bumped, Holds, Want, Low, DumpFrom, SinceSeen, AllLogged,
      Distinct, Dwords, Frozen, Recent, Residue;
    ReadAddrAccess(l, e);
    var orig := ReadValue(l, LogAddr, e);
    z := DmiRead(l, LogAddr, e);
    if orig % P32 < P31 {
      WriteAccess(z, P31, e);
      z := DmiWrite(z, P31, e);
    }
    var waddr := orig / P32;
    TopLow();
    var lsize := LogSize(waddr);
    waddr := WithoutTop(waddr, lsize);
    WriteAccess(z, P31 + 4 * waddr, e);
    z := DmiWrite(z, P31 + 4 * waddr, e);
    z, out := ReadOut(z, waddr, lsize * 4, e);
    WriteAccess(z, orig, e);
    z := DmiWrite(z, orig, e);
    DumpPromises(l, e);
  }

  lemma DumpPromises(l: Link, e: Env)
    requires Ready(l.s) && Spaced(e)
    ensures forall logged | Holds(l.s, logged) && |AllLogged(l, e, logged)| >= LENGTH ::
              var recent := Recent(AllLogged(l, e, logged));
              && (Residue(|SinceSeen(l, e)|, LENGTH) == 0 ==> DumpOf(l, e) == Dwords(recent))
              && (Distinct(recent) ==> (DumpOf(l, e) == Dwords(recent) <==> Residue(|SinceSeen(l, e)|, LENGTH) == 0))
    ensures forall logged | Holds(l.s, logged) && |logged| >= LENGTH && Frozen(l, e) ::
              SinceSeen(l, e) == [] && DumpOf(l, e) == Dwords(Recent(logged))
  {
    hide SinceSeen, AllLogged, Distinct, Dwords, Frozen, DumpOf, Holds, Residue;
    forall logged | Holds(l.s, logged) && |AllLogged(l, e, logged)| >= LENGTH
      ensures var recent := Recent(AllLogged(l, e, logged));
              && (Residue(|SinceSeen(l, e)|, LENGTH) == 0 ==> DumpOf(l, e) == Dwords(recent))
              && (Distinct(recent) && DumpOf(l, e) == Dwords(recent) ==> Residue(|SinceSeen(l, e)|, LENGTH) == 0)
    {
      DumpIff(l, e, logged);
    }
    forall logged | Holds(l.s, logged) && |logged| >= LENGTH && Frozen(l, e)
      ensures SinceSeen(l, e) == [] && DumpOf(l, e) == Dwords(Recent(logged))
    {
      FrozenNone(l, e);
      FrozenDump(l, e, logged);
    }
  }
}
