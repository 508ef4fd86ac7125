/** The trace log of core_debug.vhdl: a ring of entries written every clock, and the debug port that reads it back. */
module LogRing {
  import opened Wrappers

  // ----- residues of multiples of a power of two -----

  function Residue(a: nat, d: nat): (r: nat)
    requires d > 0
    ensures r < d && r <= a
  {
    if a < d then a else Residue(a - d, d)
  }

  lemma {:induction false} ResidueDouble(a: nat, d: nat)
    requires d > 0
    ensures Residue(2 * a, 2 * d) == 2 * Residue(a, d)
  {
    if a >= d {
      ResidueDouble(a - d, d);
    }
  }

  lemma {:induction false} ResidueOne(a: nat)
    ensures Residue(a, 1) == 0
  {
    if a > 0 {
      ResidueOne(a - 1);
    }
  }

  lemma {:induction false} ResiduePow(m: nat, n: nat)
    requires n <= m
    ensures Residue(Pow2(m), Pow2(n)) == 0
  {
    if n == 0 {
      ResidueOne(Pow2(m));
    } else {
      ResiduePow(m - 1, n - 1);
      ResidueDouble(Pow2(m - 1), Pow2(n - 1));
    }
  }

  lemma {:induction false} ResidueAdd(a: nat, b: nat, d: nat)
    requires d > 0 && Residue(a, d) == 0
    ensures Residue(a + b, d) == Residue(b, d)
  {
    if a >= d {
      ResidueAdd(a - d, b, d);
    }
  }

  lemma {:induction false} ResidueNext(n: nat, d: nat)
    requires d > 0
    ensures Residue(n + 1, d) == if Residue(n, d) + 1 == d then 0 else Residue(n, d) + 1
  {
    if n >= d {
      ResidueNext(n - d, d);
    }
  }

  lemma {:induction false} ResidueSame(i: nat, n: nat, d: nat)
    requires d > 0 && i < n <= i + d && Residue(i, d) == Residue(n, d)
    ensures n == i + d
  {
    if i >= d {
      ResidueSame(i - d, n - d, d);
    }
  }

  lemma {:induction false} ResidueShift(n: nat, m: nat, d: nat)
    requires d > 0
    ensures Residue(n + m, d) == Residue(Residue(n, d) + m, d)
  {
    if n >= d {
      ResidueShift(n - d, m, d);
    }
  }

  /** Residue of an entry number and a doubleword number together. */
  lemma {:induction false} ResidueQuad(a: nat, c: nat, d: nat)
    requires d > 0 && c < 4
    ensures Residue(4 * a + c, 4 * d) == 4 * Residue(a, d) + c
  {
    if a >= d {
      ResidueQuad(a - d, c, d);
    }
  }

  lemma Powers()
    ensures Pow2(31) == P31
  {
    assert Pow2(10) == 1024;
    assert Pow2(20) == 0x10_0000;
  }

  /** The stop bit is above the low bits. */
  lemma StopLow(b: nat)
    ensures Low(P31 + b) == Low(b)
  {
    Powers();
    ResiduePow(31, INDEX_BITS + 2);
    ResidueAdd(P31, b, 4 * LENGTH);
  }

  lemma TopLow()
    ensures Low(P32 - 1) == 4 * LENGTH - 1 && 4 * LENGTH <= P31
  {
    StopLow(P31 - 1);
    StopLow(0);
    ResidueNext(P31 - 1, 4 * LENGTH);
  }

  /** Entry number and doubleword number fit below bit 31 of an address. */
  type IndexBits = n: nat | n <= 29 witness 0

  const INDEX_BITS: IndexBits
  const LENGTH: nat := Pow2(INDEX_BITS)

  type Dword = d: nat | d < P64 witness 0

  /** 256 bits, the least significant doubleword first. */
  type Entry = e: seq<Dword> | |e| == 4 witness [0, 0, 0, 0]
  type Ring = r: seq<Entry> | |r| == LENGTH witness Blank(LENGTH)

  function Blank(n: nat): (r: seq<Entry>)
    ensures |r| == n
  {
    if n == 0 then [] else Blank(n - 1) + [[0, 0, 0, 0]]
  }

  type Index = i: nat | i < LENGTH witness 0
  type Addr = a: nat | a < P32 witness 0

  datatype Reg = LogAddr | LogData | Other

  /** What the rest of the core drives in one clock: the entry to log, the address of the core's own reads, and
      whether a trigger has stopped the log. */
  datatype Outside = Outside(entry: Entry, readAddr: Addr, triggered: bool)

  /** The debug port in one clock. */
  datatype Port = Port(req: bool, wr: bool, reg: Reg, din: nat)

  datatype Log = Log(
    ring: Ring, wrPtr: Index, rdPtr: Index, rd: Entry,
    addr: Addr, data: Dword, readData: Dword,
    req1: bool, readLog: bool, readLog1: bool, doRead: bool, reading: bool, readDone: bool)

  predicate Rises(s: Log, p: Port) { p.req && !s.req1 }

  /** A read of the data register ended two clocks ago. */
  predicate ReadEnded(s: Log) { !s.readLog && s.readLog1 }

  predicate LoadsAddr(s: Log, p: Port) { Rises(s, p) && p.wr && p.reg == LogAddr }

  predicate Bumps(s: Log, p: Port) { !Rises(s, p) && ReadEnded(s) }

  predicate Writes(s: Log, o: Outside) { o.readAddr < P31 && s.addr < P31 && !o.triggered }

  /** The low bits of an address: entry number and doubleword number. */
  function Low(a: nat): nat { Residue(a, 4 * LENGTH) }

  function EntryOf(a: Addr): Index { Low(a) / 4 }

  function DwordOf(e: Entry, a: Addr): Dword { e[a % 4] }

  /** The low bits count, the rest stays. */
  function Bumped(a: Addr): Addr {
    TopLow();
    if Low(a) + 1 == 4 * LENGTH then a - Low(a) else a + 1
  }

  function After(i: Index): Index { if i + 1 == LENGTH then 0 else i + 1 }

  function NextAddr(s: Log, p: Port): nat {
    if LoadsAddr(s, p) then p.din % P32 else if Bumps(s, p) then Bumped(s.addr) else s.addr
  }

  function Next(s: Log, p: Port, o: Outside): Log {
    Log(
      if Writes(s, o) then s.ring[s.wrPtr := o.entry] else s.ring,
      if Writes(s, o) then After(s.wrPtr) else s.wrPtr,
      EntryOf(if s.doRead then s.addr else o.readAddr),
      s.ring[s.rdPtr],
      NextAddr(s, p),
      if s.readDone then DwordOf(s.rd, s.addr) else s.data,
      if s.readDone then s.readData else DwordOf(s.rd, o.readAddr),
      p.req, p.req && p.reg == LogData, s.readLog,
      LoadsAddr(s, p) || Bumps(s, p), s.doRead, s.reading)
  }

  /** What the port shows to a reader of a register. */
  function Dout(s: Log, reg: Reg): nat {
    match reg
    case LogAddr => (LENGTH + s.wrPtr) * P32 + s.addr
    case LogData => s.data
    case Other => 0
  }

  class CoreLog {
    var ring: Ring
    var wrPtr: Index
    var rdPtr: Index
    var rd: Entry
    var addr: Addr
    var data: Dword
    var readData: Dword
    var req1: bool
    var readLog: bool
    var readLog1: bool
    var doRead: bool
    var reading: bool
    var readDone: bool

    ghost function View(): Log
      reads this
    {
      Log(ring, wrPtr, rdPtr, rd, addr, data, readData, req1, readLog, readLog1, doRead, reading, readDone)
    }

    /** Process reg_write. */
    method RegWrite(p: Port)
      modifies this`addr, this`doRead, this`req1, this`readLog, this`readLog1
      ensures addr == NextAddr(old(View()), p) && doRead == (LoadsAddr(old(View()), p) || Bumps(old(View()), p))
      ensures req1 == p.req && readLog == (p.req && p.reg == LogData) && readLog1 == old(readLog)
    {
      doRead := false;
      if p.req && !req1 {
        if p.wr && p.reg == LogAddr {
          addr := p.din % P32;
          doRead := true;
        }
      } else if !readLog && readLog1 {
        addr := Bumped(addr);
        doRead := true;
      }
      req1 := p.req;
      readLog1 := readLog;
      readLog := p.req && p.reg == LogData;
    }

    /** Processes log_ram and log_buffer: the read registers take their values from before a write. */
    method LogBuffer(o: Outside)
      modifies this`ring, this`wrPtr, this`rdPtr, this`rd, this`data, this`readData, this`reading, this`readDone
      ensures ring == (if Writes(old(View()), o) then old(ring)[old(wrPtr) := o.entry] else old(ring))
      ensures wrPtr == (if Writes(old(View()), o) then After(old(wrPtr)) else old(wrPtr))
      ensures rdPtr == EntryOf(if doRead then addr else o.readAddr) && rd == old(ring[rdPtr])
      ensures data == (if old(readDone) then DwordOf(old(rd), addr) else old(data))
      ensures readData == (if old(readDone) then old(readData) else DwordOf(old(rd), o.readAddr))
      ensures reading == doRead && readDone == old(reading)
    {
      hide Residue, Low, EntryOf, DwordOf, After, Pow2;
      if readDone {
        data := DwordOf(rd, addr);
      } else {
        readData := DwordOf(rd, o.readAddr);
      }
      rd := ring[rdPtr];
      rdPtr := EntryOf(if doRead then addr else o.readAddr);
      if !(o.readAddr >= P31 || addr >= P31 || o.triggered) {
        ring := ring[wrPtr := o.entry];
        wrPtr := After(wrPtr);
      }
      readDone := reading;
      reading := doRead;
    }

    /** One rising edge of the clock. */
    method Clock(p: Port, o: Outside)
      modifies this
      ensures View() == Next(old(View()), p, o)
    {
      hide Residue, Low, EntryOf, DwordOf, Bumped, After, Pow2;
      LogBuffer(o);
      RegWrite(p);
    }
  }

  // ----- the ring -----

  /** The ring holds the last LENGTH of everything logged. */
  ghost predicate Holds(s: Log, logged: seq<Entry>) {
    && s.wrPtr == Residue(|logged|, LENGTH)
    && (forall i | 0 <= i < |logged| && |logged| <= i + LENGTH :: s.ring[Residue(i, LENGTH)] == logged[i])
  }

  lemma HoldsStep(s: Log, p: Port, o: Outside, logged: seq<Entry>)
    requires Holds(s, logged)
    ensures Holds(Next(s, p, o), if Writes(s, o) then logged + [o.entry] else logged)
  {
    hide EntryOf, DwordOf, NextAddr;
    if Writes(s, o) {
      var n := |logged|;
      ResidueNext(n, LENGTH);
      var more := logged + [o.entry];
      forall i | 0 <= i <= n && n + 1 <= i + LENGTH ensures Next(s, p, o).ring[Residue(i, LENGTH)] == more[i] {
        if i < n && Residue(i, LENGTH) == s.wrPtr {
          ResidueSame(i, n, LENGTH);
        }
      }
    }
  }

  datatype Cycle = Cycle(p: Port, o: Outside)

  ghost function Run(s: Log, xs: seq<Cycle>): Log
    decreases |xs|
  {
    if xs == [] then s else Run(Next(s, xs[0].p, xs[0].o), xs[1..])
  }

  /** Bit 31 of the core's log address and of the address register is clear, and no trigger has fired. */
  ghost predicate Recording(s: Log, o: Outside) {
    o.readAddr / 0x8000_0000 % 2 == 0 && s.addr / 0x8000_0000 % 2 == 0 && !o.triggered
  }

  lemma WritesIff(s: Log, o: Outside)
    ensures Writes(s, o) <==> Recording(s, o)
  {
  }

  /** The entries driven during a run in the clocks in which the log is recording. */
  ghost function LoggedIn(s: Log, xs: seq<Cycle>): seq<Entry>
    decreases |xs|
  {
    if xs == [] then []
    else (if Recording(s, xs[0].o) then [xs[0].o.entry] else []) + LoggedIn(Next(s, xs[0].p, xs[0].o), xs[1..])
  }

  /** After every run, whatever the port does meanwhile, the ring holds the last LENGTH of the entries driven while
      the log was recording. */
  lemma {:induction false} RingCorrect(s: Log, logged: seq<Entry>, xs: seq<Cycle>)
    requires Holds(s, logged)
    ensures Holds(Run(s, xs), logged + LoggedIn(s, xs))
    decreases |xs|
  {
    hide Next, Holds, Writes, Recording, Residue, Pow2;
    if xs == [] {
      assert logged + [] == logged;
    } else {
      var x := xs[0];
      WritesIff(s, x.o);
      var now := if Writes(s, x.o) then logged + [x.o.entry] else logged;
      HoldsStep(s, x.p, x.o, logged);
      RingCorrect(Next(s, x.p, x.o), now, xs[1..]);
      assert logged + LoggedIn(s, xs) == now + LoggedIn(Next(s, x.p, x.o), xs[1..]);
    }
  }

  ghost predicate AlwaysRecording(s: Log, xs: seq<Cycle>)
    decreases |xs|
  {
    xs != [] ==> Recording(s, xs[0].o) && AlwaysRecording(Next(s, xs[0].p, xs[0].o), xs[1..])
  }

  /** A run in which nothing stops the log records one entry per clock. */
  lemma {:induction false} RecordsEvery(s: Log, xs: seq<Cycle>)
    requires AlwaysRecording(s, xs)
    ensures LoggedIn(s, xs) == seq(|xs|, k requires 0 <= k < |xs| => xs[k].o.entry)
    decreases |xs|
  {
    hide Next, Recording;
    if xs != [] {
      RecordsEvery(Next(s, xs[0].p, xs[0].o), xs[1..]);
    }
  }
}
