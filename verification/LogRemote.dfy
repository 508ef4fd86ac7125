/** log_dump of mw_debug.c over the whole way to the log: host loops, transport and debug port. */
module LogRemote {
  import opened Wrappers
  import T = DmiTransport
  import H = DmiHost
  import opened LogLink
  import opened LogRing
  import opened LogPort
  import opened LogSession
  import opened LogDump

  /** Addresses of the two registers, the bits of a number, and what the data field of a read happens to hold. */
  datatype Registers = Registers(w: Wiring, logAddr: seq<bool>, logData: seq<bool>, bits: nat -> T.Data, junk: T.Data)

  ghost predicate GoodRegisters(r: Registers) {
    && |r.logAddr| == T.ABITS && |r.logData| == T.ABITS
    && r.w.reg(r.logAddr) == LogAddr && r.w.reg(r.logData) == LogData
    && (forall v: nat | v < P64 :: r.w.number(r.bits(v)) == v)
  }

  /** The link, the log, and everything logged so far. */
  datatype Line = Line(l: T.Link, g: Log, entries: seq<Entry>)

  ghost predicate AtRest(j: Line) { T.Start(j.l) && Ready(j.g) && Holds(j.g, j.entries) }

  function Begin(j: Line, word: T.Word): Call {
    Call(H.Session(j.l, H.ToCapture, word, [], word, true), j.g, Edges.Before, 0, j.g, j.entries, 0)
  }

  /** What happens during each call, until it returns. */
  type Host = Call -> seq<Happening>

  ghost predicate Serves(host: Host, w: Wiring) {
    forall q: Call | Called(q, w) :: AllowedRun(q, w, host(q)) && Returned(CallAfter(q, w, host(q)))
  }

  function Made(j: Line, word: T.Word, host: Host, w: Wiring): Call {
    CallAfter(Begin(j, word), w, host(Begin(j, word)))
  }

  function Onward(q: Call): Line { Line(q.h.l, q.g, q.entries) }

  lemma WordParts(op: seq<bool>, addr: seq<bool>, data: T.Data)
    requires |op| == 2 && |addr| == T.ABITS
    ensures var word: T.Word := H.MakeWord(op, addr, data);
            T.OpOf(word) == op && T.AddrOf(word) == addr && T.DataOf(word) == data
  {
  }

  lemma {:induction false} EntriesGrow(q: Call, w: Wiring, es: seq<Happening>)
    ensures q.entries <= CallAfter(q, w, es).entries
    decreases |es|
  {
    hide LogRing.Next, H.Next;
    if es != [] {
      EntriesGrow(NextCall(q, w, es[0]), w, es[1..]);
    }
  }

  /** One call of the host, made when all is at rest. */
  lemma CallMade(j: Line, word: T.Word, host: Host, w: Wiring)
    requires AtRest(j) && Serves(host, w) && T.OpValid(word) && Access(PortFor(word, w))
    ensures var p, z := PortFor(word, w), Made(j, word, host, w);
            && Returned(z) && T.Start(z.h.l) && Holds(z.g, z.entries) && j.entries <= z.entries
            && z.edges.After? && z.edges.n >= PIPELINE && Track(j.g, z.g, z.edges, p)
            && (!p.wr ==>
                  && Answer(z, w) == Dout(z.seen, p.reg) && Kept(j.g, z.seen) && Fetching(z.seen, 3)
                  && z.counted <= |z.entries| && Holds(z.seen, z.entries[..z.counted]))
  {
    hide Track, Holds, CallInv, AllowedRun, CallAfter, Fetching, Settled;
    var q := Begin(j, word);
    assert Called(q, w);
    CallBegins(q, w);
    var goal := H.Goal(word, j.l.accepted, |j.l.log|);
    CallRun(q, w, host(q), goal, j.g);
    CallEnds(Made(j, word, host, w), w, goal, j.g);
    EntriesGrow(q, w, host(q));
  }

  function ReadWord(addr: seq<bool>, junk: T.Data): T.Word
    requires |addr| == T.ABITS
  {
    H.MakeWord(T.OP_RD, addr, junk)
  }

  function WriteWord(addr: seq<bool>, data: T.Data): T.Word
    requires |addr| == T.ABITS
  {
    H.MakeWord(T.OP_WR, addr, data)
  }

  lemma RemoteReadAddr(j: Line, host: Host, r: Registers)
    requires AtRest(j) && GoodRegisters(r) && Serves(host, r.w)
    ensures var z := Made(j, ReadWord(r.logAddr, r.junk), host, r.w);
            && Returned(z) && AtRest(Onward(z)) && Kept(j.g, z.g) && j.entries <= z.entries
            && Answer(z, r.w) == (LENGTH + z.seen.wrPtr) * P32 + j.g.addr
            && (Stopped(j.g) ==> z.seen.wrPtr == j.g.wrPtr)
            && z.counted <= |z.entries| && z.seen.wrPtr == Residue(z.counted, LENGTH)
  {
    hide CallAfter, Holds, EntryOf, DwordOf;
    var word := ReadWord(r.logAddr, r.junk);
    WordParts(T.OP_RD, r.logAddr, r.junk);
    CallMade(j, word, host, r.w);
    var z := Made(j, word, host, r.w);
    HoldsPointer(z.seen, z.entries[..z.counted]);
  }

  lemma RemoteReadData(j: Line, host: Host, r: Registers)
    requires AtRest(j) && GoodRegisters(r) && Serves(host, r.w) && Stopped(j.g) && Bumped(j.g.addr) >= P31
    ensures var z := Made(j, ReadWord(r.logData, r.junk), host, r.w);
            && Returned(z) && AtRest(Onward(z)) && SameRing(j.g, z.g) && z.g.addr == Bumped(j.g.addr)
            && Answer(z, r.w) == Want(j.g)
  {
    hide CallAfter, Holds, EntryOf, DwordOf, Bumped;
    WordParts(T.OP_RD, r.logData, r.junk);
    CallMade(j, ReadWord(r.logData, r.junk), host, r.w);
  }

  lemma RemoteWrite(j: Line, v: nat, host: Host, r: Registers)
    requires AtRest(j) && GoodRegisters(r) && Serves(host, r.w) && v < P64
    ensures var z := Made(j, WriteWord(r.logAddr, r.bits(v)), host, r.w);
            && Returned(z) && AtRest(Onward(z)) && z.g.addr == v % P32 && j.entries <= z.entries
            && (Stopped(j.g) && Stopped(z.g) ==> SameRing(j.g, z.g))
  {
    hide CallAfter, Holds, EntryOf, DwordOf;
    WordParts(T.OP_WR, r.logAddr, r.bits(v));
    CallMade(j, WriteWord(r.logAddr, r.bits(v)), host, r.w);
  }

  /** The pointer that was read, against everything logged when the data is read. */
  lemma RemoteIff(g: Log, all: seq<Entry>, counted: nat, seen: Index)
    requires Holds(g, all) && counted <= |all| && LENGTH <= |all| && seen == Residue(counted, LENGTH)
    ensures Residue(|all| - counted, LENGTH) == 0 ==> DumpFrom(g.ring, seen) == Dwords(Recent(all))
    ensures Distinct(Recent(all)) && DumpFrom(g.ring, seen) == Dwords(Recent(all)) ==>
              Residue(|all| - counted, LENGTH) == 0
  {
    hide Residue, DumpFrom, Dwords, Distinct, Holds;
    HoldsPointer(g, all);
    OldestFirst(g, all);
    ResidueAgain(counted, |all| - counted, LENGTH);
    if Distinct(Recent(all)) {
      RingDistinct(g, all);
      RotationsDiffer(g.ring, seen, g.wrPtr);
    }
  }

  /** The loop of log_dump over the whole way. */
  method RemoteReadOut(j: Line, w: Index, count: nat, host: Host, r: Registers) returns (z: Line, out: seq<nat>)
    requires AtRest(j) && GoodRegisters(r) && Serves(host, r.w) && j.g.addr == P31 + 4 * w && count == 4 * LENGTH
    ensures AtRest(z) && Stopped(z.g) && SameRing(j.g, z.g) && out == DumpFrom(j.g.ring, w)
  {
    hide AtRest, Made, Answer, Bumped, Want, Low, DumpFrom, Serves, GoodRegisters, ReadWord;
    AddrStart(w);
    z, out := j, [];
    var i := 0;
    assert |r.logData| == T.ABITS by { GoodLengths(r); }
    while i < count
      invariant 0 <= i <= count && AtRest(z) && z.g.addr == AddrAfter(w, i) && SameRing(j.g, z.g)
      invariant out == DumpFrom(j.g.ring, w)[..i]
    {
      AddrStep(w, i);
      AddrWant(z.g, w, i);
      RemoteReadData(z, host, r);
      var q := Made(z, ReadWord(r.logData, r.junk), host, r.w);
      out := out + [Answer(q, r.w)];
      z := Onward(q);
      i := i + 1;
    }
  }

  lemma GoodLengths(r: Registers)
    requires GoodRegisters(r)
    ensures |r.logAddr| == T.ABITS && |r.logData| == T.ABITS
  {
  }

  /** log_dump with every access a whole dmi_read or dmi_write, under every interleaving of the clocks in which a poll
      takes at least as many system clocks as the read pipeline of the log. `all` is what had been logged when the
      data was read, `counted` how much of it when the write pointer was taken: once the log has wrapped, the file is
      the last LENGTH entries oldest first if the rest is a multiple of LENGTH and, for distinct entries, only then;
      on a log stopped by its address register it always is. The address register is put back. */
  method RemoteLogDump(j: Line, host: Host, r: Registers)
    returns (z: Line, out: seq<nat>, ghost all: seq<Entry>, ghost counted: nat)
    requires AtRest(j) && GoodRegisters(r) && Serves(host, r.w)
    ensures AtRest(z) && z.g.addr == j.g.addr && j.entries <= all && counted <= |all|
    ensures |all| >= LENGTH ==>
              && (Residue(|all| - counted, LENGTH) == 0 ==> out == Dwords(Recent(all)))
              && (Distinct(Recent(all)) ==> (out == Dwords(Recent(all)) <==> Residue(|all| - counted, LENGTH) == 0))
    ensures Stopped(j.g) ==> SameRing(j.g, z.g)
    ensures Stopped(j.g) && |j.entries| >= LENGTH ==> out == Dwords(Recent(j.entries))
  {
    hide Made, Answer, Serves, GoodRegisters, Low, DumpFrom, Dwords, Distinct, Residue, Holds, Ready, T.Start, ReadWord,
      WriteWord;
    GoodLengths(r);
    RemoteReadAddr(j, host, r);
    var q := Made(j, ReadWord(r.logAddr, r.junk), host, r.w);
    var orig := Answer(q, r.w);
    counted := q.counted;
    ghost var seen := q.seen.wrPtr;
    z := Onward(q);
    TopLow();
    if orig % P32 < P31 {
      RemoteWrite(z, P31, host, r);
      z := Onward(Made(z, WriteWord(r.logAddr, r.bits(P31)), host, r.w));
    }
    var waddr := orig / P32;
    var lsize := LogSize(waddr);
    waddr := WithoutTop(waddr, lsize);
    assert waddr == seen;
    RemoteWrite(z, P31 + 4 * waddr, host, r);
    z := Onward(Made(z, WriteWord(r.logAddr, r.bits(P31 + 4 * waddr)), host, r.w));
    all := z.entries;
    ghost var g := z.g;
    z, out := RemoteReadOut(z, waddr, lsize * 4, host, r);
    RemoteWrite(z, orig, host, r);
    z := Onward(Made(z, WriteWord(r.logAddr, r.bits(orig)), host, r.w));
    if |all| >= LENGTH {
      RemoteIff(g, all, counted, seen);
    }
    if Stopped(j.g) && |j.entries| >= LENGTH {
      OldestFirst(j.g, j.entries);
    }
  }
}
