/** What the data cache promises of loads: they see flat memory in program order. */
module DCacheTheorems {
  import opened Wrappers
  import opened Rows
  import opened DCache
  import opened DCacheBus
  import opened DCacheControl
  import opened DCacheData

  /** State after reset: nothing in flight, all lines invalid. */
  ghost predicate Reset(s: Regs, e: Env) {
    && Shape(s)
    && !s.r0.full && !s.r1.full && s.r1.phase == Idle
    && !s.r1.wb.cyc && !s.r1.wb.stb && !s.r1.writeBram && !s.r1.writeTag && !s.r1.reloading
    && (forall k | 0 <= k < NUM_LINES :: s.valids[k] == {})
    && !s.snoop.valid && !s.resv.valid
    && e.queue == [] && !e.granted && e.recent.None?
  }

  lemma ResetInv(s: Regs, e: Env)
    requires Reset(s, e)
    ensures Inv(s, e)
  {
  }

  // ----- one load -----

  lemma HitData(s: Regs, e: Env, c: Cycle, w: nat)
    requires Control(s, e) && DoutSync(s) && Contract(s, e, c)
    requires OpLoadHit(s, c.inp) && w in Hits(s, c.inp)
    ensures CacheOut(s, c.inp, w) == Cached(s, s.r0.req.addr.line.index, w, s.r0.req.addr.row)
  {
    HitsUnique(s, c.inp, w);
  }

  /** A load hit, forwarded or not, inside a line being refilled or not, returns the view of its address, without a
      write by another master in the previous cycle. */
  lemma LoadHitValue(s: Regs, e: Env, c: Cycle)
    requires Inv(s, e) && Contract(s, e, c) && OpLoadHit(s, c.inp)
    ensures NextDataOut(s, c.inp) == SeenView(s, e, s.r0.req.addr)
  {
    var a := s.r0.req.addr;
    HitWayIn(s, c.inp);
    var w := HitWay(s, c.inp);
    HitsUnique(s, c.inp, w);
    HitData(s, e, c, w);
    assert Fresh(s, e, a.line.index, w, a.row);
    OrMuxSingle(w, seq(NUM_WAYS, v requires 0 <= v < NUM_WAYS => CacheOut(s, c.inp, v)), NUM_WAYS);
  }

  /** A load completed by the row arriving from the bus returns the view of its address. */
  lemma RefillValue(s: Regs, e: Env, c: Cycle)
    requires Inv(s, e) && Contract(s, e, c) && RowArrives(s, c.inp)
    ensures NextDataOut(s, c.inp) == View(s, e, Cur(s, c.inp).addr)
    ensures c.foreign.None? && e.recent.None? && !OpLoadHit(s, c.inp)
  {
    ArrivingRow(s, e, c);
    if !s.r1.full {
      HitReloadLine(s, c.inp);
    }
  }

  /** The address of the load that completes in this cycle. */
  function CompletedAddr(s: Regs, i: Inputs): Addr
    requires Shape(s)
  {
    if RowArrives(s, i) then Cur(s, i).addr else s.r0.req.addr
  }

  predicate CompletedReserve(s: Regs, i: Inputs)
    requires Shape(s)
  {
    if RowArrives(s, i) then Cur(s, i).reserve else s.r0.req.reserve
  }

  // ----- flat memory in program order -----

  /** One request as the load/store unit hands it over, with the data it presents a cycle later. */
  datatype Access = Access(req: Request, data: Row)

  function AccessOp(x: Access): BusOp { Write(x.req.addr, x.req.sel, x.data) }

  datatype Flat = Flat(mem: map<Addr, Row>, loads: seq<Row>, conds: nat)

  /** A processor with one flat memory and no cache: every request takes effect at once, in order.
      `verdicts` says which store-conditionals succeeded; one without a verdict has not stored. */
  function Interp(prog: seq<Access>, verdicts: seq<bool>, mem: map<Addr, Row>): Flat {
    if prog == [] then Flat(mem, [], 0)
    else
      var f := Interp(prog[..|prog| - 1], verdicts, mem);
      var x := prog[|prog| - 1];
      if x.req.load then f.(loads := f.loads + [MemRead(f.mem, x.req.addr)])
      else if !x.req.reserve then f.(mem := MemApply(f.mem, AccessOp(x)))
      else Flat(if f.conds < |verdicts| && verdicts[f.conds] then MemApply(f.mem, AccessOp(x)) else f.mem,
                f.loads, f.conds + 1)
  }

  /** The cache, its surroundings, and a log: requests handed over, verdicts and load data handed back. */
  datatype World = World(s: Regs, e: Env, prog: seq<Access>, verdicts: seq<bool>, returned: seq<Row>)

  predicate StcxEnds(s: Regs, i: Inputs)
    requires Shape(s)
  {
    StcxRefused(s, i) || StcxLost(s) || StcxWins(s, i)
  }

  ghost predicate Legal(w: World, c: Cycle) { Shape(w.s) && Contract(w.s, w.e, c) }

  ghost function Tick(w: World, c: Cycle): (w': World)
    requires Legal(w, c)
    ensures Shape(w'.s)
  {
    World(Next(w.s, c.inp), NextEnv(w.s, w.e, c),
          if Accept(w.s, c.inp) && c.inp.req.Some? then w.prog + [Access(c.inp.req.value, c.data)] else w.prog,
          if StcxEnds(w.s, c.inp) then w.verdicts + [!Next(w.s, c.inp).r1.stcxFail] else w.verdicts,
          if LoadCompletes(w.s, c.inp) then w.returned + [Next(w.s, c.inp).r1.dataOut] else w.returned)
  }

  /** Every cycle keeps the contract; none brings a write by another master. */
  ghost predicate LegalRun(w: World, cs: seq<Cycle>)
    decreases |cs|
  {
    cs != [] ==> Legal(w, cs[0]) && cs[0].foreign.None? && LegalRun(Tick(w, cs[0]), cs[1..])
  }

  ghost function Run(w: World, cs: seq<Cycle>): World
    requires LegalRun(w, cs)
    decreases |cs|
  {
    if cs == [] then w else Run(Tick(w, cs[0]), cs[1..])
  }

  /** Requests that have left stage 0. */
  ghost function Processed(w: World): seq<Access>
    requires w.s.r0.full ==> w.prog != []
  {
    if w.s.r0.full then w.prog[..|w.prog| - 1] else w.prog
  }

  predicate CondPending(s: Regs) { s.r1.full && s.r1.req.store && s.r1.req.reserve }

  ghost predicate ProgInv(w: World) {
    w.s.r0.full ==> w.prog != [] && w.prog[|w.prog| - 1] == Access(w.s.r0.req, w.e.owed)
  }

  ghost predicate CondInv(w: World, mem0: map<Addr, Row>)
    requires ProgInv(w)
  {
    var p := Processed(w);
    && Interp(p, w.verdicts, mem0).conds == |w.verdicts| + (if CondPending(w.s) then 1 else 0)
    && (CondPending(w.s) ==> p != [] && !p[|p| - 1].req.load && p[|p| - 1].req.reserve
                             && AccessOp(p[|p| - 1]) == ReqOp(w.s.r1.req))
  }

  ghost predicate MemInv(w: World, mem0: map<Addr, Row>)
    requires ProgInv(w)
  {
    forall a :: View(w.s, w.e, a) == MemRead(Interp(Processed(w), w.verdicts, mem0).mem, a)
  }

  ghost predicate LoadInv(w: World, mem0: map<Addr, Row>)
    requires ProgInv(w)
  {
    Interp(Processed(w), w.verdicts, mem0).loads == w.returned + AwaitedBy(w.s, w.e)
  }

  ghost predicate WorldInv(w: World, mem0: map<Addr, Row>) {
    && Inv(w.s, w.e) && w.e.recent.None?
    && ProgInv(w) && CondInv(w, mem0) && MemInv(w, mem0) && LoadInv(w, mem0)
  }

  lemma TickParts(w: World, c: Cycle)
    requires Legal(w, c)
    ensures var z := Tick(w, c);
            && z.s.r0 == NextR0(w.s, c.inp) && z.e.owed == (if Accept(w.s, c.inp) then c.data else w.e.owed)
            && z.prog == if Accept(w.s, c.inp) && c.inp.req.Some?
                         then w.prog + [Access(c.inp.req.value, c.data)] else w.prog
  {
    hide NextR1, NextResv, StcxEnds, LoadCompletes, NextRams, NextValids, NextDout;
  }

  lemma ProgStep(w: World, c: Cycle)
    requires Legal(w, c) && ProgInv(w)
    ensures ProgInv(Tick(w, c))
    ensures Processed(Tick(w, c)) ==
              if Go(w.s, c.inp) then Processed(w) + [Access(w.s.r0.req, w.e.owed)] else Processed(w)
  {
    hide Tick, Next, NextEnv, StcxEnds, LoadCompletes;
    TickParts(w, c);
    if Go(w.s, c.inp) {
      assert w.prog == Processed(w) + [Access(w.s.r0.req, w.e.owed)];
    }
  }

  /** A verdict for a store-conditional not yet in the program changes nothing. */
  lemma {:induction false} InterpExtra(p: seq<Access>, verdicts: seq<bool>, v: bool, mem: map<Addr, Row>)
    requires Interp(p, verdicts, mem).conds <= |verdicts|
    ensures Interp(p, verdicts + [v], mem) == Interp(p, verdicts, mem)
  {
    if p != [] {
      InterpExtra(p[..|p| - 1], verdicts, v, mem);
    }
  }

  /** What one cycle adds to the flat execution. */
  ghost function Issue(f: Flat, s: Regs, e: Env, i: Inputs): Flat {
    if !Go(s, i) then f
    else if s.r0.req.load then f.(loads := f.loads + [MemRead(f.mem, s.r0.req.addr)])
    else if s.r0.req.reserve then f.(conds := f.conds + 1)
    else f.(mem := MemApply(f.mem, Write(s.r0.req.addr, s.r0.req.sel, e.owed)))
  }

  lemma IssueStep(w: World, c: Cycle, mem0: map<Addr, Row>)
    requires Legal(w, c) && ProgInv(w) && CondInv(w, mem0)
    ensures ProgInv(Tick(w, c))
    ensures Interp(Processed(Tick(w, c)), w.verdicts, mem0)
         == Issue(Interp(Processed(w), w.verdicts, mem0), w.s, w.e, c.inp)
  {
    ProgStep(w, c);
    if Go(w.s, c.inp) {
      var p' := Processed(Tick(w, c));
      assert p'[..|p'| - 1] == Processed(w);
    }
  }

  /** A store-conditional is pending from the cycle it leaves stage 0 until its verdict. */
  lemma CondFlow(s: Regs, e: Env, c: Cycle)
    requires Control(s, e) && DataSync(s, e) && Contract(s, e, c)
    ensures var s' := Next(s, c.inp);
            var enters := OpStore(s, c.inp) && s.r0.req.reserve;
            && CondPending(s') == ((CondPending(s) || enters) && !StcxEnds(s, c.inp))
            && (StcxEnds(s, c.inp) ==> CondPending(s) || enters)
            && (CondPending(s') && enters ==> ReqOp(s'.r1.req) == Write(s.r0.req.addr, s.r0.req.sel, e.owed))
            && (CondPending(s') && !enters ==> ReqOp(s'.r1.req) == ReqOp(s.r1.req))
            && (CondPending(s) ==> !Go(s, c.inp))
            && (StcxWins(s, c.inp) ==> CondPending(s))
            && (StcxEnds(s, c.inp) ==> s'.r1.stcxFail == !StcxWins(s, c.inp))
  {
  }

  lemma VerdictStep(w: World, c: Cycle, mem0: map<Addr, Row>)
    requires Legal(w, c) && Control(w.s, w.e) && DataSync(w.s, w.e) && ProgInv(w) && CondInv(w, mem0)
    ensures ProgInv(Tick(w, c)) && CondInv(Tick(w, c), mem0)
    ensures var f := Issue(Interp(Processed(w), w.verdicts, mem0), w.s, w.e, c.inp);
            var f' := Interp(Processed(Tick(w, c)), Tick(w, c).verdicts, mem0);
            && f'.loads == f.loads
            && f'.mem == if StcxWins(w.s, c.inp) then MemApply(f.mem, ReqOp(w.s.r1.req)) else f.mem
  {
    hide Control, DataSync, Next, Interp, MemApply, StcxWins, StcxLost, StcxRefused, CondPending, ReqOp;
    var w' := Tick(w, c);
    CondFlow(w.s, w.e, c);
    IssueStep(w, c, mem0);
    ProgStep(w, c);
    var p' := Processed(w');
    VerdictInterp(p', w.verdicts, StcxWins(w.s, c.inp), mem0, StcxEnds(w.s, c.inp));
  }

  /** Giving the last request, a store-conditional, its verdict. */
  lemma VerdictInterp(p: seq<Access>, verdicts: seq<bool>, v: bool, mem: map<Addr, Row>, ends: bool)
    requires ends ==> p != [] && !p[|p| - 1].req.load && p[|p| - 1].req.reserve
                      && Interp(p, verdicts, mem).conds == |verdicts| + 1
    ensures ends ==>
              var f := Interp(p, verdicts, mem);
              Interp(p, verdicts + [v], mem)
                == f.(mem := if v then MemApply(f.mem, AccessOp(p[|p| - 1])) else f.mem)
  {
    if ends {
      InterpExtra(p[..|p| - 1], verdicts, v, mem);
    }
  }

  lemma MemStep(w: World, c: Cycle, mem0: map<Addr, Row>)
    requires Legal(w, c) && WorldInv(w, mem0) && c.foreign.None?
    ensures ProgInv(Tick(w, c)) && MemInv(Tick(w, c), mem0)
  {
    var w' := Tick(w, c);
    VerdictStep(w, c, mem0);
    var f := Interp(Processed(w), w.verdicts, mem0);
    forall a ensures View(w'.s, w'.e, a) == MemRead(Interp(Processed(w'), w'.verdicts, mem0).mem, a) {
      ViewStep(w.s, w.e, c, a);
      match OwnStore(w.s, w.e, c.inp)
      case Some(op) => MemApplyRead(f.mem, op, a);
      case None =>
    }
  }

  ghost function AwaitedBy(s: Regs, e: Env): seq<Row> {
    if s.r1.full && s.r1.req.lmiss then [View(s, e, s.r1.req.addr)] else []
  }

  ghost function Issued(s: Regs, e: Env, i: Inputs): seq<Row> {
    if Go(s, i) && s.r0.req.load then [View(s, e, s.r0.req.addr)] else []
  }

  ghost function Handed(s: Regs, i: Inputs): seq<Row>
    requires Shape(s)
  {
    if LoadCompletes(s, i) then [NextDataOut(s, i)] else []
  }

  lemma LoadFlowWaiting(s: Regs, e: Env, c: Cycle)
    requires Inv(s, e) && Contract(s, e, c) && c.foreign.None?
    requires s.r1.full && s.r1.req.lmiss
    ensures AwaitedBy(s, e) == Handed(s, c.inp) + AwaitedBy(Next(s, c.inp), NextEnv(s, e, c))
  {
    ViewStep(s, e, c, s.r1.req.addr);
    if RowArrives(s, c.inp) {
      RefillValue(s, e, c);
    }
  }

  lemma LoadFlowIssued(s: Regs, e: Env, c: Cycle)
    requires Inv(s, e) && Contract(s, e, c) && c.foreign.None? && e.recent.None?
    requires Go(s, c.inp) && s.r0.req.load
    ensures Issued(s, e, c.inp) == Handed(s, c.inp) + AwaitedBy(Next(s, c.inp), NextEnv(s, e, c))
  {
    ViewStep(s, e, c, s.r0.req.addr);
    if RowArrives(s, c.inp) {
      RefillValue(s, e, c);
    } else if OpLoadHit(s, c.inp) {
      LoadHitValue(s, e, c);
    }
  }

  /** Loads are conserved: what waits or issues is handed back now, with the value of the view, or goes on waiting. */
  lemma LoadFlow(s: Regs, e: Env, c: Cycle)
    requires Inv(s, e) && Contract(s, e, c) && c.foreign.None? && e.recent.None?
    ensures AwaitedBy(s, e) + Issued(s, e, c.inp)
         == Handed(s, c.inp) + AwaitedBy(Next(s, c.inp), NextEnv(s, e, c))
  {
    if s.r1.full && s.r1.req.lmiss {
      LoadFlowWaiting(s, e, c);
    } else if Go(s, c.inp) && s.r0.req.load {
      LoadFlowIssued(s, e, c);
    } else {
      assert !LoadCompletes(s, c.inp);
    }
  }

  lemma LoadStep(w: World, c: Cycle, mem0: map<Addr, Row>)
    requires Legal(w, c) && WorldInv(w, mem0) && c.foreign.None?
    ensures ProgInv(Tick(w, c)) && LoadInv(Tick(w, c), mem0)
  {
    VerdictStep(w, c, mem0);
    LoadFlow(w.s, w.e, c);
    var f := Interp(Processed(w), w.verdicts, mem0);
    IssueLoads(f, w.s, w.e, c.inp);
    Regroup(w.returned, AwaitedBy(w.s, w.e), Issued(w.s, w.e, c.inp),
            Handed(w.s, c.inp), AwaitedBy(Next(w.s, c.inp), NextEnv(w.s, w.e, c)));
    TickReturned(w, c);
  }

  lemma TickReturned(w: World, c: Cycle)
    requires Legal(w, c)
    ensures Tick(w, c).returned == w.returned + Handed(w.s, c.inp)
  {
  }

  lemma IssueLoads(f: Flat, s: Regs, e: Env, i: Inputs)
    requires forall a :: View(s, e, a) == MemRead(f.mem, a)
    ensures Issue(f, s, e, i).loads == f.loads + Issued(s, e, i)
  {
  }

  lemma Regroup(returned: seq<Row>, awaited: seq<Row>, issued: seq<Row>, handed: seq<Row>, awaited': seq<Row>)
    requires awaited + issued == handed + awaited'
    ensures returned + awaited + issued == returned + handed + awaited'
  {
    assert returned + awaited + issued == returned + (awaited + issued);
    assert returned + handed + awaited' == returned + (handed + awaited');
  }

  lemma WorldStep(w: World, c: Cycle, mem0: map<Addr, Row>)
    requires WorldInv(w, mem0) && Legal(w, c) && c.foreign.None?
    ensures WorldInv(Tick(w, c), mem0)
  {
    InvStep(w.s, w.e, c);
    VerdictStep(w, c, mem0);
    MemStep(w, c, mem0);
    LoadStep(w, c, mem0);
  }

  lemma {:induction false} RunInv(w: World, cs: seq<Cycle>, mem0: map<Addr, Row>)
    requires WorldInv(w, mem0) && LegalRun(w, cs)
    ensures WorldInv(Run(w, cs), mem0)
    decreases |cs|
  {
    if cs != [] {
      WorldStep(w, cs[0], mem0);
      RunInv(Tick(w, cs[0]), cs[1..], mem0);
    }
  }

  ghost predicate Start(w: World) {
    Reset(w.s, w.e) && w.prog == [] && w.verdicts == [] && w.returned == []
  }

  lemma StartInv(w: World)
    requires Start(w)
    ensures WorldInv(w, w.e.mem)
  {
    ResetInv(w.s, w.e);
  }

  lemma OpenLoads(w: World, mem0: map<Addr, Row>)
    requires ProgInv(w) && LoadInv(w, mem0)
    ensures var flat := Interp(w.prog, w.verdicts, mem0).loads;
            && w.returned <= flat
            && |flat| <= |w.returned| + (if w.s.r1.full then 1 else 0) + (if w.s.r0.full then 1 else 0)
  {
  }

  /** In every run without writes by other masters, the loads handed back so far are, in order, the loads of the
      flat-memory execution of the program handed over; at most the load waiting for its refill and the request in
      stage 0 are still open. */
  lemma FlatMemory(w: World, cs: seq<Cycle>)
    requires Start(w) && LegalRun(w, cs)
    ensures var z := Run(w, cs);
            var flat := Interp(z.prog, z.verdicts, w.e.mem).loads;
            && z.returned <= flat
            && |flat| <= |z.returned| + (if z.s.r1.full then 1 else 0) + (if z.s.r0.full then 1 else 0)
  {
    StartInv(w);
    RunInv(w, cs, w.e.mem);
    OpenLoads(Run(w, cs), w.e.mem);
  }

  /** Once the cache is quiet, memory itself holds what the flat execution left. */
  lemma FlatMemoryQuiet(w: World, cs: seq<Cycle>, a: Addr)
    requires Start(w) && LegalRun(w, cs)
    ensures var z := Run(w, cs);
            !z.s.r0.full && !z.s.r1.full && z.s.r1.phase == Idle ==>
              && MemRead(z.e.mem, a) == MemRead(Interp(z.prog, z.verdicts, w.e.mem).mem, a)
              && z.returned == Interp(z.prog, z.verdicts, w.e.mem).loads
  {
    StartInv(w);
    RunInv(w, cs, w.e.mem);
  }
}
