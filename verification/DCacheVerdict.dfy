/** The verdict of every store-conditional, from requests, snoops, bus reads and completions alone. */
module DCacheVerdict {
  import opened Wrappers
  import opened DCache
  import opened DCacheBus
  import opened DCacheControl
  import opened DCacheData
  import opened DCacheTheorems
  import opened DCacheComplete

  /** A run as an observer sees it, and what the observer concludes: whether a reservation stands, the line of the last
      load-and-reserve, and the line snooped in the previous cycle. */
  datatype Observed = Observed(v: Served, standing: bool, line: Line, snooped: Option<Line>)

  predicate IsLarx(r: Request) { r.load && r.reserve }
  predicate IsStcx(r: Request) { !r.load && r.reserve }

  /** The request that completes in this cycle, if one does. */
  ghost function Completing(v: Served, c: Cycle): Option<Request>
    requires Shape(v.s) && Contract(v.s, v.e, c)
  {
    if Next(v.s, c.inp).r1.lsValid && v.done < |v.prog| then Some(v.prog[v.done]) else None
  }

  /** The request before it. */
  function Previous(v: Served): Option<Request> { if 0 < v.done <= |v.prog| then Some(v.prog[v.done - 1]) else None }

  /** The bus delivers the row of this address in this cycle. */
  predicate Delivers(e: Env, c: Cycle, a: Addr) { c.inp.ack && e.queue != [] && e.queue[0] == Read(a) }

  /** A load-and-reserve leaves stage 0. */
  predicate Leaves(s: Regs, c: Cycle) { s.r0.full && !s.r1.full && !c.inp.hold && IsLarx(s.r0.req) }

  /** The end of a store-conditional takes the reservation away. A load that completes on the row the bus delivers
      sets it, if it is a load-and-reserve that waited in stage 1, or if it comes straight from stage 0 and the
      request before it was one. A load-and-reserve that leaves stage 0 otherwise leaves a reservation exactly if it
      completes at once and its line was not snooped in the previous cycle. A snoop of the line takes the reservation
      away. */
  ghost predicate Stands(x: Observed, c: Cycle)
    requires Shape(x.v.s) && Contract(x.v.s, x.v.e, c)
  {
    var s, done := x.v.s, Completing(x.v, c);
    if done.Some? && IsStcx(done.value) then false
    else if done.Some? && done.value.load && Delivers(x.v.e, c, done.value.addr)
            && (if s.r1.full then done.value.reserve else Previous(x.v).Some? && Previous(x.v).value.reserve) then true
    else if Leaves(s, c) then
      done.Some? && !Delivers(x.v.e, c, done.value.addr) && x.snooped != Some(s.r0.req.addr.line)
    else x.standing && x.snooped != Some(x.line)
  }

  ghost function Observe(x: Observed, c: Cycle): Observed
    requires Shape(x.v.s) && Contract(x.v.s, x.v.e, c)
  {
    Observed(Serve(x.v, c), Stands(x, c), if Leaves(x.v.s, c) then x.v.s.r0.req.addr.line else x.line, c.inp.snoop)
  }

  /** While a line is being refilled, no other way holds it. */
  ghost predicate OnlySlot(s: Regs)
    requires Shape(s)
  {
    s.r1.phase == Reload && !s.r1.writeTag ==>
      forall w | w in s.valids[s.r1.storeIndex] && s.tags[s.r1.storeIndex][w] == s.r1.reloadTag :: w == s.r1.storeWay
  }

  lemma OnlySlotStep(s: Regs, e: Env, c: Cycle)
    requires Shape(s) && RefillSlot(s) && RefillBus(s, e) && IdleInv(s, e) && StoreInv(s, e) && StcxInv(s, e)
    requires OnlySlot(s) && Contract(s, e, c)
    ensures OnlySlot(Next(s, c.inp))
  {
    hide NextDataOut, NextForward, NextRams, NextDout;
  }

  /** Once a row of it has arrived, the tags read for a snoop are current in the slot being refilled as well. */
  ghost predicate SnoopFresh(s: Regs)
    requires Shape(s)
  {
    s.snoop.valid && s.r1.phase == Reload && Got(s.r1) > 0 ==> s.snoop.tags == s.tags[s.snoop.line.index]
  }

  lemma SnoopFreshStep(s: Regs, e: Env, c: Cycle)
    requires Shape(s) && RefillBus(s, e) && IdleInv(s, e) && Contract(s, e, c)
    ensures SnoopFresh(Next(s, c.inp))
  {
    hide NextDataOut, NextForward, NextRams, NextDout, NextValids;
  }

  /** The registers agree with the observer. */
  ghost predicate Agrees(x: Observed) {
    var s := x.v.s;
    && s.resv == Reservation(x.standing, x.line)
    && s.snoop.valid == x.snooped.Some? && (x.snooped.Some? ==> s.snoop.line == x.snooped.value)
    && (!s.r1.full && x.v.done > 0 ==> x.v.done <= |x.v.prog| && s.r1.req.reserve == x.v.prog[x.v.done - 1].reserve)
    && (s.r1.phase == Reload && !s.r1.full ==> x.v.done > 0)
  }

  ghost predicate Good(x: Observed) {
    Inv(x.v.s, x.v.e) && OpenInv(x.v) && OnlySlot(x.v.s) && SnoopFresh(x.v.s) && Agrees(x)
  }

  /** A hit is not on the row that the bus delivers. */
  lemma HitElsewhere(s: Regs, e: Env, c: Cycle)
    requires Control(s, e) && OnlySlot(s) && Contract(s, e, c) && OpLoadHit(s, c.inp)
    ensures !Delivers(e, c, s.r0.req.addr)
  {
    hide NextDataOut, NextForward;
    if Delivers(e, c, s.r0.req.addr) {
      assert e.queue[0] in e.queue && s.r1.phase == Reload;
      assert RowRead(s.r1, e.queue[0], 0);
      HitWayIn(s, c.inp);
      var w := HitWay(s, c.inp);
      HitsUnique(s, c.inp, w);
    }
  }

  /** A load completes on the delivered row exactly when the row it waits for arrives. */
  lemma DeliveredIff(s: Regs, e: Env, c: Cycle)
    requires Control(s, e) && OnlySlot(s) && Contract(s, e, c) && LoadCompletes(s, c.inp)
    ensures Delivers(e, c, if s.r1.full then s.r1.req.addr else s.r0.req.addr) <==> RowArrives(s, c.inp)
  {
    hide NextDataOut, NextForward;
    if RowArrives(s, c.inp) {
      assert RowRead(s.r1, e.queue[0], 0);
      if !s.r1.full {
        HitReloadLine(s, c.inp);
      }
    } else {
      HitElsewhere(s, e, c);
    }
  }

  /** The verdict, from what the observer knows: a store-conditional that ends has succeeded exactly if a reservation
      stands, its line has not been snooped in the previous cycle, and it is the line of the store-conditional. No other
      request is reported as failed. */
  ghost predicate Verdict(x: Observed, c: Cycle)
    requires Shape(x.v.s) && Contract(x.v.s, x.v.e, c)
  {
    var done, failed := Completing(x.v, c), Next(x.v.s, c.inp).r1.stcxFail;
    && (done.Some? && IsStcx(done.value) ==>
          (!failed <==> x.standing && x.snooped != Some(x.line) && x.line == done.value.addr.line))
    && (failed ==> done.Some? && IsStcx(done.value))
  }

  lemma VerdictHolds(x: Observed, c: Cycle)
    requires Good(x) && Contract(x.v.s, x.v.e, c)
    ensures Verdict(x, c)
  {
    hide NextDataOut, NextForward, NextRams, NextDout, NextValids, Unique, TagSync, StoreHitInv, AllFresh, SnoopInv,
      DoutSync;
    CompletesOldest(x.v.s, x.v.e, c.inp);
  }

  lemma StandsStep(x: Observed, c: Cycle)
    requires Good(x) && Contract(x.v.s, x.v.e, c)
    ensures Next(x.v.s, c.inp).resv == Reservation(Stands(x, c), Observe(x, c).line)
  {
    hide NextDataOut, NextForward, NextRams, NextDout, NextValids, StoreHitInv, AllFresh, DoutSync, ReqSnoopHit, IsHit,
      Hits, HitWay, HitReload, IdxReload, Unique, TagSync, RefillRows, RefillSlot, MissInv, CountInv, OnlySlot,
      SnoopFresh, SnoopInv, RefillBus, Delivers, DataSync, OwnerInv;
    var s, i := x.v.s, c.inp;
    CompletesOldest(s, x.v.e, i);
    if LoadCompletes(s, i) {
      DeliveredIff(s, x.v.e, c);
    }
    if OpLoadHit(s, i) {
      SnoopHitIff(s, x.v.e, i);
    }
  }

  /** On a hit, the snoop compare sees exactly a snoop of the line in the previous cycle. */
  lemma SnoopHitIff(s: Regs, e: Env, i: Inputs)
    requires Control(s, e) && SnoopInv(s) && SnoopFresh(s) && OnlySlot(s) && OpLoadHit(s, i)
    ensures ReqSnoopHit(s, i) <==> s.snoop.valid && s.snoop.line == s.r0.req.addr.line
  {
    HitWayIn(s, i);
    var w := HitWay(s, i);
    HitsUnique(s, i, w);
  }

  lemma AgreesStep(x: Observed, c: Cycle)
    requires Good(x) && Contract(x.v.s, x.v.e, c)
    ensures Agrees(Observe(x, c))
  {
    hide NextDataOut, NextForward, NextRams, NextDout, NextValids, NextResv, Unique, TagSync, StoreHitInv, AllFresh,
      SnoopInv, DoutSync, Stands, IsHit, Hits, HitWay, HitReload, IdxReload, RefillRows, RefillSlot, MissInv, CountInv,
      OnlySlot, SnoopFresh;
    StandsStep(x, c);
    CompletesOldest(x.v.s, x.v.e, c.inp);
  }

  lemma GoodStep(x: Observed, c: Cycle)
    requires Good(x) && Contract(x.v.s, x.v.e, c)
    ensures Good(Observe(x, c))
  {
    hide Next, OnlySlot, SnoopFresh, Agrees, OpenInv, Stands, AllFresh;
    InvStep(x.v.s, x.v.e, c);
    OpenStep(x.v, c);
    OnlySlotStep(x.v.s, x.v.e, c);
    SnoopFreshStep(x.v.s, x.v.e, c);
    AgreesStep(x, c);
  }

  ghost predicate ObservedRun(x: Observed, cs: seq<Cycle>)
    decreases |cs|
  {
    Shape(x.v.s) && (cs != [] ==> Contract(x.v.s, x.v.e, cs[0]) && ObservedRun(Observe(x, cs[0]), cs[1..]))
  }

  ghost function ObservedAfter(x: Observed, cs: seq<Cycle>): (z: Observed)
    requires ObservedRun(x, cs)
    ensures Shape(z.v.s)
    decreases |cs|
  {
    if cs == [] then x else ObservedAfter(Observe(x, cs[0]), cs[1..])
  }

  lemma {:induction false} ObservedInv(x: Observed, cs: seq<Cycle>)
    requires Good(x) && ObservedRun(x, cs)
    ensures Good(ObservedAfter(x, cs))
    decreases |cs|
  {
    hide Good, Observe;
    if cs != [] {
      GoodStep(x, cs[0]);
      ObservedInv(Observe(x, cs[0]), cs[1..]);
    }
  }

  /** Nothing has been requested or seen. */
  ghost predicate Begins(x: Observed) {
    Reset(x.v.s, x.v.e) && x.v.prog == [] && x.v.done == 0
    && !x.standing && x.line == x.v.s.resv.line && x.snooped.None?
  }

  /** In every run from reset, whatever is requested, snooped or written by others: the verdict of every store-
      conditional is the observer's. */
  lemma VerdictExact(x: Observed, cs: seq<Cycle>, c: Cycle)
    requires Begins(x) && ObservedRun(x, cs)
    requires var z := ObservedAfter(x, cs); Contract(z.v.s, z.v.e, c)
    ensures Verdict(ObservedAfter(x, cs), c)
  {
    hide Good, Verdict;
    BeginsGood(x);
    ObservedInv(x, cs);
    VerdictHolds(ObservedAfter(x, cs), c);
  }

  lemma BeginsGood(x: Observed)
    requires Begins(x)
    ensures Good(x)
  {
    ResetInv(x.v.s, x.v.e);
  }
}
