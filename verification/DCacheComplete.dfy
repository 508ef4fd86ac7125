/** Completions of the data cache: every request completes at most once, in program order. */
module DCacheComplete {
  import opened Wrappers
  import opened Rows
  import opened DCache
  import opened DCacheBus
  import opened DCacheControl
  import opened DCacheData
  import opened DCacheTheorems

  /** The reasons for raising ls_valid. */
  datatype Cause = LoadHit | Arrival | StoreStart | Merge | StcxFails | StcxSucceeds

  predicate Happens(s: Regs, i: Inputs, x: Cause)
    requires Shape(s)
  {
    match x
    case LoadHit => OpLoadHit(s, i)
    case Arrival => RowArrives(s, i)
    case StoreStart => PlainStart(s, i)
    case Merge => Merging(s, i)
    case StcxFails => StcxRefused(s, i) || StcxLost(s)
    case StcxSucceeds => StcxWins(s, i)
  }

  lemma RaisedIff(s: Regs, i: Inputs)
    requires Shape(s) && GoodInputs(i)
    ensures Next(s, i).r1.lsValid <==> exists x :: Happens(s, i, x)
  {
    hide NextDataOut, NextForward, NextRams, NextDout, NextValids;
    if Next(s, i).r1.lsValid {
      assert Happens(s, i, LoadHit) || Happens(s, i, Arrival) || Happens(s, i, StoreStart) || Happens(s, i, Merge)
          || Happens(s, i, StcxFails) || Happens(s, i, StcxSucceeds);
    }
  }

  lemma OneCause(s: Regs, e: Env, i: Inputs, x: Cause, y: Cause)
    requires Control(s, e) && GoodInputs(i) && Happens(s, i, x) && Happens(s, i, y)
    ensures x == y
  {
    hide NextDataOut, NextForward, NextRams, NextDout, NextValids;
  }

  /** Requests handed over so far, and how many of them have completed. */
  datatype Served = Served(s: Regs, e: Env, prog: seq<Request>, done: nat)

  ghost predicate ServedRun(v: Served, cs: seq<Cycle>)
    decreases |cs|
  {
    Shape(v.s) && (cs != [] ==> Contract(v.s, v.e, cs[0]) && ServedRun(Serve(v, cs[0]), cs[1..]))
  }

  ghost function Serve(v: Served, c: Cycle): Served
    requires Shape(v.s) && Contract(v.s, v.e, c)
  {
    Served(Next(v.s, c.inp), NextEnv(v.s, v.e, c),
           if Accept(v.s, c.inp) && c.inp.req.Some? then v.prog + [c.inp.req.value] else v.prog,
           if Next(v.s, c.inp).r1.lsValid then v.done + 1 else v.done)
  }

  ghost function ServedAfter(v: Served, cs: seq<Cycle>): (z: Served)
    requires ServedRun(v, cs)
    ensures Shape(z.s)
    decreases |cs|
  {
    if cs == [] then v else ServedAfter(Serve(v, cs[0]), cs[1..])
  }

  /** A request in stage 1 is this one. */
  predicate Is(q: MemReq, r: Request) {
    q.addr == r.addr && q.reserve == r.reserve && q.lmiss == r.load && q.store == !r.load
  }

  /** What has not completed is what stages 1 and 0 hold, in this order. */
  ghost predicate OpenInv(v: Served) {
    && |v.prog| == v.done + One(v.s.r1.full) + One(v.s.r0.full)
    && (v.s.r1.full ==> Is(v.s.r1.req, v.prog[v.done]))
    && (v.s.r0.full ==> v.s.r0.req == v.prog[|v.prog| - 1])
  }

  /** A completion takes the oldest request: the one in stage 1, or the one leaving stage 0. */
  lemma CompletesOldest(s: Regs, e: Env, i: Inputs)
    requires Control(s, e) && GoodInputs(i)
    ensures Next(s, i).r1.lsValid <==> (s.r1.full || Go(s, i)) && !Next(s, i).r1.full
    ensures !s.r1.full && Next(s, i).r1.full ==>
              Go(s, i) && Next(s, i).r1.req.addr == s.r0.req.addr && Next(s, i).r1.req.reserve == s.r0.req.reserve
              && Next(s, i).r1.req.lmiss == s.r0.req.load && Next(s, i).r1.req.store == !s.r0.req.load
    ensures s.r1.full && Next(s, i).r1.full ==>
              var q, q' := s.r1.req, Next(s, i).r1.req;
              q'.addr == q.addr && q'.reserve == q.reserve && q'.lmiss == q.lmiss && q'.store == q.store
  {
    hide NextDataOut, NextForward, NextRams, NextDout, NextValids, Unique, TagSync, StoreHitInv;
  }

  lemma OpenStep(v: Served, c: Cycle)
    requires Control(v.s, v.e) && Contract(v.s, v.e, c) && OpenInv(v)
    ensures OpenInv(Serve(v, c))
  {
    hide Control, NextR1;
    CompletesOldest(v.s, v.e, c.inp);
  }

  lemma {:induction false} ServedInv(v: Served, cs: seq<Cycle>)
    requires Control(v.s, v.e) && OpenInv(v) && ServedRun(v, cs)
    ensures var z := ServedAfter(v, cs); Control(z.s, z.e) && OpenInv(z)
    decreases |cs|
  {
    hide Control, OpenInv, Next;
    if cs != [] {
      ControlStep(v.s, v.e, cs[0]);
      OpenStep(v, cs[0]);
      ServedInv(Serve(v, cs[0]), cs[1..]);
    }
  }

  /** The request that a completion in this cycle is for. */
  function Oldest(s: Regs): (Addr, bool, bool) {
    if s.r1.full then (s.r1.req.addr, s.r1.req.lmiss, s.r1.req.reserve)
    else (s.r0.req.addr, s.r0.req.load, s.r0.req.reserve)
  }

  /** In every run, with or without writes by other masters: ls_valid is raised at most once per request and in
      program order, each time for one reason only and for the oldest request not completed yet; at most that of stage
      1 and that of stage 0 are open. */
  lemma CompletionOrder(v: Served, cs: seq<Cycle>, c: Cycle)
    requires Reset(v.s, v.e) && v.prog == [] && v.done == 0 && ServedRun(v, cs)
    requires var z := ServedAfter(v, cs); Contract(z.s, z.e, c)
    ensures var z := ServedAfter(v, cs);
            && z.done <= |z.prog| <= z.done + 2
            && (|z.prog| == z.done <==> !z.s.r0.full && !z.s.r1.full)
            && (Next(z.s, c.inp).r1.lsValid ==>
                  && z.done < |z.prog|
                  && var r := z.prog[z.done]; Oldest(z.s) == (r.addr, r.load, r.reserve))
            && (Next(z.s, c.inp).r1.lsValid <==> exists x :: Happens(z.s, c.inp, x))
            && (forall x, y | Happens(z.s, c.inp, x) && Happens(z.s, c.inp, y) :: x == y)
  {
    hide Next, Happens;
    ResetInv(v.s, v.e);
    ServedInv(v, cs);
    var z := ServedAfter(v, cs);
    RaisedIff(z.s, c.inp);
    CompletesOldest(z.s, z.e, c.inp);
    forall x, y | Happens(z.s, c.inp, x) && Happens(z.s, c.inp, y) ensures x == y {
      OneCause(z.s, z.e, c.inp, x, y);
    }
  }
}
