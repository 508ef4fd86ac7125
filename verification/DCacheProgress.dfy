/** Progress of the data cache: with a bus and a load/store unit that respond in time, every request completes within a
    bound. */
module DCacheProgress {
  import opened Wrappers
  import opened DCache
  import opened DCacheBus
  import opened DCacheControl
  import opened DCacheData
  import opened DCacheTheorems
  import opened DCacheComplete

  /** For how many cycles in a row the bus has stalled the cache, an ack has been due, and stage 0 has been held
      although stage 1 is free. */
  datatype Timers = Timers(stall: nat, ack: nat, hold: nat)

  predicate WantsBus(s: Regs) { (s.r1.wb.cyc && s.r1.wb.stb) || s.r1.phase == DoStcx }

  function NextTimers(t: Timers, s: Regs, e: Env, i: Inputs): Timers {
    Timers(if WantsBus(s) && i.stall then t.stall + 1 else 0,
           if e.queue != [] && !i.ack then t.ack + 1 else 0,
           if !s.r1.full && i.hold then t.hold + 1 else 0)
  }

  /** None of the three goes on for more than `n` cycles. */
  predicate Timely(t: Timers, n: nat) { t.stall <= n && t.ack <= n && t.hold <= n }

  // ----- a measure that every cycle decreases -----

  /** `k` bus events, at most `2 * n` cycles apart. */
  function Scale(k: nat, n: nat): nat { if k == 0 then 0 else Scale(k - 1, n) + 2 * n + 1 }

  lemma {:induction false} ScaleDrop(k: nat, m: nat, n: nat)
    requires k < m
    ensures Scale(k, n) + 2 * n + 1 <= Scale(m, n)
  {
    if k < m - 1 {
      ScaleDrop(k, m - 1, n);
    }
  }

  lemma ScaleMono(k: nat, m: nat, n: nat)
    requires k <= m
    ensures Scale(k, n) <= Scale(m, n)
  {
    if k < m {
      ScaleDrop(k, m, n);
    }
  }

  /** Strobes to be accepted plus acks to be received before the state machine is done. */
  function Events(s: Regs, e: Env): nat {
    match s.r1.phase
    case Reload =>
      var got := Got(s.r1);
      if got + |e.queue| <= ROWS_PER_LINE && got <= ROWS_PER_LINE
      then (ROWS_PER_LINE - got - |e.queue|) + (ROWS_PER_LINE - got) else 0
    case StoreWait => One(s.r1.wb.stb) + |e.queue| + One(s.r1.wb.stb)
    case _ => 0
  }

  function StallSlack(s: Regs, t: Timers, n: nat): nat
    requires Timely(t, n)
  {
    if WantsBus(s) then n - t.stall else n
  }

  function AckSlack(e: Env, t: Timers, n: nat): nat
    requires Timely(t, n)
  {
    if e.queue != [] then n - t.ack else n
  }

  function Bus(s: Regs, e: Env, t: Timers, n: nat): nat
    requires Timely(t, n)
  {
    Scale(Events(s, e), n) + StallSlack(s, t, n) + AckSlack(e, t, n)
  }

  /** A whole refill. */
  function Refill(n: nat): nat { Scale(2 * ROWS_PER_LINE, n) + 2 * n }

  /** Whatever can be ahead of a request in stage 1, and the request itself. */
  function Most(n: nat): nat { Scale(2 * ROWS_PER_LINE + 8, n) + 2 * n + 2 + Refill(n) }

  /** Cycles, at most, until the oldest request completes. */
  function Rank(s: Regs, e: Env, t: Timers, n: nat): nat
    requires Timely(t, n)
  {
    if !s.r1.full then 1 + (n - t.hold) + Most(n)
    else
      match s.r1.phase
      case Idle => 1 + Refill(n)
      case Reload => if s.r1.req.hitReload then Bus(s, e, t, n) else Bus(s, e, t, n) + 1 + Refill(n)
      case StoreWait => Bus(s, e, t, n) + 2 + Refill(n)
      case DoStcx => 1 + StallSlack(s, t, n)
  }

  function Limit(n: nat): nat { 1 + n + Most(n) }

  /** A cycle in which the bus moves leaves fewer events; one in which it does not uses up slack. */
  lemma BusStep(s: Regs, s': Regs, e: Env, e': Env, t: Timers, t': Timers, n: nat)
    requires Timely(t, n) && Timely(t', n)
    requires || Events(s', e') < Events(s, e)
             || (&& Events(s', e') == Events(s, e)
                 && StallSlack(s', t', n) <= StallSlack(s, t, n) && AckSlack(e', t', n) <= AckSlack(e, t, n)
                 && (StallSlack(s', t', n) < StallSlack(s, t, n) || AckSlack(e', t', n) < AckSlack(e, t, n)))
    ensures Bus(s', e', t', n) < Bus(s, e, t, n)
  {
    if Events(s', e') < Events(s, e) {
      ScaleDrop(Events(s', e'), Events(s, e), n);
    }
  }

  lemma ReloadBus(s: Regs, e: Env, t: Timers, c: Cycle, n: nat)
    requires Control(s, e) && Contract(s, e, c) && s.r1.phase == Reload && !LastAck(s, c.inp)
    requires Timely(t, n) && Timely(NextTimers(t, s, e, c.inp), n)
    ensures Bus(Next(s, c.inp), NextEnv(s, e, c), NextTimers(t, s, e, c.inp), n) < Bus(s, e, t, n)
  {
    hide NextDataOut, NextForward, NextRams, NextDout, NextValids, Unique, TagSync, StoreHitInv, Scale;
    RefillBusStep(s, e, c);
    RefillCursor(s, c.inp);
    BusStep(s, Next(s, c.inp), e, NextEnv(s, e, c), t, NextTimers(t, s, e, c.inp), n);
  }

  lemma StoreBus(s: Regs, e: Env, t: Timers, c: Cycle, n: nat)
    requires Control(s, e) && Contract(s, e, c) && s.r1.phase == StoreWait && s.r1.full
    requires !StoreDone(s, c.inp) && !Merging(s, c.inp)
    requires Timely(t, n) && Timely(NextTimers(t, s, e, c.inp), n)
    ensures Bus(Next(s, c.inp), NextEnv(s, e, c), NextTimers(t, s, e, c.inp), n) < Bus(s, e, t, n)
  {
    hide NextDataOut, NextForward, NextRams, NextDout, NextValids, Unique, TagSync, StoreHitInv, Scale;
    BusStep(s, Next(s, c.inp), e, NextEnv(s, e, c), t, NextTimers(t, s, e, c.inp), n);
  }

  /** What a bounded environment does in one cycle to the measure, if it does not complete the oldest request. */
  ghost predicate Nearer(s: Regs, e: Env, t: Timers, c: Cycle, n: nat)
    requires Shape(s) && Contract(s, e, c) && Timely(t, n) && Timely(NextTimers(t, s, e, c.inp), n)
  {
    var s' := Next(s, c.inp);
    && (s'.r1.full || s'.r0.full)
    && Rank(s', NextEnv(s, e, c), NextTimers(t, s, e, c.inp), n) < Rank(s, e, t, n)
  }

  lemma BusLeft(s: Regs, e: Env, t: Timers, n: nat)
    requires Shape(s) && RefillBus(s, e) && s.r1.phase == Reload && Timely(t, n)
    ensures 1 <= Events(s, e) <= 2 * ROWS_PER_LINE && Bus(s, e, t, n) >= 1
  {
    hide Scale;
    ScaleDrop(0, Events(s, e), n);
  }

  lemma NearerReload(s: Regs, e: Env, t: Timers, c: Cycle, n: nat)
    requires Control(s, e) && Contract(s, e, c) && s.r1.phase == Reload && s.r1.full
    requires Timely(t, n) && Timely(NextTimers(t, s, e, c.inp), n) && !Next(s, c.inp).r1.lsValid
    ensures Nearer(s, e, t, c, n)
  {
    hide NextDataOut, NextForward, NextRams, NextDout, NextValids, Unique, TagSync, StoreHitInv, Bus, Refill;
    CompletesOldest(s, e, c.inp);
    if LastAck(s, c.inp) {
      NoneLeft(s, e, c);
      BusLeft(s, e, t, n);
    } else {
      ReloadBus(s, e, t, c, n);
    }
  }

  /** A load that waits for a row of the line has it by the last ack. */
  lemma NoneLeft(s: Regs, e: Env, c: Cycle)
    requires Control(s, e) && Contract(s, e, c) && s.r1.full && LastAck(s, c.inp) && !Next(s, c.inp).r1.lsValid
    ensures !s.r1.req.hitReload
  {
    hide NextDataOut, NextForward, NextRams, NextDout, NextValids, Unique, TagSync, StoreHitInv;
  }

  lemma NearerStore(s: Regs, e: Env, t: Timers, c: Cycle, n: nat)
    requires Control(s, e) && Contract(s, e, c) && s.r1.phase == StoreWait && s.r1.full
    requires Timely(t, n) && Timely(NextTimers(t, s, e, c.inp), n) && !Next(s, c.inp).r1.lsValid
    ensures Nearer(s, e, t, c, n)
  {
    hide NextDataOut, NextForward, NextRams, NextDout, NextValids, Unique, TagSync, StoreHitInv, Bus, Refill;
    CompletesOldest(s, e, c.inp);
    if !StoreDone(s, c.inp) {
      StoreBus(s, e, t, c, n);
    }
  }

  lemma NearerStcx(s: Regs, e: Env, t: Timers, c: Cycle, n: nat)
    requires Control(s, e) && Contract(s, e, c) && s.r1.phase == DoStcx
    requires Timely(t, n) && Timely(NextTimers(t, s, e, c.inp), n) && !Next(s, c.inp).r1.lsValid
    ensures Nearer(s, e, t, c, n)
  {
    hide NextDataOut, NextForward, NextRams, NextDout, NextValids, Unique, TagSync, StoreHitInv;
  }

  /** A refill that starts now, or a store-conditional that waits for the bus. */
  lemma FreshRank(s: Regs, e: Env, c: Cycle, t: Timers, n: nat)
    requires Control(s, e) && Contract(s, e, c) && s.r1.phase == Idle && (s.r1.full || Go(s, c.inp))
    requires !Next(s, c.inp).r1.lsValid && Timely(t, n)
    ensures Next(s, c.inp).r1.full && Rank(Next(s, c.inp), NextEnv(s, e, c), t, n) <= Refill(n)
  {
    hide NextDataOut, NextForward, NextRams, NextDout, NextValids, Unique, TagSync, StoreHitInv, Scale;
    CompletesOldest(s, e, c.inp);
    RefillBusStep(s, e, c);
    ScaleDrop(0, 2 * ROWS_PER_LINE, n);
  }

  lemma NearerIdle(s: Regs, e: Env, t: Timers, c: Cycle, n: nat)
    requires Control(s, e) && Contract(s, e, c) && s.r1.phase == Idle && s.r1.full
    requires Timely(t, n) && Timely(NextTimers(t, s, e, c.inp), n) && !Next(s, c.inp).r1.lsValid
    ensures Nearer(s, e, t, c, n)
  {
    hide Control, Contract, Refill, Bus, NextR1;
    FreshRank(s, e, c, NextTimers(t, s, e, c.inp), n);
  }

  /** Nothing in stage 1 is further away than the most that can be ahead of it. */
  lemma RankMost(s: Regs, e: Env, t: Timers, n: nat)
    requires Control(s, e) && s.r1.full && Timely(t, n)
    ensures Rank(s, e, t, n) <= Most(n)
  {
    hide Scale, Unique, TagSync, StoreHitInv, MissInv;
    if s.r1.phase == Reload {
      BusLeft(s, e, t, n);
      ScaleMono(Events(s, e), 2 * ROWS_PER_LINE + 8, n);
    } else if s.r1.phase == StoreWait {
      ScaleMono(Events(s, e), 2 * ROWS_PER_LINE + 8, n);
    } else {
      ScaleMono(0, 2 * ROWS_PER_LINE + 8, n);
    }
  }

  lemma Shaped(s: Regs, e: Env)
    requires Control(s, e)
    ensures Shape(s)
  {
  }

  lemma NearerStage0(s: Regs, e: Env, t: Timers, c: Cycle, n: nat)
    requires Control(s, e) && Contract(s, e, c) && !s.r1.full && s.r0.full
    requires Timely(t, n) && Timely(NextTimers(t, s, e, c.inp), n) && !Next(s, c.inp).r1.lsValid
    ensures Nearer(s, e, t, c, n)
  {
    hide Control, Most, NextR1;
    Shaped(s, e);
    CompletesOldest(s, e, c.inp);
    ControlStep(s, e, c);
    if Next(s, c.inp).r1.full {
      RankMost(Next(s, c.inp), NextEnv(s, e, c), NextTimers(t, s, e, c.inp), n);
    }
  }

  /** Every cycle completes the oldest request or brings it nearer. */
  lemma RankStep(s: Regs, e: Env, t: Timers, c: Cycle, n: nat)
    requires Control(s, e) && Contract(s, e, c) && (s.r1.full || s.r0.full)
    requires Timely(t, n) && Timely(NextTimers(t, s, e, c.inp), n) && !Next(s, c.inp).r1.lsValid
    ensures Nearer(s, e, t, c, n)
  {
    hide Control, Nearer, Next;
    if !s.r1.full {
      NearerStage0(s, e, t, c, n);
    } else {
      match s.r1.phase
      case Idle => NearerIdle(s, e, t, c, n);
      case Reload => NearerReload(s, e, t, c, n);
      case StoreWait => NearerStore(s, e, t, c, n);
      case DoStcx => NearerStcx(s, e, t, c, n);
    }
  }

  // ----- runs -----

  datatype Timed = Timed(v: Served, t: Timers)

  ghost function TimedTick(x: Timed, c: Cycle): Timed
    requires Shape(x.v.s) && Contract(x.v.s, x.v.e, c)
  {
    Timed(Serve(x.v, c), NextTimers(x.t, x.v.s, x.v.e, c.inp))
  }

  /** A run in which nothing is waited for longer than `n` cycles. */
  ghost predicate TimedRun(x: Timed, cs: seq<Cycle>, n: nat)
    decreases |cs|
  {
    && Shape(x.v.s) && Timely(x.t, n)
    && (cs != [] ==> Contract(x.v.s, x.v.e, cs[0]) && TimedRun(TimedTick(x, cs[0]), cs[1..], n))
  }

  ghost function TimedAfter(x: Timed, cs: seq<Cycle>, n: nat): Timed
    requires TimedRun(x, cs, n)
    decreases |cs|
  {
    if cs == [] then x else TimedAfter(TimedTick(x, cs[0]), cs[1..], n)
  }

  ghost predicate Good(x: Timed) { Control(x.v.s, x.v.e) && OpenInv(x.v) }

  lemma GoodStep(x: Timed, c: Cycle)
    requires Good(x) && Contract(x.v.s, x.v.e, c)
    ensures Good(TimedTick(x, c)) && |x.v.prog| <= |TimedTick(x, c).v.prog|
  {
    hide Control, OpenInv, Next;
    ControlStep(x.v.s, x.v.e, c);
    OpenStep(x.v, c);
  }

  lemma {:induction false} TimedGood(x: Timed, cs: seq<Cycle>, n: nat)
    requires Good(x) && TimedRun(x, cs, n)
    ensures Good(TimedAfter(x, cs, n))
    decreases |cs|
  {
    hide Good, TimedTick;
    if cs != [] {
      GoodStep(x, cs[0]);
      TimedGood(TimedTick(x, cs[0]), cs[1..], n);
    }
  }

  /** Cycles, at most, until `goal` requests have completed. */
  ghost function Due(x: Timed, goal: nat, n: nat): nat
    requires Timely(x.t, n)
  {
    if x.v.done >= goal then 0
    else Rank(x.v.s, x.v.e, x.t, n) + (if x.v.done + 1 < goal then Limit(n) + 1 else 0)
  }

  lemma RankLimit(x: Timed, n: nat)
    requires Good(x) && Timely(x.t, n)
    ensures Rank(x.v.s, x.v.e, x.t, n) <= Limit(n)
  {
    hide Control, Most;
    if x.v.s.r1.full {
      RankMost(x.v.s, x.v.e, x.t, n);
    }
  }

  lemma DueStep(x: Timed, c: Cycle, goal: nat, n: nat)
    requires Good(x) && Contract(x.v.s, x.v.e, c) && Timely(x.t, n) && goal <= |x.v.prog|
    requires Timely(TimedTick(x, c).t, n)
    ensures Due(TimedTick(x, c), goal, n) < Due(x, goal, n) || Due(TimedTick(x, c), goal, n) == 0
  {
    hide Control, Next, Rank, Limit;
    Shaped(x.v.s, x.v.e);
    var y := TimedTick(x, c);
    GoodStep(x, c);
    RankLimit(y, n);
    if x.v.done < goal && !Next(x.v.s, c.inp).r1.lsValid {
      RankStep(x.v.s, x.v.e, x.t, c, n);
    }
  }

  lemma {:induction false} ServedInTime(x: Timed, cs: seq<Cycle>, goal: nat, n: nat)
    requires Good(x) && TimedRun(x, cs, n) && goal <= |x.v.prog| && |cs| >= Due(x, goal, n)
    ensures TimedAfter(x, cs, n).v.done >= goal
    decreases |cs|
  {
    hide Good, Rank, Next, Limit;
    if cs != [] {
      var y := TimedTick(x, cs[0]);
      GoodStep(x, cs[0]);
      DueStep(x, cs[0], goal, n);
      ServedInTime(y, cs[1..], goal, n);
    } else {
      RankPositive(x, n);
    }
  }

  lemma RankPositive(x: Timed, n: nat)
    requires Good(x) && Timely(x.t, n)
    ensures Rank(x.v.s, x.v.e, x.t, n) >= 1
  {
    hide Scale;
    if x.v.s.r1.full && x.v.s.r1.phase == Reload {
      BusLeft(x.v.s, x.v.e, x.t, n);
    }
  }

  /** In every run from reset in which the bus neither stalls a strobe nor withholds an ack, nor the load/store unit
      holds stage 0, for more than `n` cycles in a row, with or without writes by other masters: a bounded number of
      cycles after any point, every request handed over by then has completed. */
  lemma EveryRequestCompletes(x: Timed, cs: seq<Cycle>, ds: seq<Cycle>, n: nat)
    requires Reset(x.v.s, x.v.e) && x.v.prog == [] && x.v.done == 0 && TimedRun(x, cs, n)
    requires TimedRun(TimedAfter(x, cs, n), ds, n) && |ds| >= 2 * Limit(n) + 1
    ensures TimedAfter(TimedAfter(x, cs, n), ds, n).v.done >= |TimedAfter(x, cs, n).v.prog|
  {
    hide Control, Rank, Limit;
    ResetInv(x.v.s, x.v.e);
    TimedGood(x, cs, n);
    var y := TimedAfter(x, cs, n);
    RankLimit(y, n);
    ServedInTime(y, ds, |y.v.prog|, n);
  }

  // ----- requests are taken -----

  lemma {:induction false} TimedSplit(x: Timed, cs: seq<Cycle>, ds: seq<Cycle>, n: nat)
    requires TimedRun(x, cs + ds, n)
    ensures TimedRun(x, cs, n) && TimedRun(TimedAfter(x, cs, n), ds, n)
    ensures TimedAfter(TimedAfter(x, cs, n), ds, n) == TimedAfter(x, cs + ds, n)
    decreases |cs|
  {
    hide TimedTick, Contract;
    if cs == [] {
      assert cs + ds == ds;
    } else {
      assert (cs + ds)[1..] == cs[1..] + ds;
      TimedSplit(TimedTick(x, cs[0]), cs[1..], ds, n);
    }
  }

  lemma {:induction false} ProgGrows(x: Timed, cs: seq<Cycle>, n: nat)
    requires Good(x) && TimedRun(x, cs, n)
    ensures |x.v.prog| <= |TimedAfter(x, cs, n).v.prog|
    decreases |cs|
  {
    hide Good, TimedTick;
    if cs != [] {
      GoodStep(x, cs[0]);
      ProgGrows(TimedTick(x, cs[0]), cs[1..], n);
    }
  }

  lemma EmptyStep(x: Timed, c: Cycle)
    requires Good(x) && Contract(x.v.s, x.v.e, c) && !x.v.s.r0.full && !x.v.s.r1.full && c.inp.req.Some?
    ensures var y := TimedTick(x, c);
            if c.inp.hold
            then !y.v.s.r0.full && !y.v.s.r1.full && y.v.prog == x.v.prog && y.t.hold == x.t.hold + 1
            else |y.v.prog| > |x.v.prog|
  {
    hide Control, NextR1;
    Shaped(x.v.s, x.v.e);
    CompletesOldest(x.v.s, x.v.e, c.inp);
  }

  /** With nothing open, a request that is offered is taken as soon as stage 0 is not held. */
  lemma {:induction false} EmptyTakes(x: Timed, ds: seq<Cycle>, n: nat)
    requires Good(x) && TimedRun(x, ds, n) && !x.v.s.r0.full && !x.v.s.r1.full
    requires |ds| > n - x.t.hold && forall k | 0 <= k < |ds| :: ds[k].inp.req.Some?
    ensures |TimedAfter(x, ds, n).v.prog| > |x.v.prog|
    decreases |ds|
  {
    hide Good, Contract, TimedTick;
    var y := TimedTick(x, ds[0]);
    GoodStep(x, ds[0]);
    EmptyStep(x, ds[0]);
    if ds[0].inp.hold {
      EmptyTakes(y, ds[1..], n);
    } else {
      ProgGrows(y, ds[1..], n);
    }
  }

  lemma OffersFrom(y: Timed, ds: seq<Cycle>, n: nat)
    requires Good(y) && TimedRun(y, ds, n) && |ds| >= 2 * Limit(n) + n + 2
    requires forall k | 0 <= k < |ds| :: ds[k].inp.req.Some?
    ensures |TimedAfter(y, ds, n).v.prog| > |y.v.prog|
  {
    hide Good, TimedRun, TimedAfter, Rank, Limit;
    var m := 2 * Limit(n) + 1;
    assert ds == ds[..m] + ds[m..];
    TimedSplit(y, ds[..m], ds[m..], n);
    var z := TimedAfter(y, ds[..m], n);
    TimedGood(y, ds[..m], n);
    ProgGrows(y, ds[..m], n);
    if |z.v.prog| == |y.v.prog| {
      AllServed(y, ds[..m], n);
      EmptyTakes(z, ds[m..], n);
    } else {
      ProgGrows(z, ds[m..], n);
    }
  }

  /** If nothing was taken meanwhile, nothing is open any more. */
  lemma AllServed(y: Timed, cs: seq<Cycle>, n: nat)
    requires Good(y) && TimedRun(y, cs, n) && |cs| >= 2 * Limit(n) + 1
    requires |TimedAfter(y, cs, n).v.prog| == |y.v.prog|
    ensures var z := TimedAfter(y, cs, n); !z.v.s.r0.full && !z.v.s.r1.full && Timely(z.t, n)
  {
    hide Control, Rank, Limit, TimedTick, Contract;
    RankLimit(y, n);
    ServedInTime(y, cs, |y.v.prog|, n);
    TimedGood(y, cs, n);
    StaysTimely(y, cs, n);
  }

  lemma {:induction false} StaysTimely(x: Timed, cs: seq<Cycle>, n: nat)
    requires TimedRun(x, cs, n)
    ensures Timely(TimedAfter(x, cs, n).t, n)
    decreases |cs|
  {
    hide TimedTick, Contract;
    if cs != [] {
      StaysTimely(TimedTick(x, cs[0]), cs[1..], n);
    }
  }

  /** In every such run: if a request is offered in every cycle, one is taken within a bounded number of cycles. */
  lemma OffersTaken(x: Timed, cs: seq<Cycle>, ds: seq<Cycle>, n: nat)
    requires Reset(x.v.s, x.v.e) && x.v.prog == [] && x.v.done == 0 && TimedRun(x, cs, n)
    requires TimedRun(TimedAfter(x, cs, n), ds, n) && |ds| >= 2 * Limit(n) + n + 2
    requires forall k | 0 <= k < |ds| :: ds[k].inp.req.Some?
    ensures |TimedAfter(TimedAfter(x, cs, n), ds, n).v.prog| > |TimedAfter(x, cs, n).v.prog|
  {
    hide Good, Limit, Reset;
    GoodFromReset(x);
    TimedGood(x, cs, n);
    OffersFrom(TimedAfter(x, cs, n), ds, n);
  }

  lemma GoodFromReset(x: Timed)
    requires Reset(x.v.s, x.v.e) && x.v.prog == [] && x.v.done == 0
    ensures Good(x)
  {
    ResetInv(x.v.s, x.v.e);
  }
}
