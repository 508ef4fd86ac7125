/** Reservations: a store-conditional reaches the bus only while memory still holds, in the reserved line, what the
    last load-and-reserve returned, and each load-and-reserve pays for at most one store-conditional. */
module DCacheReserve {
  import opened Wrappers
  import opened Rows
  import opened DCache
  import opened DCacheBus
  import opened DCacheControl
  import opened DCacheData
  import opened DCacheTheorems

  /** What the processor knows from its last load-and-reserve: the address, the value returned with its own later
      stores applied, and whether another master has written the line since the value was taken. */
  datatype Mark = Mark(addr: Addr, value: Row, touched: bool)

  predicate Touches(c: Cycle, l: Line) { c.foreign.Some? && c.foreign.value.addr.line == l }

  /** A load-and-reserve sets the mark when it takes its value; the end of any store-conditional clears it. */
  ghost function NextMark(m: Option<Mark>, s: Regs, e: Env, c: Cycle): Option<Mark>
    requires Shape(s)
  {
    if StcxEnds(s, c.inp) then None
    else if LoadCompletes(s, c.inp) && CompletedReserve(s, c.inp) then
      var a := CompletedAddr(s, c.inp);
      Some(Mark(a, NextDataOut(s, c.inp), Touches(c, a.line)))
    else
      match m
      case None => None
      case Some(k) => Some(Mark(k.addr, Perform(OwnStore(s, e, c.inp), k.addr, k.value),
                                k.touched || Touches(c, k.addr.line)))
  }

  ghost predicate MarkOk(m: Option<Mark>, s: Regs, e: Env) {
    && m.Some? && m.value.addr.line == s.resv.line && !m.value.touched
    && View(s, e, m.value.addr) == m.value.value
  }

  ghost predicate ResvInv(m: Option<Mark>, s: Regs, e: Env) {
    && (s.resv.valid && e.recent != Some(s.resv.line) ==> MarkOk(m, s, e))
    && (s.r1.phase == Reload && !s.r1.full && s.r1.req.reserve ==> MarkOk(m, s, e))
    && (s.r1.full && s.r1.req.lmiss && s.r1.req.reserve ==> s.resv.line == s.r1.req.addr.line)
  }

  /** The mark set in this cycle is good, unless another master writes the line in this very cycle. */
  lemma MarkSet(m: Option<Mark>, s: Regs, e: Env, c: Cycle)
    requires Inv(s, e) && ResvInv(m, s, e) && Contract(s, e, c)
    requires LoadCompletes(s, c.inp) && CompletedReserve(s, c.inp)
    requires e.recent != Some(CompletedAddr(s, c.inp).line)
    requires !Touches(c, CompletedAddr(s, c.inp).line)
    ensures MarkOk(NextMark(m, s, e, c), Next(s, c.inp), NextEnv(s, e, c))
  {
    var a := CompletedAddr(s, c.inp);
    ViewStep(s, e, c, a);
    if RowArrives(s, c.inp) {
      RefillValue(s, e, c);
    } else {
      LoadHitValue(s, e, c);
    }
  }

  lemma MarkKept(m: Option<Mark>, s: Regs, e: Env, c: Cycle)
    requires Inv(s, e) && MarkOk(m, s, e) && Contract(s, e, c) && !Touches(c, s.resv.line)
    requires !StcxEnds(s, c.inp) && !(LoadCompletes(s, c.inp) && CompletedReserve(s, c.inp))
    requires !(Go(s, c.inp) && s.r0.req.load && s.r0.req.reserve)
    ensures MarkOk(NextMark(m, s, e, c), Next(s, c.inp), NextEnv(s, e, c))
  {
    ViewStep(s, e, c, m.value.addr);
  }

  /** A reservation is not taken on a line that another master wrote in the previous cycle. */
  lemma SnoopSeen(s: Regs, e: Env, c: Cycle)
    requires Inv(s, e) && Contract(s, e, c) && OpLoadHit(s, c.inp)
    requires e.recent == Some(s.r0.req.addr.line)
    ensures ReqSnoopHit(s, c.inp)
  {
    HitWayIn(s, c.inp);
    var w := HitWay(s, c.inp);
    HitsUnique(s, c.inp, w);
    assert w < NUM_WAYS && w in Hits(s, c.inp);
  }

  /** Where a reservation that is valid after this cycle comes from. */
  lemma ResvSource(m: Option<Mark>, s: Regs, e: Env, c: Cycle)
    requires Inv(s, e) && ResvInv(m, s, e) && Contract(s, e, c)
    requires Next(s, c.inp).resv.valid
    ensures !StcxEnds(s, c.inp)
    ensures || (&& LoadCompletes(s, c.inp) && CompletedReserve(s, c.inp)
                && CompletedAddr(s, c.inp).line == Next(s, c.inp).resv.line
                && e.recent != Some(CompletedAddr(s, c.inp).line))
            || (&& MarkOk(m, s, e) && !(LoadCompletes(s, c.inp) && CompletedReserve(s, c.inp))
                && !(Go(s, c.inp) && s.r0.req.load && s.r0.req.reserve))
  {
    if RowArrives(s, c.inp) {
      RefillValue(s, e, c);
    } else if Go(s, c.inp) && s.r0.req.load && s.r0.req.reserve {
      if e.recent == Some(s.r0.req.addr.line) {
        SnoopSeen(s, e, c);
      }
    }
  }

  lemma ResvValidStep(m: Option<Mark>, s: Regs, e: Env, c: Cycle)
    requires Inv(s, e) && ResvInv(m, s, e) && Contract(s, e, c)
    requires Next(s, c.inp).resv.valid && NextEnv(s, e, c).recent != Some(Next(s, c.inp).resv.line)
    ensures MarkOk(NextMark(m, s, e, c), Next(s, c.inp), NextEnv(s, e, c))
  {
    ResvSource(m, s, e, c);
    if LoadCompletes(s, c.inp) && CompletedReserve(s, c.inp) {
      MarkSet(m, s, e, c);
    } else {
      MarkKept(m, s, e, c);
    }
  }

  /** During a refill the bus is ours, so a mark set in it stays good. */
  lemma ResvReloadStep(m: Option<Mark>, s: Regs, e: Env, c: Cycle)
    requires Inv(s, e) && ResvInv(m, s, e) && Contract(s, e, c)
    requires Next(s, c.inp).r1.phase == Reload && !Next(s, c.inp).r1.full && Next(s, c.inp).r1.req.reserve
    ensures MarkOk(NextMark(m, s, e, c), Next(s, c.inp), NextEnv(s, e, c))
  {
    assert s.r1.phase == Reload;
    assert c.foreign.None? && e.recent.None? && !StcxEnds(s, c.inp) by {
      if Got(s.r1) == 0 {
        assert RowArrives(s, c.inp);
      }
    }
    if LoadCompletes(s, c.inp) && CompletedReserve(s, c.inp) {
      MarkSet(m, s, e, c);
    } else {
      MarkKept(m, s, e, c);
    }
  }

  lemma ResvStep(m: Option<Mark>, s: Regs, e: Env, c: Cycle)
    requires Inv(s, e) && ResvInv(m, s, e) && Contract(s, e, c)
    ensures ResvInv(NextMark(m, s, e, c), Next(s, c.inp), NextEnv(s, e, c))
  {
    var s', e' := Next(s, c.inp), NextEnv(s, e, c);
    if s'.resv.valid && e'.recent != Some(s'.resv.line) {
      ResvValidStep(m, s, e, c);
    }
    if s'.r1.phase == Reload && !s'.r1.full && s'.r1.req.reserve {
      ResvReloadStep(m, s, e, c);
    }
  }

  /** Exactly when a completing load-and-reserve leaves a reservation: on a hit unless the line is being snooped out,
      on an arriving row if it waited in stage 1; one that meets its row straight from stage 0 depends on the stale
      request in stage 1. */
  lemma ReservedIff(s: Regs, e: Env, c: Cycle)
    requires Inv(s, e) && Contract(s, e, c) && LoadCompletes(s, c.inp) && CompletedReserve(s, c.inp)
    ensures Next(s, c.inp).resv.valid <==>
              if RowArrives(s, c.inp) then s.r1.full || s.r1.req.reserve else !ReqSnoopHit(s, c.inp)
    ensures Next(s, c.inp).resv.valid && !s.r1.full ==> Next(s, c.inp).resv.line == CompletedAddr(s, c.inp).line
  {
    if RowArrives(s, c.inp) {
      RefillValue(s, e, c);
    }
  }

  /** Cache, surroundings and mark along a run in which other masters may write. */
  datatype Watch = Watch(s: Regs, e: Env, mark: Option<Mark>)

  ghost predicate WatchRun(w: Watch, cs: seq<Cycle>)
    decreases |cs|
  {
    && Shape(w.s)
    && (cs != [] ==>
          && Contract(w.s, w.e, cs[0])
          && WatchRun(WatchTick(w, cs[0]), cs[1..]))
  }

  ghost function WatchTick(w: Watch, c: Cycle): Watch
    requires Shape(w.s) && Contract(w.s, w.e, c)
  {
    Watch(Next(w.s, c.inp), NextEnv(w.s, w.e, c), NextMark(w.mark, w.s, w.e, c))
  }

  ghost function Watched(w: Watch, cs: seq<Cycle>): (z: Watch)
    requires WatchRun(w, cs)
    ensures Shape(z.s)
    decreases |cs|
  {
    if cs == [] then w else Watched(WatchTick(w, cs[0]), cs[1..])
  }

  lemma {:induction false} WatchInv(w: Watch, cs: seq<Cycle>)
    requires Inv(w.s, w.e) && ResvInv(w.mark, w.s, w.e) && WatchRun(w, cs)
    ensures var z := Watched(w, cs); Inv(z.s, z.e) && ResvInv(z.mark, z.s, z.e)
    decreases |cs|
  {
    if cs != [] {
      InvStep(w.s, w.e, cs[0]);
      ResvStep(w.mark, w.s, w.e, cs[0]);
      WatchInv(WatchTick(w, cs[0]), cs[1..]);
    }
  }

  /** In every run, whatever other masters write: when a store-conditional goes out, there has been a load-and-reserve
      of its line with no store-conditional since, no other master has written the line since that load took its
      value or writes now, and memory holds that value with this processor's later stores. */
  lemma StcxAtomic(w: Watch, cs: seq<Cycle>, c: Cycle)
    requires Reset(w.s, w.e) && w.mark.None? && WatchRun(w, cs)
    requires Contract(Watched(w, cs).s, Watched(w, cs).e, c) && StcxWins(Watched(w, cs).s, c.inp)
    ensures var z := Watched(w, cs);
            && z.mark.Some? && !z.mark.value.touched && c.foreign.None?
            && z.mark.value.addr.line == z.s.r1.req.addr.line
            && MemRead(z.e.mem, z.mark.value.addr) == z.mark.value.value
            && WatchTick(z, c).mark.None?
            && WbOp(WatchTick(z, c).s) == ReqOp(z.s.r1.req)
  {
    ResetInv(w.s, w.e);
    WatchInv(w, cs);
    StcxOut(Watched(w, cs), c);
  }

  lemma StcxOut(z: Watch, c: Cycle)
    requires Inv(z.s, z.e) && ResvInv(z.mark, z.s, z.e) && Contract(z.s, z.e, c) && StcxWins(z.s, c.inp)
    ensures MarkOk(z.mark, z.s, z.e) && c.foreign.None?
    ensures MemRead(z.e.mem, z.mark.value.addr) == z.mark.value.value
    ensures WbOp(Next(z.s, c.inp)) == ReqOp(z.s.r1.req)
  {
  }
}
