/** A call over the whole way to the log can always return. */
module LogReach {
  import opened Wrappers
  import T = DmiTransport
  import H = DmiHost
  import opened LogLink
  import opened LogRing
  import opened LogPort
  import opened LogSession
  import opened LogRemote

  /** Some happenings lead from one point of a call to another. */
  ghost predicate Reaches(q: Call, w: Wiring, z: Call) {
    exists es :: AllowedRun(q, w, es) && CallAfter(q, w, es) == z
  }

  lemma {:induction false} RunJoin(q: Call, w: Wiring, es: seq<Happening>, fs: seq<Happening>)
    requires AllowedRun(q, w, es) && AllowedRun(CallAfter(q, w, es), w, fs)
    ensures AllowedRun(q, w, es + fs) && CallAfter(q, w, es + fs) == CallAfter(CallAfter(q, w, es), w, fs)
    decreases |es|
  {
    hide Allowed, NextCall;
    if es == [] {
      assert es + fs == fs;
    } else {
      RunJoin(NextCall(q, w, es[0]), w, es[1..], fs);
      assert (es + fs)[1..] == es[1..] + fs;
    }
  }

  lemma ReachesJoin(q: Call, w: Wiring, y: Call, z: Call)
    requires Reaches(q, w, y) && Reaches(y, w, z)
    ensures Reaches(q, w, z)
  {
    hide AllowedRun, CallAfter;
    var es :| AllowedRun(q, w, es) && CallAfter(q, w, es) == y;
    var fs :| AllowedRun(y, w, fs) && CallAfter(y, w, fs) == z;
    RunJoin(q, w, es, fs);
  }

  lemma ReachesOne(q: Call, w: Wiring, e: Happening)
    requires Allowed(q, w, e)
    ensures Reaches(q, w, NextCall(q, w, e))
  {
    hide Allowed, NextCall;
    assert AllowedRun(NextCall(q, w, e), w, [e][1..]);
    assert AllowedRun(q, w, [e]) && CallAfter(q, w, [e]) == NextCall(q, w, e);
  }

  /** The log is running, say. */
  const SOME: Outside := Outside([0, 0, 0, 0], 0, false)

  /** core_debug's outputs settle. */
  function Settling(q: Call, r: Registers): Happening {
    Happening(H.Line(T.SlaveMove(q.h.l.d.req1, r.bits(Dout(q.g, r.w.reg(T.AddrOf(q.h.l.d.request)))))), SOME)
  }

  function Ticking(tap: Option<T.Tap>, sys: bool): Happening { Happening(H.Line(T.Clocks(tap, sys)), SOME) }

  lemma DoutFits(g: Log, reg: Reg)
    ensures Dout(g, reg) < P64
  {
    TopLow();
  }

  /** The outputs settle, then the clocks tick. */
  function Tock(q: Call, r: Registers, tap: Option<T.Tap>, sys: bool): Call {
    NextCall(NextCall(q, r.w, Settling(q, r)), r.w, Ticking(tap, sys))
  }

  lemma SettleAllowed(q: Call, r: Registers, goal: H.Goal, g0: Log)
    requires CallInv(q, r.w, goal, g0) && GoodRegisters(r)
    ensures var y := NextCall(q, r.w, Settling(q, r));
            && Allowed(q, r.w, Settling(q, r)) && Answers(y, r.w) && CallInv(y, r.w, goal, g0)
            && y.h == q.h.(l := y.h.l) && y.h.l.d == q.h.l.d && y.h.l.s.ack == q.h.l.d.req1 && y.polled == q.polled
  {
    hide CallInv, Dout;
    DoutFits(q.g, r.w.reg(T.AddrOf(q.h.l.d.request)));
    ShiftRange(q, r.w, goal, g0);
    CallStep(q, r.w, Settling(q, r), goal, g0);
  }

  lemma ShiftRange(q: Call, w: Wiring, goal: H.Goal, g0: Log)
    requires CallInv(q, w, goal, g0)
    ensures q.h.stage == H.Shifting ==> |q.h.received| < H.WordLength()
  {
  }

  /** What a tick does to the synchronizers. */
  predicate Clocked(d: T.Dtm, d': T.Dtm, tap: Option<T.Tap>, sys: bool) {
    && d'.req0 == (if sys then d.jtagReq else d.req0) && d'.req1 == (if sys then d.req0 else d.req1)
    && (tap.Some? ==> d'.ack0 == d.req1 && d'.ack1 == d.ack0
                      && d'.jtagReq == (T.Accepts(d, tap.value) || (d.jtagReq && !d.ack1)))
    && (tap.None? ==> d'.ack0 == d.ack0 && d'.ack1 == d.ack1 && d'.jtagReq == d.jtagReq)
  }

  /** What a tick does to a call. */
  ghost predicate Ticked(q: Call, z: Call, tap: Option<T.Tap>, sys: bool)
    requires q.h.stage == H.Shifting ==> |q.h.received| < H.WordLength()
  {
    && z.polled == (if tap.Some? && tap.value.capture then 0 else q.polled + One(sys))
    && z.h == (if tap.Some? then H.HostTick(q.h, tap.value) else q.h).(l := z.h.l)
    && Clocked(q.h.l.d, z.h.l.d, tap, sys)
  }

  lemma TickDoes(y: Call, w: Wiring, tap: Option<T.Tap>, sys: bool)
    requires y.h.stage == H.Shifting ==> |y.h.received| < H.WordLength()
    requires y.h.l.s.ack == y.h.l.d.req1
    ensures Ticked(y, NextCall(y, w, Ticking(tap, sys)), tap, sys)
  {
    hide LogRing.Next, Writes, T.OpOf, T.DataOf, T.AddrOf, T.NextRequest, T.NextShiftr, T.Accepts;
  }

  lemma TickAllowed(y: Call, w: Wiring, tap: Option<T.Tap>, sys: bool)
    requires Answers(y, w) && (y.h.stage == H.Shifting ==> |y.h.received| < H.WordLength())
    requires tap.Some? ==> H.TapAllowed(y.h, tap.value)
    requires y.h.stage == H.ToUpdate && tap.Some? && tap.value.update && !y.h.first ==> y.polled >= PIPELINE
    ensures Allowed(y, w, Ticking(tap, sys))
  {
    hide Dout, T.NextRequest, T.NextShiftr;
  }

  /** One tick of a settled call that keeps the rules. */
  lemma TockReaches(q: Call, r: Registers, goal: H.Goal, g0: Log, tap: Option<T.Tap>, sys: bool)
    requires CallInv(q, r.w, goal, g0) && GoodRegisters(r)
    requires q.h.stage == H.Shifting ==> |q.h.received| < H.WordLength()
    requires tap.Some? ==> H.TapAllowed(q.h, tap.value)
    requires q.h.stage == H.ToUpdate && tap.Some? && tap.value.update && !q.h.first ==> q.polled >= PIPELINE
    ensures var z := Tock(q, r, tap, sys); Reaches(q, r.w, z) && CallInv(z, r.w, goal, g0) && Ticked(q, z, tap, sys)
  {
    hide CallInv, Answers, Reaches, NextCall, Allowed, GoodRegisters, Settling, Ticking, Clocked;
    SettleAllowed(q, r, goal, g0);
    ReachesOne(q, r.w, Settling(q, r));
    var y := NextCall(q, r.w, Settling(q, r));
    TickAllowed(y, r.w, tap, sys);
    TickDoes(y, r.w, tap, sys);
    ReachesOne(y, r.w, Ticking(tap, sys));
    CallStep(y, r.w, Ticking(tap, sys), goal, g0);
    ReachesJoin(q, r.w, y, Tock(q, r, tap, sys));
  }

  // ----- the run -----

  const CAPTURE: T.Tap := T.Tap(false, false, false, true)
  const UPDATE: T.Tap := T.Tap(false, false, true, false)
  const REST: T.Tap := T.Tap(false, false, false, false)

  /** The call, the command and the log it began with, all of which stay the same. */
  datatype Context = Context(r: Registers, goal: H.Goal, g0: Log)

  ghost predicate On(q: Call, c: Context) { CallInv(q, c.r.w, c.goal, c.g0) && GoodRegisters(c.r) }

  ghost predicate Leads(q: Call, z: Call, c: Context) { Reaches(q, c.r.w, z) && On(z, c) }

  lemma LeadsJoin(q: Call, y: Call, z: Call, c: Context)
    requires Leads(q, y, c) && Leads(y, z, c)
    ensures Leads(q, z, c)
  {
    hide Reaches, On;
    ReachesJoin(q, c.r.w, y, z);
  }

  /** A JTAG tick at rest, or a system tick. */
  lemma Plainly(q: Call, c: Context, jtag: bool) returns (z: Call)
    requires On(q, c) && q.h.stage in {H.ToUpdate, H.Updated}
    ensures Leads(q, z, c) && z.h == q.h.(l := z.h.l) && z.polled == q.polled + One(!jtag)
    ensures Clocked(q.h.l.d, z.h.l.d, if jtag then Some(REST) else None, !jtag)
  {
    hide Reaches, CallInv, GoodRegisters, Clocked, Tock;
    var tap := if jtag then Some(REST) else None;
    z := Tock(q, c.r, tap, !jtag);
    TockReaches(q, c.r, c.goal, c.g0, tap, !jtag);
  }

  ghost predicate NoFlags(d: T.Dtm) { !d.jtagReq && !d.req0 && !d.req1 && !d.ack0 && !d.ack1 }

  /** Everything is shifted. */
  lemma {:induction false} Shifts(q: Call, c: Context) returns (z: Call)
    requires On(q, c) && q.h.stage == H.Shifting && |q.h.received| < H.WordLength() && NoFlags(q.h.l.d)
    ensures Leads(q, z, c) && z.h.stage == H.ToUpdate && NoFlags(z.h.l.d)
    ensures z.h.first == q.h.first && z.h.captured == q.h.captured
    decreases H.WordLength() - |q.h.received|
  {
    hide Reaches, CallInv, GoodRegisters, Tock;
    var tap := Some(T.Tap(q.h.word[|q.h.received|], true, false, false));
    z := Tock(q, c.r, tap, false);
    TockReaches(q, c.r, c.goal, c.g0, tap, false);
    if z.h.stage == H.Shifting {
      var y := z;
      z := Shifts(y, c);
      LeadsJoin(q, y, z, c);
    }
  }

  /** A command up to its update, on a link that is not busy. */
  lemma Commands(q: Call, c: Context) returns (z: Call)
    requires On(q, c) && q.h.stage == H.ToCapture && NoFlags(q.h.l.d) && H.WordLength() > 0
    ensures Leads(q, z, c) && z.h.stage == H.ToUpdate && NoFlags(z.h.l.d) && z.h.first == q.h.first
    ensures T.OpOf(z.h.captured) == T.RSP_OK
  {
    hide Reaches, CallInv, GoodRegisters, Tock, T.NextShiftr, T.OpOf;
    var y := Tock(q, c.r, Some(CAPTURE), false);
    TockReaches(q, c.r, c.goal, c.g0, Some(CAPTURE), false);
    H.CapturedParts(q.h.l.d, CAPTURE);
    z := Shifts(y, c);
    LeadsJoin(q, y, z, c);
  }

  lemma Updates(q: Call, c: Context) returns (z: Call)
    requires On(q, c) && q.h.stage == H.ToUpdate && NoFlags(q.h.l.d) && (!q.h.first ==> q.polled >= PIPELINE)
    ensures Leads(q, z, c) && z.h == q.h.(stage := H.Updated, l := z.h.l)
    ensures var d := z.h.l.d; !d.req0 && !d.req1 && !d.ack0 && !d.ack1 && d.jtagReq == q.h.first
  {
    hide Reaches, GoodRegisters, Tock, CallInv;
    z := Tock(q, c.r, Some(UPDATE), false);
    TockReaches(q, c.r, c.goal, c.g0, Some(UPDATE), false);
    UpdateAccepts(q, c);
  }

  lemma UpdateAccepts(q: Call, c: Context)
    requires On(q, c) && q.h.stage == H.ToUpdate && NoFlags(q.h.l.d)
    ensures T.Accepts(q.h.l.d, UPDATE) == q.h.first
  {
  }

  /** Two ticks of the same clock. */
  lemma Twice(q: Call, c: Context, jtag: bool) returns (z: Call)
    requires On(q, c) && q.h.stage in {H.ToUpdate, H.Updated}
    ensures Leads(q, z, c) && z.h == q.h.(l := z.h.l) && z.polled == q.polled + 2 * One(!jtag)
    ensures var d, d' := q.h.l.d, z.h.l.d;
            if jtag
            then d'.ack1 == d'.ack0 == d.req1 && d'.req0 == d.req0 && d'.req1 == d.req1
                 && d'.jtagReq == (d.jtagReq && !d.ack1 && !d.ack0)
            else d'.req1 == d'.req0 == d.jtagReq && d'.ack0 == d.ack0 && d'.ack1 == d.ack1 && d'.jtagReq == d.jtagReq
  {
    hide Reaches, CallInv, GoodRegisters;
    var y := Plainly(q, c, jtag);
    z := Plainly(y, c, jtag);
    LeadsJoin(q, y, z, c);
  }

  /** The four-phase handshake. */
  lemma Handshakes(q: Call, c: Context) returns (z: Call)
    requires On(q, c) && q.h.stage == H.Updated
    requires var d := q.h.l.d; d.jtagReq && !d.req0 && !d.req1 && !d.ack0 && !d.ack1
    ensures Leads(q, z, c) && z.h == q.h.(l := z.h.l) && NoFlags(z.h.l.d)
  {
    hide Reaches, CallInv, GoodRegisters;
    var a := Twice(q, c, false);
    var b := Twice(a, c, true);
    LeadsJoin(q, a, b, c);
    var b' := Plainly(b, c, true);
    LeadsJoin(q, b, b', c);
    var d := Twice(b', c, false);
    LeadsJoin(q, b', d, c);
    z := Twice(d, c, true);
    LeadsJoin(q, d, z, c);
  }

  /** The host goes on to poll. */
  lemma Polls(q: Call, c: Context) returns (z: Call)
    requires On(q, c) && q.h.stage == H.Updated && q.h.first && NoFlags(q.h.l.d)
    ensures Leads(q, z, c) && z.h.stage == H.ToCapture && !z.h.first && NoFlags(z.h.l.d)
  {
    hide Reaches, CallInv, GoodRegisters;
    var e := Happening(H.NextPoll(c.r.junk), SOME);
    ReachesOne(q, c.r.w, e);
    z := NextCall(q, c.r.w, e);
    CallStep(q, c.r.w, e, c.goal, c.g0);
  }

  /** Enough system clocks go by. */
  lemma Waits(q: Call, c: Context) returns (z: Call)
    requires On(q, c) && q.h.stage == H.ToUpdate && NoFlags(q.h.l.d)
    ensures Leads(q, z, c) && z.h == q.h.(l := z.h.l) && NoFlags(z.h.l.d) && z.polled >= PIPELINE
  {
    hide Reaches, CallInv, GoodRegisters;
    var a := Twice(q, c, false);
    var b := Twice(a, c, false);
    LeadsJoin(q, a, b, c);
    z := Plainly(b, c, false);
    LeadsJoin(q, b, z, c);
  }

  /** Every call can return: no state in which a call may be made is stuck. */
  lemma CallsReturn(q: Call, r: Registers)
    requires Called(q, r.w) && GoodRegisters(r)
    ensures exists es :: AllowedRun(q, r.w, es) && Returned(CallAfter(q, r.w, es))
  {
    hide CallInv, GoodRegisters, Reaches, AllowedRun, CallAfter;
    var c := Context(r, H.Goal(q.h.word, q.h.l.accepted, |q.h.l.log|), q.g);
    CallBegins(q, r.w);
    var a := Commands(q, c);
    var b := Updates(a, c);
    LeadsJoin(q, a, b, c);
    var d := Handshakes(b, c);
    LeadsJoin(q, b, d, c);
    var e := Polls(d, c);
    LeadsJoin(q, d, e, c);
    var f := Commands(e, c);
    LeadsJoin(q, e, f, c);
    var g := Waits(f, c);
    LeadsJoin(q, f, g, c);
    var z := Updates(g, c);
    LeadsJoin(q, g, z, c);
    ReturnsNow(z, c);
    ReachesRun(q, r.w, z);
  }

  lemma ReturnsNow(z: Call, c: Context)
    requires On(z, c) && z.h.stage == H.Updated && !z.h.first && T.OpOf(z.h.captured) == T.RSP_OK
    ensures Returned(z)
  {
  }

  lemma ReachesRun(q: Call, w: Wiring, z: Call)
    requires Reaches(q, w, z)
    ensures exists es :: AllowedRun(q, w, es) && CallAfter(q, w, es) == z
  {
  }

  /** The happenings of some run that returns. */
  ghost function Script(q: Call, r: Registers): seq<Happening>
    requires Called(q, r.w) && GoodRegisters(r)
    ensures AllowedRun(q, r.w, Script(q, r)) && Returned(CallAfter(q, r.w, Script(q, r)))
  {
    CallsReturn(q, r);
    var es :| AllowedRun(q, r.w, es) && Returned(CallAfter(q, r.w, es));
    es
  }

  /** There is a host as log_dump needs it. */
  lemma HostExists(r: Registers)
    requires GoodRegisters(r)
    ensures exists host: Host :: Serves(host, r.w)
  {
    hide Called, AllowedRun, CallAfter, Returned, GoodRegisters;
    var host: Host := (q: Call) => if Called(q, r.w) && GoodRegisters(r) then Script(q, r) else [];
    assert Serves(host, r.w);
  }
}
