/** Every instruction issues with the operand values of sequential execution. */
module ScoreboardProof {
  import opened Wrappers
  import opened Scoreboard

  /** An instruction that has a tag and has not completed, with the results it will have. */
  datatype Issued = Issued(tag: nat, dest: Option<nat>, value: Data,
                           wrCr: bool, crValue: Data, wrOv: bool, ovValue: Data)

  datatype Arch = Arch(rf: seq<Data>, cr: Data, ov: Data)

  /** `pipe`: outstanding instructions, oldest first. `done`: register state with completed instructions only.
      `arch`: register state of sequential execution up to the youngest issued instruction.
      `held`: what decode1 must present again because decode2 stalled it. */
  datatype Env = Env(pipe: seq<Issued>, done: Arch, arch: Arch, held: Option<Option<Instr>>)

  /** Inputs of a cycle; the results of the instruction if it issues now; which outstanding instructions the bypass
      ports carry. */
  datatype Cycle = Cycle(inp: Inputs, value: Data, crValue: Data, ovValue: Data,
                         x1: nat, x2: nat, y1: nat, y2: nat)

  function Commit(a: Arch, p: Issued): Arch
    requires p.dest.Some? ==> p.dest.value < |a.rf|
  {
    Arch(if p.dest.Some? then a.rf[p.dest.value := p.value] else a.rf,
         if p.wrCr then p.crValue else a.cr, if p.wrOv then p.ovValue else a.ov)
  }

  predicate GoodReg(p: Option<nat>) { p.Some? ==> p.value < NUM_REGS }
  predicate GoodInstr(x: Instr) { GoodReg(x.a) && GoodReg(x.b) && GoodReg(x.c) && GoodReg(x.dest) }

  ghost predicate GoodPipe(pipe: seq<Issued>) { forall j | 0 <= j < |pipe| :: GoodReg(pipe[j].dest) }

  ghost predicate Good(s: State, e: Env) {
    && Shape(s) && GoodPipe(e.pipe) && GoodInstr(s.dc2.ins)
    && |e.done.rf| == NUM_REGS && |e.arch.rf| == NUM_REGS
  }

  function Rest(e: Env, i: Inputs): seq<Issued>
    requires i.complete.valid ==> e.pipe != []
  {
    if i.complete.valid then e.pipe[1..] else e.pipe
  }

  function NextDone(e: Env, i: Inputs): Arch
    requires i.complete.valid ==> e.pipe != []
    requires GoodPipe(e.pipe) && |e.done.rf| == NUM_REGS
  {
    if i.complete.valid then Commit(e.done, e.pipe[0]) else e.done
  }

  ghost predicate Offers(b: Bypass, pipe: seq<Issued>, x: nat) {
    x < |pipe| && b.tag.tag == pipe[x].tag && pipe[x].dest == Some(b.reg) && b.data == pipe[x].value
  }

  ghost predicate OffersCr(b: CrBypass, pipe: seq<Issued>, y: nat) {
    y < |pipe| && b.tag.tag == pipe[y].tag && pipe[y].wrCr && b.data == pipe[y].crValue
  }

  /** A register-file read shows completed writes; it may already show the one completing now. */
  ghost predicate Reads(e: Env, i: Inputs, p: Option<nat>, d: Data)
    requires |e.done.rf| == NUM_REGS && GoodReg(p) && (i.complete.valid ==> e.pipe != [])
  {
    p.Some? ==>
      || d == e.done.rf[p.value]
      || (i.complete.valid && e.pipe[0].dest == p && d == e.pipe[0].value)
  }

  /** What the rest of the core promises. */
  ghost predicate Contract(s: State, e: Env, c: Cycle)
    requires Good(s, e)
  {
    var i := c.inp;
    && (i.d.Some? ==> GoodInstr(i.d.value))
    // decode1 holds its instruction while decode2 stalls it
    && (e.held.Some? ==> i.d == e.held.value)
    // completion is in order, and an instruction still in the decode2 register has not executed
    && (i.complete.valid ==> e.pipe != [] && i.complete.tag == e.pipe[0].tag)
    && (i.complete.valid && s.dc2.valid ==> |e.pipe| >= 2)
    // a completion that writes a register shows on the writeback port
    && i.wb.tag.valid == (i.complete.valid && e.pipe[0].dest.Some?)
    && (i.wb.tag.valid ==> Offers(i.wb, e.pipe, 0))
    // the execute ports carry outstanding instructions, younger ones on earlier ports
    && (i.ex1.tag.valid ==> Offers(i.ex1, e.pipe, c.x1))
    && (i.ex2.tag.valid ==> Offers(i.ex2, e.pipe, c.x2))
    && (i.ex1.tag.valid && i.ex2.tag.valid ==> c.x2 < c.x1)
    && (i.crEx1.tag.valid ==> OffersCr(i.crEx1, e.pipe, c.y1))
    && (i.crEx2.tag.valid ==> OffersCr(i.crEx2, e.pipe, c.y2))
    // register files
    && (i.d.Some? ==> Reads(e, i, i.d.value.a, i.readA) && Reads(e, i, i.d.value.b, i.readB)
                      && Reads(e, i, i.d.value.c, i.readC))
    && i.readCr == NextDone(e, i).cr && i.readOv == NextDone(e, i).ov
    // no more instructions outstanding than tags
    && (Issues(s, i) ==> |Rest(e, i)| < TAG_COUNT)
  }

  function Entry(s: State, c: Cycle): Issued {
    var x := Cur(s, c.inp);
    Issued(s.currTag, x.dest, c.value, x.writeCr, c.crValue, x.writeOv, c.ovValue)
  }

  /** A flush drops every outstanding instruction that has not completed. */
  function NextEnv(s: State, e: Env, c: Cycle): Env
    requires Good(s, e) && (c.inp.complete.valid ==> e.pipe != [])
    requires c.inp.d.Some? ==> GoodInstr(c.inp.d.value)
  {
    var i := c.inp;
    if i.flush then Env([], NextDone(e, i), NextDone(e, i), None)
    else if Issues(s, i) then
      Env(Rest(e, i) + [Entry(s, c)], NextDone(e, i), Commit(e.arch, Entry(s, c)),
          if s.dc2.busy then Some(i.d) else None)
    else
      Env(Rest(e, i), NextDone(e, i), e.arch,
          if s.dc2.busy || Deferred(s, i) then Some(i.d) else None)
  }

  // ----- sequential register state -----

  /** What an instruction may write: a register, CR, or the overflow bits. */
  datatype Res = Gpr(r: nat) | CrRes | OvRes

  predicate GoodRes(x: Res) { x.Gpr? ==> x.r < NUM_REGS }

  ghost predicate Writes(p: Issued, x: Res) {
    match x case Gpr(r) => p.dest == Some(r) case CrRes => p.wrCr case OvRes => p.wrOv
  }

  ghost function Result(p: Issued, x: Res): Data {
    match x case Gpr(_) => p.value case CrRes => p.crValue case OvRes => p.ovValue
  }

  ghost function Value(a: Arch, x: Res): Data
    requires |a.rf| == NUM_REGS && GoodRes(x)
  {
    match x case Gpr(r) => a.rf[r] case CrRes => a.cr case OvRes => a.ov
  }

  ghost predicate NoWriter(pipe: seq<Issued>, x: Res) { forall j | 0 <= j < |pipe| :: !Writes(pipe[j], x) }

  /** `pipe[j]` is the youngest outstanding writer of `x`. */
  ghost predicate Youngest(pipe: seq<Issued>, j: int, x: Res) {
    0 <= j < |pipe| && Writes(pipe[j], x) && forall k | j < k < |pipe| :: !Writes(pipe[k], x)
  }

  /** `arch` is `done` with the outstanding instructions carried out. */
  ghost predicate ResOk(pipe: seq<Issued>, done: Arch, arch: Arch, x: Res)
    requires |done.rf| == NUM_REGS && |arch.rf| == NUM_REGS && GoodRes(x)
  {
    && (NoWriter(pipe, x) ==> Value(arch, x) == Value(done, x))
    && (forall j | Youngest(pipe, j, x) :: Value(arch, x) == Result(pipe[j], x))
  }

  lemma YoungestExists(pipe: seq<Issued>, x: Res) returns (j: nat)
    requires !NoWriter(pipe, x)
    ensures Youngest(pipe, j, x)
    decreases |pipe|
  {
    var n := |pipe| - 1;
    if Writes(pipe[n], x) {
      j := n;
    } else {
      var init := pipe[..n];
      var k :| 0 <= k < |pipe| && Writes(pipe[k], x);
      assert init[k] == pipe[k];
      j := YoungestExists(init, x);
      assert forall k | j < k < n :: pipe[k] == init[k];
    }
  }

  lemma YoungestPop(pipe: seq<Issued>, j: nat, x: Res)
    requires pipe != [] && j + 1 < |pipe|
    ensures Youngest(pipe[1..], j, x) <==> Youngest(pipe, j + 1, x)
  {
    var q := pipe[1..];
    if Youngest(q, j, x) {
      assert q[j] == pipe[j + 1];
      forall k | j + 1 < k < |pipe| ensures !Writes(pipe[k], x) {
        assert pipe[k] == q[k - 1];
      }
    }
  }

  lemma YoungestPush(pipe: seq<Issued>, p: Issued, j: nat, x: Res)
    requires j < |pipe|
    ensures Youngest(pipe + [p], j, x) <==> Youngest(pipe, j, x) && !Writes(p, x)
  {
    var q := pipe + [p];
    assert q[|pipe|] == p;
    if Youngest(q, j, x) {
      forall k | j < k < |pipe| ensures !Writes(pipe[k], x) {
        assert pipe[k] == q[k];
      }
    }
  }

  lemma NoWriterPush(pipe: seq<Issued>, p: Issued, x: Res)
    ensures NoWriter(pipe + [p], x) <==> NoWriter(pipe, x) && !Writes(p, x)
  {
    var q := pipe + [p];
    assert q[|pipe|] == p;
    if NoWriter(q, x) {
      forall k | 0 <= k < |pipe| ensures !Writes(pipe[k], x) {
        assert pipe[k] == q[k];
      }
    }
  }

  lemma NoWriterPop(pipe: seq<Issued>, x: Res)
    requires pipe != [] && NoWriter(pipe[1..], x)
    ensures if Writes(pipe[0], x) then Youngest(pipe, 0, x) else NoWriter(pipe, x)
  {
    forall k | 1 <= k < |pipe| ensures !Writes(pipe[k], x) {
      assert pipe[k] == pipe[1..][k - 1];
    }
  }

  lemma ResPop(pipe: seq<Issued>, done: Arch, arch: Arch, x: Res)
    requires pipe != [] && GoodReg(pipe[0].dest) && |done.rf| == NUM_REGS && |arch.rf| == NUM_REGS && GoodRes(x)
    requires ResOk(pipe, done, arch, x)
    ensures ResOk(pipe[1..], Commit(done, pipe[0]), arch, x)
  {
    if NoWriter(pipe[1..], x) {
      NoWriterPop(pipe, x);
    }
    forall j | Youngest(pipe[1..], j, x) ensures Value(arch, x) == Result(pipe[1..][j], x) {
      YoungestPop(pipe, j, x);
    }
  }

  lemma ResPush(pipe: seq<Issued>, done: Arch, arch: Arch, p: Issued, x: Res)
    requires GoodReg(p.dest) && |done.rf| == NUM_REGS && |arch.rf| == NUM_REGS && GoodRes(x)
    requires ResOk(pipe, done, arch, x)
    ensures ResOk(pipe + [p], done, Commit(arch, p), x)
  {
    var q := pipe + [p];
    NoWriterPush(pipe, p, x);
    forall j | Youngest(q, j, x) ensures Value(Commit(arch, p), x) == Result(q[j], x) {
      if j < |pipe| {
        YoungestPush(pipe, p, j, x);
      }
    }
  }

  // ----- scoreboard invariant -----

  /** Tags are handed out round robin. */
  function TagAt(curr: nat, n: nat, j: nat): nat
    requires n <= TAG_COUNT
  {
    (curr + TAG_COUNT - n + j) % TAG_COUNT
  }

  ghost predicate OrderInv(s: State, e: Env) {
    && |e.pipe| <= TAG_COUNT
    && forall j | 0 <= j < |e.pipe| :: e.pipe[j].tag == TagAt(s.currTag, |e.pipe|, j)
  }

  /** The tag register of an outstanding instruction: recent iff no younger instruction writes the same register. */
  ghost predicate TagOk(s: State, pipe: seq<Issued>, j: nat)
    requires Shape(s) && j < |pipe|
  {
    pipe[j].tag < TAG_COUNT &&
    var g := s.tags[pipe[j].tag];
    && g.valid && g.wrCr == pipe[j].wrCr && g.wrOv == pipe[j].wrOv
    && (pipe[j].dest.None? ==> !g.recent)
    && (pipe[j].dest.Some? ==> g.reg == pipe[j].dest.value
                               && (g.recent <==> Youngest(pipe, j, Gpr(pipe[j].dest.value))))
  }

  ghost predicate TagInv(s: State, e: Env)
    requires Shape(s)
  {
    && (forall j | 0 <= j < |e.pipe| :: TagOk(s, e.pipe, j))
    && (forall t: nat | t < TAG_COUNT && (s.tags[t].valid || s.tags[t].wrCr || s.tags[t].wrOv) ::
          exists j :: 0 <= j < |e.pipe| && e.pipe[j].tag == t)
    && (forall j | Youngest(e.pipe, j, CrRes) :: s.currCrTag == e.pipe[j].tag)
    && (forall j | Youngest(e.pipe, j, OvRes) :: s.currOvTag == e.pipe[j].tag)
  }

  /** A value captured for a held instruction is right as soon as no outstanding instruction writes the register. */
  ghost predicate HeldOk(e: Env, p: Option<nat>, held: Data, constant: Data)
    requires |e.done.rf| == NUM_REGS && GoodReg(p)
  {
    && (p.None? ==> held == constant)
    && (p.Some? && NoWriter(e.pipe, Gpr(p.value)) ==> held == e.done.rf[p.value])
  }

  ghost predicate HeldInv(s: State, e: Env)
    requires Good(s, e)
  {
    s.dc2.busy ==>
      && HeldOk(e, s.dc2.ins.a, s.dc2.dataA, s.dc2.ins.constA)
      && HeldOk(e, s.dc2.ins.b, s.dc2.dataB, s.dc2.ins.constB)
      && HeldOk(e, s.dc2.ins.c, s.dc2.dataC, 0)
  }

  /** prev_tag runs ahead of the youngest outstanding instruction only on behalf of the instruction up next, and only
      if that one is not serialized. */
  ghost predicate Ahead(s: State, e: Env) {
    if s.dc2.busy then !(s.dc2.sgl || s.dc2.prevSgl)
    else s.dc2.valid && e.held.Some? && e.held.value.Some? && !(e.held.value.value.sglPipe || s.dc2.sgl)
  }

  ghost predicate SerialInv(s: State, e: Env) {
    && !(s.dc2.busy && s.dc2.valid)
    && (s.dc2.valid ==> e.pipe != [] && e.pipe[|e.pipe| - 1].tag == s.dc2.tag.tag)
    && (e.pipe == [] || s.prevTag == e.pipe[|e.pipe| - 1].tag || Ahead(s, e))
  }

  ghost predicate Inv(s: State, e: Env) {
    && Good(s, e)
    && OrderInv(s, e) && TagInv(s, e) && HeldInv(s, e) && SerialInv(s, e)
    && (forall x | GoodRes(x) :: ResOk(e.pipe, e.done, e.arch, x))
  }

  // ----- operands at issue -----

  lemma {:induction false} ScanStallFinds(tags: seq<TagReg>, i: Inputs, r: nat, n: nat, t: nat)
    requires t < n <= |tags| && Pending(tags[t], r) && !Released(i, t)
    requires forall u | 0 <= u < n && u != t :: !Pending(tags[u], r)
    ensures ScanStall(tags, i, r, n)
  {
    if t != n - 1 {
      ScanStallFinds(tags, i, r, n - 1, t);
    }
  }

  lemma DistinctTags(s: State, e: Env, j: nat, k: nat)
    requires OrderInv(s, e) && j < |e.pipe| && k < |e.pipe| && e.pipe[j].tag == e.pipe[k].tag
    ensures j == k
  {
  }

  /** At most one valid tag is marked recent for a register: that of its youngest writer. */
  lemma OneRecent(s: State, e: Env, r: nat, j: nat, t: nat)
    requires Shape(s) && OrderInv(s, e) && TagInv(s, e) && Youngest(e.pipe, j, Gpr(r))
    requires t < TAG_COUNT && Pending(s.tags[t], r)
    ensures t == e.pipe[j].tag
  {
    var k :| 0 <= k < |e.pipe| && e.pipe[k].tag == t;
    assert TagOk(s, e.pipe, k);
  }

  /** If the youngest writer of `r` does not stall the reader, it is on a bypass port or completing. */
  lemma WriterReleased(s: State, e: Env, i: Inputs, r: nat, j: nat)
    requires Shape(s) && OrderInv(s, e) && TagInv(s, e) && Youngest(e.pipe, j, Gpr(r))
    requires !ScanStall(s.tags, i, r, TAG_COUNT)
    ensures Released(i, e.pipe[j].tag)
  {
    assert TagOk(s, e.pipe, j);
    var t := e.pipe[j].tag;
    if !Released(i, t) {
      forall u | 0 <= u < TAG_COUNT && u != t ensures !Pending(s.tags[u], r) {
        if Pending(s.tags[u], r) {
          OneRecent(s, e, r, j, u);
        }
      }
      ScanStallFinds(s.tags, i, r, TAG_COUNT, t);
    }
  }

  /** The value an issuing instruction takes for a register operand is the sequential one. */
  lemma OperandSeq(s: State, e: Env, c: Cycle, p: Option<nat>, held: Data, read: Data, constant: Data)
    requires Good(s, e) && OrderInv(s, e) && TagInv(s, e) && Contract(s, e, c) && GoodReg(p)
    requires p.Some? ==> ResOk(e.pipe, e.done, e.arch, Gpr(p.value))
    requires !RegStall(s, c.inp, p)
    requires s.dc2.busy ==> HeldOk(e, p, held, constant)
    requires !s.dc2.busy ==> Reads(e, c.inp, p, read)
    ensures Operand(s, c.inp, p, held, read, constant) == if p.Some? then e.arch.rf[p.value] else constant
  {
    if p.Some? {
      var r := p.value;
      if NoWriter(e.pipe, Gpr(r)) {
        assert PortFor(c.inp, r) == NoPort;
      } else {
        var j := YoungestExists(e.pipe, Gpr(r));
        WriterReleased(s, e, c.inp, r, j);
        ReleasedPort(s, e, c, r, j);
      }
    }
  }

  /** The port chosen for a released register carries its youngest writer. */
  lemma ReleasedPort(s: State, e: Env, c: Cycle, r: nat, j: nat)
    requires Good(s, e) && OrderInv(s, e) && Contract(s, e, c)
    requires Youngest(e.pipe, j, Gpr(r)) && Released(c.inp, e.pipe[j].tag)
    ensures match PortFor(c.inp, r)
            case Ex1 => c.inp.ex1.data == e.pipe[j].value
            case Ex2 => c.inp.ex2.data == e.pipe[j].value
            case Wb => c.inp.wb.data == e.pipe[j].value
            case NoPort => false
  {
    var i := c.inp;
    if i.ex1.tag.valid && i.ex1.tag.tag == e.pipe[j].tag {
      DistinctTags(s, e, c.x1, j);
    }
    if i.ex2.tag.valid && i.ex2.tag.tag == e.pipe[j].tag {
      DistinctTags(s, e, c.x2, j);
    }
    if i.complete.valid && i.complete.tag == e.pipe[j].tag {
      DistinctTags(s, e, 0, j);
    }
  }

  /** An instruction that touches CR issues only with the sequential CR value: the youngest outstanding CR writer, if
      any, is bypassed or completing. */
  lemma CrSeq(s: State, e: Env, c: Cycle)
    requires Inv(s, e) && Contract(s, e, c) && Issues(s, c.inp)
    requires Cur(s, c.inp).writeCr || Cur(s, c.inp).inputCr
    ensures NextDecoded(s, c.inp).cr == e.arch.cr
    ensures forall j | Youngest(e.pipe, j, CrRes) :: CrPort(s, c.inp) != NoPort || (c.inp.complete.valid && j == 0)
  {
    var i := c.inp;
    assert ResOk(e.pipe, e.done, e.arch, CrRes);
    if NoWriter(e.pipe, CrRes) {
      assert !CrPending(s, i);
    } else {
      var j := YoungestExists(e.pipe, CrRes);
      assert TagOk(s, e.pipe, j);
      if TagMatch(InstrTag(s.currCrTag, true), i.complete) {
        DistinctTags(s, e, 0, j);
      } else if CrPort(s, i) == Ex1 {
        DistinctTags(s, e, c.y1, j);
      } else if CrPort(s, i) == Ex2 {
        DistinctTags(s, e, c.y2, j);
      }
    }
  }

  lemma OvSeq(s: State, e: Env, c: Cycle)
    requires Inv(s, e) && Contract(s, e, c) && Issues(s, c.inp) && Cur(s, c.inp).readOv
    ensures NextDecoded(s, c.inp).ov == e.arch.ov
  {
    assert ResOk(e.pipe, e.done, e.arch, OvRes);
    if !NoWriter(e.pipe, OvRes) {
      var j := YoungestExists(e.pipe, OvRes);
      assert TagOk(s, e.pipe, j);
      DistinctTags(s, e, 0, j);
    }
  }

  /** A serialized instruction issues only when every older instruction has completed or completes now. */
  lemma SerialAlone(s: State, e: Env, c: Cycle)
    requires Inv(s, e) && Contract(s, e, c) && Issues(s, c.inp) && Serialize(s, c.inp)
    ensures Rest(e, c.inp) == []
  {
    if e.pipe != [] {
      var n := |e.pipe| - 1;
      assert TagOk(s, e.pipe, n);
      DistinctTags(s, e, 0, n);
    }
  }

  // ----- preservation -----

  lemma GoodStep(s: State, e: Env, c: Cycle)
    requires Good(s, e) && Contract(s, e, c)
    ensures Good(Next(s, c.inp), NextEnv(s, e, c))
  {
  }

  lemma TagAtPush(curr: nat, n: nat, j: nat)
    requires curr < TAG_COUNT && n < TAG_COUNT && j < n
    ensures TagAt((curr + 1) % TAG_COUNT, n + 1, j) == TagAt(curr, n, j)
    ensures TagAt((curr + 1) % TAG_COUNT, n + 1, n) == curr
  {
    if curr + 1 < TAG_COUNT {
      assert (curr + 1) % TAG_COUNT == curr + 1;
    }
  }

  /** Position in the old pipe of the instruction that is at the front next. */
  function Shift(i: Inputs): nat { if i.complete.valid then 1 else 0 }

  lemma OrderRest(s: State, e: Env, i: Inputs, j: nat)
    requires OrderInv(s, e) && (i.complete.valid ==> e.pipe != []) && j < |Rest(e, i)|
    ensures Rest(e, i)[j].tag == TagAt(s.currTag, |Rest(e, i)|, j)
  {
    assert Rest(e, i)[j] == e.pipe[j + Shift(i)];
  }

  lemma OrderPush(s: State, e: Env, i: Inputs, p: Issued, j: nat)
    requires OrderInv(s, e) && (i.complete.valid ==> e.pipe != []) && s.currTag < TAG_COUNT
    requires |Rest(e, i)| < TAG_COUNT && p.tag == s.currTag && j <= |Rest(e, i)|
    ensures (Rest(e, i) + [p])[j].tag == TagAt((s.currTag + 1) % TAG_COUNT, |Rest(e, i)| + 1, j)
  {
    var n := |Rest(e, i)|;
    if j < n {
      OrderRest(s, e, i, j);
      TagAtPush(s.currTag, n, j);
    } else if n > 0 {
      TagAtPush(s.currTag, n, 0);
    }
  }

  lemma OrderStep(s: State, e: Env, c: Cycle)
    requires Good(s, e) && OrderInv(s, e) && Contract(s, e, c)
    ensures OrderInv(Next(s, c.inp), NextEnv(s, e, c))
  {
    var i, e' := c.inp, NextEnv(s, e, c);
    if !i.flush {
      forall j: nat | j < |e'.pipe| ensures e'.pipe[j].tag == TagAt(Next(s, i).currTag, |e'.pipe|, j) {
        if Issues(s, i) {
          OrderPush(s, e, i, Entry(s, c), j);
        } else {
          OrderRest(s, e, i, j);
        }
      }
    }
  }

  lemma YoungestStep(s: State, e: Env, c: Cycle, j: nat, x: Res)
    requires Good(s, e) && Contract(s, e, c) && !c.inp.flush && j < |Rest(e, c.inp)|
    ensures Youngest(NextEnv(s, e, c).pipe, j, x) <==>
              Youngest(e.pipe, j + Shift(c.inp), x) && !(Issues(s, c.inp) && Writes(Entry(s, c), x))
    ensures NextEnv(s, e, c).pipe[j] == e.pipe[j + Shift(c.inp)]
  {
    var i := c.inp;
    if i.complete.valid {
      YoungestPop(e.pipe, j, x);
    }
    if Issues(s, i) {
      YoungestPush(Rest(e, i), Entry(s, c), j, x);
    }
  }

  lemma TagOldStep(s: State, e: Env, c: Cycle, j: nat)
    requires Good(s, e) && OrderInv(s, e) && TagInv(s, e) && Contract(s, e, c) && !c.inp.flush
    requires j < |Rest(e, c.inp)|
    ensures TagOk(Next(s, c.inp), NextEnv(s, e, c).pipe, j)
  {
    hide OrderInv, Offers, Commit, NextDone, Deferred, GoodInstr, Youngest;
    var i := c.inp;
    var o := j + Shift(i);
    assert TagOk(s, e.pipe, o);
    YoungestStep(s, e, c, j, if e.pipe[o].dest.Some? then Gpr(e.pipe[o].dest.value) else CrRes);
    TagKept(s, e, c, o);
  }

  /** The tag register of an instruction that stays outstanding. */
  lemma TagKept(s: State, e: Env, c: Cycle, o: nat)
    requires Good(s, e) && OrderInv(s, e) && Contract(s, e, c) && !c.inp.flush
    requires Shift(c.inp) <= o < |e.pipe| && e.pipe[o].tag < TAG_COUNT
    ensures var g, g' := s.tags[e.pipe[o].tag], NextTag(s, c.inp, e.pipe[o].tag);
            var x := Cur(s, c.inp);
            g' == g.(recent := g.recent && !(Issues(s, c.inp) && x.dest.Some? && g.reg == x.dest.value))
  {
    var i := c.inp;
    if i.complete.valid && i.complete.tag == e.pipe[o].tag {
      DistinctTags(s, e, 0, o);
    }
  }

  lemma TagStep(s: State, e: Env, c: Cycle)
    requires Good(s, e) && OrderInv(s, e) && TagInv(s, e) && Contract(s, e, c)
    ensures forall j | 0 <= j < |NextEnv(s, e, c).pipe| :: TagOk(Next(s, c.inp), NextEnv(s, e, c).pipe, j)
  {
    forall j | 0 <= j < |NextEnv(s, e, c).pipe| ensures TagOk(Next(s, c.inp), NextEnv(s, e, c).pipe, j) {
      if j < |Rest(e, c.inp)| {
        TagOldStep(s, e, c, j);
      }
    }
  }

  /** A tag register in use belongs to an outstanding instruction. */
  lemma TagUsedStep(s: State, e: Env, c: Cycle, t: nat)
    requires Good(s, e) && OrderInv(s, e) && TagInv(s, e) && Contract(s, e, c)
    requires t < TAG_COUNT
    requires var g := Next(s, c.inp).tags[t]; g.valid || g.wrCr || g.wrOv
    ensures exists j :: 0 <= j < |NextEnv(s, e, c).pipe| && NextEnv(s, e, c).pipe[j].tag == t
  {
    hide TagOk, Youngest, Offers, Commit, NextDone, Deferred, GoodInstr, GoodReg;
    var i, e' := c.inp, NextEnv(s, e, c);
    if Issues(s, i) && t == s.currTag {
      assert e'.pipe[|e'.pipe| - 1].tag == t;
    } else {
      var o :| 0 <= o < |e.pipe| && e.pipe[o].tag == t;
      assert e'.pipe[o - Shift(i)] == e.pipe[o];
    }
  }

  lemma CurrentStep(s: State, e: Env, c: Cycle, x: Res, curr: nat, curr': nat)
    requires Good(s, e) && Contract(s, e, c)
    requires forall j | Youngest(e.pipe, j, x) :: curr == e.pipe[j].tag
    requires curr' == if Issues(s, c.inp) && Writes(Entry(s, c), x) then s.currTag else curr
    ensures forall j | Youngest(NextEnv(s, e, c).pipe, j, x) :: curr' == NextEnv(s, e, c).pipe[j].tag
  {
    forall j | Youngest(NextEnv(s, e, c).pipe, j, x) ensures curr' == NextEnv(s, e, c).pipe[j].tag {
      if j < |Rest(e, c.inp)| {
        YoungestStep(s, e, c, j, x);
      }
    }
  }

  lemma TagInvStep(s: State, e: Env, c: Cycle)
    requires Good(s, e) && OrderInv(s, e) && TagInv(s, e) && Contract(s, e, c)
    ensures TagInv(Next(s, c.inp), NextEnv(s, e, c))
  {
    TagStep(s, e, c);
    var s', e' := Next(s, c.inp), NextEnv(s, e, c);
    CurrentStep(s, e, c, CrRes, s.currCrTag, s'.currCrTag);
    CurrentStep(s, e, c, OvRes, s.currOvTag, s'.currOvTag);
    forall t: nat | t < TAG_COUNT && (s'.tags[t].valid || s'.tags[t].wrCr || s'.tags[t].wrOv)
      ensures exists j :: 0 <= j < |e'.pipe| && e'.pipe[j].tag == t
    {
      TagUsedStep(s, e, c, t);
    }
  }

  lemma ResStep(s: State, e: Env, c: Cycle, x: Res)
    requires Good(s, e) && Contract(s, e, c) && GoodRes(x) && ResOk(e.pipe, e.done, e.arch, x)
    ensures Good(Next(s, c.inp), NextEnv(s, e, c))
    ensures ResOk(NextEnv(s, e, c).pipe, NextEnv(s, e, c).done, NextEnv(s, e, c).arch, x)
  {
    GoodStep(s, e, c);
    var i := c.inp;
    if i.complete.valid {
      ResPop(e.pipe, e.done, e.arch, x);
    }
    if Issues(s, i) {
      ResPush(Rest(e, i), NextDone(e, i), e.arch, Entry(s, c), x);
    }
  }

  /** What a held instruction captures in one cycle. */
  lemma HeldStep(s: State, e: Env, c: Cycle, p: Option<nat>, held: Data, read: Data, constant: Data)
    requires Good(s, e) && Contract(s, e, c) && GoodReg(p)
    requires s.dc2.busy ==> HeldOk(e, p, held, constant)
    requires !s.dc2.busy ==> Reads(e, c.inp, p, read)
    ensures p.None? ==> Operand(s, c.inp, p, held, read, constant) == constant
    ensures p.Some? && NoWriter(Rest(e, c.inp), Gpr(p.value)) ==>
              Operand(s, c.inp, p, held, read, constant) == NextDone(e, c.inp).rf[p.value]
  {
    var i := c.inp;
    if p.Some? && NoWriter(Rest(e, i), Gpr(p.value)) {
      if i.complete.valid {
        NoWriterPop(e.pipe, Gpr(p.value));
      }
    }
  }

  lemma HeldInvStep(s: State, e: Env, c: Cycle)
    requires Good(s, e) && HeldInv(s, e) && SerialInv(s, e) && Contract(s, e, c)
    ensures Good(Next(s, c.inp), NextEnv(s, e, c)) && HeldInv(Next(s, c.inp), NextEnv(s, e, c))
  {
    GoodStep(s, e, c);
    if Next(s, c.inp).dc2.busy {
      var x, d, i := Cur(s, c.inp), s.dc2, c.inp;
      HeldStep(s, e, c, x.a, d.dataA, i.readA, x.constA);
      HeldStep(s, e, c, x.b, d.dataB, i.readB, x.constB);
      HeldStep(s, e, c, x.c, d.dataC, i.readC, 0);
    }
  }

  lemma SerialStep(s: State, e: Env, c: Cycle)
    requires Good(s, e) && OrderInv(s, e) && TagInv(s, e) && SerialInv(s, e) && Contract(s, e, c)
    ensures SerialInv(Next(s, c.inp), NextEnv(s, e, c))
  {
    var i, e' := c.inp, NextEnv(s, e, c);
    if !i.flush && !Issues(s, i) && Rest(e, i) != [] {
      var n := |e.pipe| - 1;
      assert e'.pipe[|e'.pipe| - 1] == e.pipe[n];
      assert TagOk(s, e.pipe, n);
      if i.complete.valid && i.complete.tag == e.pipe[n].tag {
        DistinctTags(s, e, 0, n);
      }
    }
  }

  lemma InvStep(s: State, e: Env, c: Cycle)
    requires Inv(s, e) && Contract(s, e, c)
    ensures Inv(Next(s, c.inp), NextEnv(s, e, c))
  {
    GoodStep(s, e, c);
    OrderStep(s, e, c);
    TagInvStep(s, e, c);
    HeldInvStep(s, e, c);
    SerialStep(s, e, c);
    forall x | GoodRes(x) ensures ResOk(NextEnv(s, e, c).pipe, NextEnv(s, e, c).done, NextEnv(s, e, c).arch, x) {
      ResStep(s, e, c, x);
    }
  }

  // ----- runs -----

  ghost predicate Reset(s: State, e: Env) {
    && Good(s, e) && e.pipe == [] && e.arch == e.done
    && (forall t | 0 <= t < TAG_COUNT :: !s.tags[t].valid && !s.tags[t].wrCr && !s.tags[t].wrOv)
    && !s.dc2.busy && !s.dc2.valid
  }

  ghost predicate Run(s: State, e: Env, cs: seq<Cycle>)
    decreases |cs|
  {
    && Good(s, e)
    && (cs != [] ==> Contract(s, e, cs[0]) && Run(Next(s, cs[0].inp), NextEnv(s, e, cs[0]), cs[1..]))
  }

  ghost function After(s: State, e: Env, cs: seq<Cycle>): (z: (State, Env))
    requires Run(s, e, cs)
    ensures Good(z.0, z.1)
    decreases |cs|
  {
    if cs == [] then (s, e) else After(Next(s, cs[0].inp), NextEnv(s, e, cs[0]), cs[1..])
  }

  lemma {:induction false} RunInv(s: State, e: Env, cs: seq<Cycle>)
    requires Inv(s, e) && Run(s, e, cs)
    ensures Inv(After(s, e, cs).0, After(s, e, cs).1)
    decreases |cs|
  {
    if cs != [] {
      InvStep(s, e, cs[0]);
      RunInv(Next(s, cs[0].inp), NextEnv(s, e, cs[0]), cs[1..]);
    }
  }

  /** A register operand has its sequential value, another operand its constant. */
  ghost predicate RightOperand(arch: Arch, p: Option<nat>, d: Data, constant: Data)
    requires |arch.rf| == NUM_REGS && GoodReg(p)
  {
    d == if p.Some? then arch.rf[p.value] else constant
  }

  /** In every run, across any mix of stalls, held and deferred instructions, completions and flushes: an instruction
      that issues carries the register, CR and overflow values of sequential execution, and a serialized one issues
      alone. */
  lemma IssueCorrect(s: State, e: Env, cs: seq<Cycle>, c: Cycle)
    requires Reset(s, e) && Run(s, e, cs)
    requires Contract(After(s, e, cs).0, After(s, e, cs).1, c) && Issues(After(s, e, cs).0, c.inp)
    requires GoodInstr(Cur(After(s, e, cs).0, c.inp))
    ensures var (z, f) := After(s, e, cs);
            var x, d := Cur(z, c.inp), Next(z, c.inp).dc2;
            && RightOperand(f.arch, x.a, d.dataA, x.constA)
            && RightOperand(f.arch, x.b, d.dataB, x.constB)
            && RightOperand(f.arch, x.c, d.dataC, 0)
            && (x.writeCr || x.inputCr ==> d.cr == f.arch.cr)
            && (x.readOv ==> d.ov == f.arch.ov)
            && (Serialize(z, c.inp) ==> Rest(f, c.inp) == [])
  {
    RunInv(s, e, cs);
    IssueOne(After(s, e, cs).0, After(s, e, cs).1, c);
  }

  lemma IssueOne(s: State, e: Env, c: Cycle)
    requires Inv(s, e) && Contract(s, e, c) && Issues(s, c.inp) && GoodInstr(Cur(s, c.inp))
    ensures var x, d := Cur(s, c.inp), Next(s, c.inp).dc2;
            && RightOperand(e.arch, x.a, d.dataA, x.constA)
            && RightOperand(e.arch, x.b, d.dataB, x.constB)
            && RightOperand(e.arch, x.c, d.dataC, 0)
            && (x.writeCr || x.inputCr ==> d.cr == e.arch.cr)
            && (x.readOv ==> d.ov == e.arch.ov)
            && (Serialize(s, c.inp) ==> Rest(e, c.inp) == [])
  {
    var x, d, i := Cur(s, c.inp), s.dc2, c.inp;
    OperandSeq(s, e, c, x.a, d.dataA, i.readA, x.constA);
    OperandSeq(s, e, c, x.b, d.dataB, i.readB, x.constB);
    OperandSeq(s, e, c, x.c, d.dataC, i.readC, 0);
    if x.writeCr || x.inputCr {
      CrSeq(s, e, c);
    }
    if x.readOv {
      OvSeq(s, e, c);
    }
    if Serialize(s, i) {
      SerialAlone(s, e, c);
    }
  }
}
