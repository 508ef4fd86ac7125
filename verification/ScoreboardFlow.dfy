/** Conservation and progress of issue control: what decode1 hands over is issued once and in order, and it waits for
    nothing but a hazard. */
module ScoreboardFlow {
  import opened Wrappers
  import opened Scoreboard
  import opened ScoreboardProof

  /** Instructions taken from decode1 and instructions issued to execute1, both since the last flush. */
  datatype Flow = Flow(s: State, e: Env, taken: seq<Instr>, issued: seq<Instr>)

  /** stall_out: decode1 keeps its instruction. */
  predicate Stalls(s: State, i: Inputs) { s.dc2.busy || (s.dc2.valid && i.busy) }

  predicate Takes(s: State, i: Inputs) { i.d.Some? && !i.flush && !Stalls(s, i) }

  /** After this cycle the decode2 register shows execute1 a new valid instruction. */
  predicate Shows(s: State, i: Inputs)
    requires Shape(s)
  {
    !i.flush && !(s.dc2.valid && i.busy) && Next(s, i).dc2.valid
  }

  ghost function Tick(f: Flow, c: Cycle): Flow
    requires Good(f.s, f.e) && Contract(f.s, f.e, c)
  {
    var i := c.inp;
    Flow(Next(f.s, i), NextEnv(f.s, f.e, c),
         if i.flush then [] else if Takes(f.s, i) then f.taken + [i.d.value] else f.taken,
         if i.flush then [] else if Shows(f.s, i) then f.issued + [Next(f.s, i).dc2.ins] else f.issued)
  }

  /** `sgl_pipe` of the k-th last instruction taken. */
  predicate Single(taken: seq<Instr>, k: nat) { k <= |taken| && k > 0 && taken[|taken| - k].sglPipe }

  ghost predicate FlowInv(f: Flow) {
    var d := f.s.dc2;
    && f.taken == f.issued + (if d.busy then [d.ins] else [])
    && d.sgl == Single(f.taken, 1) && (d.busy ==> d.prevSgl == Single(f.taken, 2))
    && !(d.busy && d.valid)
  }

  lemma FlowStep(f: Flow, c: Cycle)
    requires Good(f.s, f.e) && Contract(f.s, f.e, c) && FlowInv(f)
    ensures FlowInv(Tick(f, c))
  {
    hide Operand, CrPort, RegStall, OvStall, SerialStall, CrPending;
  }

  ghost predicate FlowRun(f: Flow, cs: seq<Cycle>)
    decreases |cs|
  {
    Good(f.s, f.e) && (cs != [] ==> Contract(f.s, f.e, cs[0]) && FlowRun(Tick(f, cs[0]), cs[1..]))
  }

  ghost function FlowAfter(f: Flow, cs: seq<Cycle>): (z: Flow)
    requires FlowRun(f, cs)
    ensures Good(z.s, z.e)
    decreases |cs|
  {
    if cs == [] then f else FlowAfter(Tick(f, cs[0]), cs[1..])
  }

  lemma {:induction false} FlowKept(f: Flow, cs: seq<Cycle>)
    requires Inv(f.s, f.e) && FlowInv(f) && FlowRun(f, cs)
    ensures var z := FlowAfter(f, cs); Inv(z.s, z.e) && FlowInv(z)
    decreases |cs|
  {
    hide Inv, FlowInv, Next, NextEnv;
    if cs != [] {
      InvGood(f.s, f.e);
      InvStep(f.s, f.e, cs[0]);
      FlowStep(f, cs[0]);
      FlowKept(Tick(f, cs[0]), cs[1..]);
    }
  }

  lemma InvGood(s: State, e: Env)
    requires Inv(s, e)
    ensures Good(s, e)
  {
  }

  ghost predicate Begins(f: Flow) {
    ScoreboardProof.Reset(f.s, f.e) && f.taken == [] && f.issued == [] && !f.s.dc2.sgl && !f.s.dc2.prevSgl
  }

  // ----- what an instruction waits for -----

  /** Outstanding instruction `j` completes in this cycle. */
  predicate Leaving(c: Cycle, j: nat) { c.inp.complete.valid && j == 0 }

  /** Its result is on a bypass port of execute1 or execute2. */
  predicate OnPort(c: Cycle, j: nat) {
    EX1_BYPASS && ((c.inp.ex1.tag.valid && c.x1 == j) || (c.inp.ex2.tag.valid && c.x2 == j))
  }

  predicate OnCrPort(c: Cycle, j: nat) {
    EX1_BYPASS && ((c.inp.crEx1.tag.valid && c.y1 == j) || (c.inp.crEx2.tag.valid && c.y2 == j))
  }

  /** The youngest outstanding writer of a register that is read neither completes nor shows its result. */
  ghost predicate GprHazard(e: Env, c: Cycle, p: Option<nat>) {
    p.Some? && exists j :: Youngest(e.pipe, j, Gpr(p.value)) && !OnPort(c, j) && !Leaving(c, j)
  }

  /** The same for CR, which an instruction that writes it reads as well. */
  ghost predicate CrHazard(e: Env, c: Cycle, x: Instr) {
    (x.writeCr || x.inputCr) && exists j :: Youngest(e.pipe, j, CrRes) && !OnCrPort(c, j) && !Leaving(c, j)
  }

  ghost predicate OvHazard(e: Env, c: Cycle, x: Instr) {
    x.readOv && exists j :: Youngest(e.pipe, j, OvRes) && !Leaving(c, j)
  }

  lemma ReleasedIff(s: State, e: Env, c: Cycle, j: nat)
    requires Good(s, e) && OrderInv(s, e) && Contract(s, e, c) && j < |e.pipe|
    ensures Released(c.inp, e.pipe[j].tag) <==> OnPort(c, j) || Leaving(c, j)
  {
    var i := c.inp;
    if i.ex1.tag.valid && i.ex1.tag.tag == e.pipe[j].tag {
      DistinctTags(s, e, c.x1, j);
    }
    if i.ex2.tag.valid && i.ex2.tag.tag == e.pipe[j].tag {
      DistinctTags(s, e, c.x2, j);
    }
    if i.complete.valid && i.complete.tag == e.pipe[j].tag {
      DistinctTags(s, e, 0, j);
    }
  }

  lemma {:induction false} StallWitness(tags: seq<TagReg>, i: Inputs, r: nat, n: nat) returns (t: nat)
    requires n <= |tags| && ScanStall(tags, i, r, n)
    ensures t < n && Pending(tags[t], r) && !Released(i, t)
  {
    if Pending(tags[n - 1], r) {
      t := n - 1;
    } else {
      t := StallWitness(tags, i, r, n - 1);
    }
  }

  lemma RegStallIff(s: State, e: Env, c: Cycle, p: Option<nat>)
    requires Good(s, e) && OrderInv(s, e) && TagInv(s, e) && Contract(s, e, c) && GoodReg(p)
    ensures RegStall(s, c.inp, p) <==> GprHazard(e, c, p)
  {
    hide Contract;
    if p.Some? {
      var r := p.value;
      if ScanStall(s.tags, c.inp, r, TAG_COUNT) {
        var t := StallWitness(s.tags, c.inp, r, TAG_COUNT);
        var j :| 0 <= j < |e.pipe| && e.pipe[j].tag == t;
        assert TagOk(s, e.pipe, j);
        ReleasedIff(s, e, c, j);
        assert Youngest(e.pipe, j, Gpr(r));
      } else if j :| Youngest(e.pipe, j, Gpr(r)) && !OnPort(c, j) && !Leaving(c, j) {
        ReleasedIff(s, e, c, j);
        WriterReleased(s, e, c.inp, r, j);
        assert false;
      }
    }
  }

  lemma NoTagWrites(s: State, e: Env, t: nat)
    requires Shape(s) && TagInv(s, e) && t < TAG_COUNT
    ensures NoWriter(e.pipe, CrRes) ==> !s.tags[t].wrCr
    ensures NoWriter(e.pipe, OvRes) ==> !s.tags[t].wrOv
  {
    if s.tags[t].wrCr || s.tags[t].wrOv {
      var j :| 0 <= j < |e.pipe| && e.pipe[j].tag == t;
      assert TagOk(s, e.pipe, j);
      assert s.tags[t].wrCr ==> Writes(e.pipe[j], CrRes);
      assert s.tags[t].wrOv ==> Writes(e.pipe[j], OvRes);
    }
  }

  lemma CrStallIff(s: State, e: Env, c: Cycle)
    requires Inv(s, e) && Contract(s, e, c)
    ensures CrPending(s, c.inp) && CrPort(s, c.inp) == NoPort <==> CrHazard(e, c, Cur(s, c.inp))
  {
    var i := c.inp;
    if NoWriter(e.pipe, CrRes) {
      NoTagWrites(s, e, s.currCrTag);
    } else {
      var j := YoungestExists(e.pipe, CrRes);
      assert TagOk(s, e.pipe, j) && s.currCrTag == e.pipe[j].tag;
      if i.complete.valid && i.complete.tag == e.pipe[j].tag {
        DistinctTags(s, e, 0, j);
      }
      if i.crEx1.tag.valid && i.crEx1.tag.tag == e.pipe[j].tag {
        DistinctTags(s, e, c.y1, j);
      }
      if i.crEx2.tag.valid && i.crEx2.tag.tag == e.pipe[j].tag {
        DistinctTags(s, e, c.y2, j);
      }
    }
  }

  lemma OvStallIff(s: State, e: Env, c: Cycle)
    requires Inv(s, e) && Contract(s, e, c)
    ensures OvStall(s, c.inp) <==> OvHazard(e, c, Cur(s, c.inp))
  {
    var i := c.inp;
    if NoWriter(e.pipe, OvRes) {
      NoTagWrites(s, e, s.currOvTag);
    } else {
      var j := YoungestExists(e.pipe, OvRes);
      assert TagOk(s, e.pipe, j) && s.currOvTag == e.pipe[j].tag;
      if i.complete.valid && i.complete.tag == e.pipe[j].tag {
        DistinctTags(s, e, 0, j);
      }
    }
  }

  /** Nothing older remains: a serialized instruction does not stall. */
  lemma AloneIssues(s: State, e: Env, c: Cycle)
    requires Inv(s, e) && Contract(s, e, c) && Rest(e, c.inp) == []
    ensures !SerialStall(s, c.inp)
  {
    if s.tags[s.prevTag].valid {
      var j :| 0 <= j < |e.pipe| && e.pipe[j].tag == s.prevTag;
    }
  }

  /** An instruction is up: the held one, or one that decode1 presents. */
  predicate Present(s: State, i: Inputs) { s.dc2.busy || i.d.Some? }

  function Up(s: State, i: Inputs): Instr
    requires Present(s, i)
  {
    if s.dc2.busy then s.dc2.ins else i.d.value
  }

  /** It may not share the pipeline: its own `sgl_pipe`, or that of the instruction taken just before it, is set. */
  predicate MustBeAlone(f: Flow, i: Inputs)
    requires Present(f.s, i)
  {
    Up(f.s, i).sglPipe || Single(f.taken, if f.s.dc2.busy then 2 else 1)
  }

  /** It waits for an older instruction. */
  ghost predicate Waits(f: Flow, c: Cycle)
    requires Present(f.s, c.inp) && (c.inp.complete.valid ==> f.e.pipe != [])
  {
    var x := Up(f.s, c.inp);
    || GprHazard(f.e, c, x.a) || GprHazard(f.e, c, x.b) || GprHazard(f.e, c, x.c)
    || CrHazard(f.e, c, x) || OvHazard(f.e, c, x)
    || (MustBeAlone(f, c.inp) && Rest(f.e, c.inp) != [])
  }

  lemma SerialIff(f: Flow, i: Inputs)
    requires FlowInv(f) && Present(f.s, i)
    ensures Serialize(f.s, i) <==> MustBeAlone(f, i)
  {
  }

  lemma SerialStallIff(f: Flow, c: Cycle)
    requires Inv(f.s, f.e) && FlowInv(f) && Contract(f.s, f.e, c) && Present(f.s, c.inp) && !Deferred(f.s, c.inp)
    requires MustBeAlone(f, c.inp)
    ensures SerialStall(f.s, c.inp) <==> Rest(f.e, c.inp) != []
  {
    SerialIff(f, c.inp);
    if Rest(f.e, c.inp) == [] {
      AloneIssues(f.s, f.e, c);
    } else {
      StallsBehind(f.s, f.e, c);
    }
  }

  lemma StallsBehind(s: State, e: Env, c: Cycle)
    requires Inv(s, e) && Contract(s, e, c) && Serialize(s, c.inp) && Rest(e, c.inp) != [] && !Deferred(s, c.inp)
    requires Present(s, c.inp)
    ensures SerialStall(s, c.inp)
  {
    var n := |e.pipe| - 1;
    assert TagOk(s, e.pipe, n);
    if c.inp.complete.valid && c.inp.complete.tag == e.pipe[n].tag {
      DistinctTags(s, e, 0, n);
    }
  }

  lemma ShowsIff(f: Flow, c: Cycle)
    requires Inv(f.s, f.e) && FlowInv(f) && Contract(f.s, f.e, c)
    ensures Shows(f.s, c.inp) <==>
              && Present(f.s, c.inp) && !c.inp.flush && !(f.s.dc2.valid && c.inp.busy) && !Waits(f, c)
    ensures Shows(f.s, c.inp) ==> Issues(f.s, c.inp) && Next(f.s, c.inp).dc2.ins == Up(f.s, c.inp) == Cur(f.s, c.inp)
    ensures Shows(f.s, c.inp) ==> Next(f.s, c.inp).dc2.tag == InstrTag(f.s.currTag, true)
  {
    hide GprHazard, CrHazard, OvHazard, RegStall, CrPending, CrPort, OvStall, SerialStall, OrderInv, TagInv, HeldInv,
      SerialInv, Operand, MustBeAlone;
    var s, i := f.s, c.inp;
    if Present(s, i) && !i.flush && !Deferred(s, i) {
      var x := Up(s, i);
      RegStallIff(s, f.e, c, x.a);
      RegStallIff(s, f.e, c, x.b);
      RegStallIff(s, f.e, c, x.c);
      CrStallIff(s, f.e, c);
      OvStallIff(s, f.e, c);
      SerialIff(f, i);
      if MustBeAlone(f, i) {
        SerialStallIff(f, c);
      }
    }
  }

  /** In every run, across any mix of stalls, held and deferred instructions, completions and flushes: the instructions
      taken from decode1 since the last flush are those issued since then, in order, and the one held, if any. */
  lemma NothingLost(f: Flow, cs: seq<Cycle>)
    requires Begins(f) && FlowRun(f, cs)
    ensures var z := FlowAfter(f, cs);
            z.taken == z.issued + (if z.s.dc2.busy then [z.s.dc2.ins] else [])
  {
    BeginsInv(f);
    FlowKept(f, cs);
  }

  lemma BeginsInv(f: Flow)
    requires Begins(f)
    ensures Inv(f.s, f.e) && FlowInv(f)
  {
  }

  /** In every run: an instruction that is up goes to execute1 in this cycle exactly if there is no flush, decode2 is
      not deferred, and it waits for no older instruction. If it goes, it is the one that was up, with the register,
      CR and overflow values of sequential execution; if it must be alone, nothing older remains. */
  lemma IssuesExactly(f: Flow, cs: seq<Cycle>, c: Cycle)
    requires Begins(f) && FlowRun(f, cs)
    requires var z := FlowAfter(f, cs); Contract(z.s, z.e, c)
    ensures var z, i := FlowAfter(f, cs), c.inp;
            && (Shows(z.s, i) <==> Present(z.s, i) && !i.flush && !(z.s.dc2.valid && i.busy) && !Waits(z, c))
            && (Shows(z.s, i) ==>
                  var x, d := Up(z.s, i), Next(z.s, i).dc2;
                  && d.ins == x && GoodInstr(x)
                  && (var pipe := NextEnv(z.s, z.e, c).pipe;
                      pipe != [] && d.tag == InstrTag(pipe[|pipe| - 1].tag, true) && pipe[|pipe| - 1].dest == x.dest)
                  && RightOperand(z.e.arch, x.a, d.dataA, x.constA)
                  && RightOperand(z.e.arch, x.b, d.dataB, x.constB)
                  && RightOperand(z.e.arch, x.c, d.dataC, 0)
                  && (x.writeCr || x.inputCr ==> d.cr == z.e.arch.cr)
                  && (x.readOv ==> d.ov == z.e.arch.ov)
                  && (MustBeAlone(z, i) ==> Rest(z.e, i) == []))
  {
    hide Next, Waits, Shows, MustBeAlone;
    BeginsInv(f);
    FlowKept(f, cs);
    var z := FlowAfter(f, cs);
    ShowsIff(z, c);
    if Shows(z.s, c.inp) {
      IssueOne(z.s, z.e, c);
      SerialIff(z, c.inp);
    }
  }
}
