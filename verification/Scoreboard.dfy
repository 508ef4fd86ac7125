/** Issue control (control.vhdl) with the operand capture of decode2.vhdl: four instruction tags, register, CR and
    overflow hazards, bypass selection, and the register that holds a stalled instruction. */
module Scoreboard {
  import opened Wrappers

  const TAG_COUNT: nat := 4
  const NUM_REGS: nat := 64

  /** Generic EX1_BYPASS; the results hold for either setting. */
  const EX1_BYPASS: bool

  type Data = int

  datatype InstrTag = InstrTag(tag: nat, valid: bool)

  predicate TagMatch(x: InstrTag, y: InstrTag) { x.valid && y.valid && x.tag == y.tag }

  datatype TagReg = TagReg(wrGpr: bool, reg: nat, recent: bool, wrCr: bool, wrOv: bool, valid: bool)

  /** A decoded instruction. An operand without a register takes a constant. */
  datatype Instr = Instr(a: Option<nat>, b: Option<nat>, c: Option<nat>, dest: Option<nat>,
                         constA: Data, constB: Data,
                         inputCr: bool, writeCr: bool, readOv: bool, writeOv: bool, sglPipe: bool)

  const NOP: Instr := Instr(None, None, None, None, 0, 0, false, false, false, false, false)

  /** Ops that write CR write only some of its fields, so they also read it. */
  predicate ReadsCr(x: Instr) { x.writeCr || x.inputCr }

  datatype Bypass = Bypass(tag: InstrTag, reg: nat, data: Data)
  datatype CrBypass = CrBypass(tag: InstrTag, data: Data)

  /** The decode2 output register. `busy`: it holds an instruction that has not issued; `valid`: one that has. */
  datatype Decoded = Decoded(busy: bool, valid: bool, ins: Instr, dataA: Data, dataB: Data, dataC: Data,
                             cr: Data, ov: Data, tag: InstrTag, sgl: bool, prevSgl: bool)

  datatype State = State(tags: seq<TagReg>, currTag: nat, currCrTag: nat, currOvTag: nat, prevTag: nat, dc2: Decoded)

  datatype Inputs = Inputs(d: Option<Instr>, busy: bool, flush: bool, complete: InstrTag,
                           ex1: Bypass, ex2: Bypass, wb: Bypass, crEx1: CrBypass, crEx2: CrBypass,
                           readA: Data, readB: Data, readC: Data, readCr: Data, readOv: Data)

  ghost predicate Shape(s: State) {
    |s.tags| == TAG_COUNT
    && s.currTag < TAG_COUNT && s.currCrTag < TAG_COUNT && s.currOvTag < TAG_COUNT && s.prevTag < TAG_COUNT
  }

  // ----- combinational logic -----

  predicate Deferred(s: State, i: Inputs) { s.dc2.valid && i.busy }

  /** The instruction up for issue: the held one, else the one from decode1. */
  function Cur(s: State, i: Inputs): Instr {
    if s.dc2.busy then s.dc2.ins else if i.d.Some? then i.d.value else NOP
  }

  predicate ValidIn(s: State, i: Inputs) { i.d.Some? || s.dc2.busy }

  function Sgl(s: State, i: Inputs): bool { if !s.dc2.busy && i.d.Some? then i.d.value.sglPipe else s.dc2.sgl }
  function PrevSgl(s: State, i: Inputs): bool { if !s.dc2.busy && i.d.Some? then s.dc2.sgl else s.dc2.prevSgl }

  /** The instruction and its predecessor may not share the pipeline. */
  predicate Serialize(s: State, i: Inputs) { Sgl(s, i) || PrevSgl(s, i) }

  predicate Pending(t: TagReg, r: nat) { t.valid && t.recent && t.reg == r }

  predicate Released(i: Inputs, t: nat) {
    || (EX1_BYPASS && TagMatch(i.ex1.tag, InstrTag(t, true)))
    || (EX1_BYPASS && TagMatch(i.ex2.tag, InstrTag(t, true)))
    || TagMatch(i.complete, InstrTag(t, true))
  }

  /** Hazard scan over the first `n` tags: the last matching tag decides. */
  predicate ScanStall(tags: seq<TagReg>, i: Inputs, r: nat, n: nat)
    requires n <= |tags|
  {
    n > 0 && if Pending(tags[n - 1], r) then !Released(i, n - 1) else ScanStall(tags, i, r, n - 1)
  }

  predicate RegStall(s: State, i: Inputs, p: Option<nat>)
    requires Shape(s)
  {
    p.Some? && ScanStall(s.tags, i, p.value, TAG_COUNT)
  }

  /** Which bypass port, if any, offers register `r`. */
  datatype Port = NoPort | Ex1 | Ex2 | Wb

  function PortFor(i: Inputs, r: nat): Port {
    if EX1_BYPASS && i.ex1.tag.valid && i.ex1.reg == r then Ex1
    else if EX1_BYPASS && i.ex2.tag.valid && i.ex2.reg == r then Ex2
    else if i.wb.tag.valid && i.wb.reg == r then Wb
    else NoPort
  }

  predicate CrPending(s: State, i: Inputs)
    requires Shape(s)
  {
    ReadsCr(Cur(s, i)) && s.tags[s.currCrTag].wrCr && !TagMatch(InstrTag(s.currCrTag, true), i.complete)
  }

  function CrPort(s: State, i: Inputs): Port
    requires Shape(s)
  {
    var t := InstrTag(s.currCrTag, CrPending(s, i));
    if EX1_BYPASS && TagMatch(i.crEx1.tag, t) then Ex1
    else if EX1_BYPASS && TagMatch(i.crEx2.tag, t) then Ex2
    else NoPort
  }

  predicate OvStall(s: State, i: Inputs)
    requires Shape(s)
  {
    Cur(s, i).readOv && s.tags[s.currOvTag].wrOv && !TagMatch(InstrTag(s.currOvTag, true), i.complete)
  }

  predicate SerialStall(s: State, i: Inputs)
    requires Shape(s)
  {
    s.tags[s.prevTag].valid && !TagMatch(InstrTag(s.prevTag, true), i.complete)
  }

  predicate ValidOut(s: State, i: Inputs)
    requires Shape(s)
  {
    var x := Cur(s, i);
    && ValidIn(s, i) && !i.flush
    && !RegStall(s, i, x.a) && !RegStall(s, i, x.b) && !RegStall(s, i, x.c)
    && !(CrPending(s, i) && CrPort(s, i) == NoPort)
    && !OvStall(s, i)
    && !(Serialize(s, i) && SerialStall(s, i))
  }

  /** The instruction gets a tag and moves to execute1. */
  predicate Issues(s: State, i: Inputs)
    requires Shape(s)
  {
    ValidOut(s, i) && !Deferred(s, i)
  }

  /** Operand value: a bypass port wins, then a value captured earlier, then register file or constant. */
  function Operand(s: State, i: Inputs, p: Option<nat>, held: Data, read: Data, constant: Data): Data {
    match (if p.Some? then PortFor(i, p.value) else NoPort)
    case Ex1 => i.ex1.data
    case Ex2 => i.ex2.data
    case Wb => i.wb.data
    case NoPort => if s.dc2.busy then held else if p.Some? then read else constant
  }

  // ----- next state -----

  function NextTag(s: State, i: Inputs, t: nat): TagReg
    requires Shape(s) && t < TAG_COUNT
  {
    var x := Cur(s, i);
    var g := s.tags[t];
    if i.flush then g.(wrGpr := false, wrCr := false, wrOv := false, valid := false)
    else if Issues(s, i) && t == s.currTag then
      TagReg(x.dest.Some?, if x.dest.Some? then x.dest.value else 0, x.dest.Some?, x.writeCr, x.writeOv, true)
    else
      var done := i.complete.valid && t == i.complete.tag;
      TagReg(g.wrGpr && !done, g.reg,
             g.recent && !(Issues(s, i) && x.dest.Some? && g.reg == x.dest.value),
             g.wrCr && !done, g.wrOv && !done, g.valid && !done)
  }

  function NextDecoded(s: State, i: Inputs): Decoded
    requires Shape(s)
  {
    var x := Cur(s, i);
    if i.flush then
      Decoded(false, false, NOP, 0, 0, 0, 0, 0, InstrTag(0, false), false, false)
    else if Deferred(s, i) then s.dc2
    else
      Decoded(ValidIn(s, i) && !ValidOut(s, i), ValidOut(s, i), x,
              Operand(s, i, x.a, s.dc2.dataA, i.readA, x.constA),
              Operand(s, i, x.b, s.dc2.dataB, i.readB, x.constB),
              Operand(s, i, x.c, s.dc2.dataC, i.readC, 0),
              (match CrPort(s, i) case Ex1 => i.crEx1.data case Ex2 => i.crEx2.data case _ => i.readCr),
              i.readOv, InstrTag(s.currTag, Issues(s, i)), Sgl(s, i), PrevSgl(s, i))
  }

  function Next(s: State, i: Inputs): (s': State)
    requires Shape(s)
    ensures Shape(s')
  {
    State(seq(TAG_COUNT, t requires 0 <= t < TAG_COUNT => NextTag(s, i, t)),
          if Issues(s, i) then (s.currTag + 1) % TAG_COUNT else s.currTag,
          if Issues(s, i) && Cur(s, i).writeCr then s.currTag else s.currCrTag,
          if Issues(s, i) && Cur(s, i).writeOv then s.currTag else s.currOvTag,
          if ValidOut(s, i) then s.currTag else s.prevTag,
          NextDecoded(s, i))
  }
}
