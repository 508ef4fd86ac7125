/** The clocked processes of control.vhdl and decode2.vhdl in the source's order of assignment. */
module ScoreboardUnit {
  import opened Wrappers
  import opened Scoreboard

  /** The loop over tags that looks for an outstanding writer of an operand register. */
  method ScanTags(tags: array<TagReg>, i: Inputs, p: Option<nat>) returns (stall: bool)
    requires tags.Length == TAG_COUNT
    ensures stall == (p.Some? && ScanStall(tags[..], i, p.value, TAG_COUNT))
  {
    stall := false;
    for t := 0 to TAG_COUNT
      invariant stall == (p.Some? && ScanStall(tags[..], i, p.value, t))
    {
      if p.Some? && tags[t].valid && tags[t].recent && tags[t].reg == p.value {
        stall := true;
        if (EX1_BYPASS && TagMatch(i.ex1.tag, InstrTag(t, true)))
           || (EX1_BYPASS && TagMatch(i.ex2.tag, InstrTag(t, true)))
           || TagMatch(i.complete, InstrTag(t, true)) {
          stall := false;
        }
      }
    }
  }

  class IssueControl {
    const tags: array<TagReg>
    var currTag: nat
    var currCrTag: nat
    var currOvTag: nat
    var prevTag: nat
    var dc2: Decoded

    constructor ()
      ensures Shape(View()) && fresh(tags)
      ensures forall t | 0 <= t < TAG_COUNT :: !tags[t].valid && !tags[t].wrCr && !tags[t].wrOv
      ensures !dc2.busy && !dc2.valid
    {
      tags := new TagReg[TAG_COUNT](_ => TagReg(false, 0, false, false, false, false));
      currTag, currCrTag, currOvTag, prevTag := 0, 0, 0, 0;
      dc2 := Decoded(false, false, NOP, 0, 0, 0, 0, 0, InstrTag(0, false), false, false);
    }

    ghost function View(): State
      reads this, tags
    {
      State(tags[..], currTag, currCrTag, currOvTag, prevTag, dc2)
    }

    /** Register hazards. */
    method GprStall(i: Inputs, x: Instr) returns (stall: bool)
      requires Shape(View()) && x == Cur(View(), i)
      ensures stall == (RegStall(View(), i, x.a) || RegStall(View(), i, x.b) || RegStall(View(), i, x.c))
    {
      var stallA := ScanTags(tags, i, x.a);
      var stallB := ScanTags(tags, i, x.b);
      var stallC := ScanTags(tags, i, x.c);
      stall := stallA || stallB || stallC;
    }

    /** CR hazard. */
    method CrStall(i: Inputs, x: Instr) returns (stall: bool)
      requires Shape(View()) && x == Cur(View(), i)
      ensures stall == (CrPending(View(), i) && CrPort(View(), i) == NoPort)
    {
      var crValid := (x.writeCr || x.inputCr) && tags[currCrTag].wrCr;
      if TagMatch(InstrTag(currCrTag, crValid), i.complete) {
        crValid := false;
      }
      var t := InstrTag(currCrTag, crValid);
      stall := crValid && !(EX1_BYPASS && (TagMatch(i.crEx1.tag, t) || TagMatch(i.crEx2.tag, t)));
    }

    /** Overflow hazard and the wait for the previous instruction. */
    method OtherStalls(i: Inputs, x: Instr) returns (ovStall: bool, serialStall: bool)
      requires Shape(View()) && x == Cur(View(), i)
      ensures ovStall == OvStall(View(), i) && serialStall == SerialStall(View(), i)
    {
      ovStall := x.readOv && tags[currOvTag].wrOv;
      if TagMatch(InstrTag(currOvTag, ovStall), i.complete) {
        ovStall := false;
      }
      serialStall := tags[prevTag].valid;
      if TagMatch(InstrTag(prevTag, serialStall), i.complete) {
        serialStall := false;
      }
    }

    /** Issue decision of control1. */
    method Decide(i: Inputs) returns (validOut: bool)
      requires Shape(View())
      ensures validOut == ValidOut(View(), i)
    {
      var x := if dc2.busy then dc2.ins else if i.d.Some? then i.d.value else NOP;
      var gprStall := GprStall(i, x);
      var crStall := CrStall(i, x);
      var ovStall, serialStall := OtherStalls(i, x);
      var arriving := !dc2.busy && i.d.Some?;
      var serialize := (if arriving then i.d.value.sglPipe else dc2.sgl)
                       || (if arriving then dc2.sgl else dc2.prevSgl);
      validOut := (i.d.Some? || dc2.busy) && !i.flush;
      if gprStall || crStall || ovStall || (serialize && serialStall) {
        validOut := false;
      }
    }

    /** One operand: from a bypass port, the register file or an immediate, or kept from when the instruction arrived.
        */
    method TakeOperand(i: Inputs, p: Option<nat>, held: Data, read: Data, constant: Data) returns (d: Data)
      ensures d == Operand(View(), i, p, held, read, constant)
    {
      d := held;
      if p.Some? && EX1_BYPASS && i.ex1.tag.valid && i.ex1.reg == p.value {
        d := i.ex1.data;
      } else if p.Some? && EX1_BYPASS && i.ex2.tag.valid && i.ex2.reg == p.value {
        d := i.ex2.data;
      } else if p.Some? && i.wb.tag.valid && i.wb.reg == p.value {
        d := i.wb.data;
      } else if !dc2.busy {
        d := if p.Some? then read else constant;
      }
    }

    /** The condition register: from a bypass port, or as read. */
    method TakeCr(i: Inputs, x: Instr) returns (d: Data)
      requires Shape(View()) && x == Cur(View(), i)
      ensures d == match CrPort(View(), i) case Ex1 => i.crEx1.data case Ex2 => i.crEx2.data case _ => i.readCr
    {
      var pending := ReadsCr(x) && tags[currCrTag].wrCr;
      if i.complete.valid && i.complete.tag == currCrTag {
        pending := false;
      }
      d := i.readCr;
      if EX1_BYPASS && pending && i.crEx1.tag.valid && i.crEx1.tag.tag == currCrTag {
        d := i.crEx1.data;
      } else if EX1_BYPASS && pending && i.crEx2.tag.valid && i.crEx2.tag.tag == currCrTag {
        d := i.crEx2.data;
      }
    }

    /** decode2: the instruction register, with the operands captured. */
    method Capture(i: Inputs, x: Instr, validOut: bool, issue: bool) returns (d: Decoded)
      requires Shape(View()) && x == Cur(View(), i)
      requires validOut == ValidOut(View(), i) && issue == Issues(View(), i)
      ensures d == NextDecoded(View(), i)
    {
      if i.flush {
        return Decoded(false, false, NOP, 0, 0, 0, 0, 0, InstrTag(0, false), false, false);
      }
      if dc2.valid && i.busy {
        return dc2;
      }
      var dataA := TakeOperand(i, x.a, dc2.dataA, i.readA, x.constA);
      var dataB := TakeOperand(i, x.b, dc2.dataB, i.readB, x.constB);
      var dataC := TakeOperand(i, x.c, dc2.dataC, i.readC, 0);
      var cr := TakeCr(i, x);
      var validIn := i.d.Some? || dc2.busy;
      var sgl, prevSgl := dc2.sgl, dc2.prevSgl;
      if !dc2.busy && i.d.Some? {
        sgl, prevSgl := i.d.value.sglPipe, dc2.sgl;
      }
      d := Decoded(validIn && !validOut, validOut, x, dataA, dataB, dataC, cr, i.readOv, InstrTag(currTag, issue),
                   sgl, prevSgl);
    }

    /** One rising clock edge. */
    method Clock(i: Inputs)
      requires Shape(View())
      modifies this, tags
      ensures View() == Next(old(View()), i)
    {
      var s := State(tags[..], currTag, currCrTag, currOvTag, prevTag, dc2);
      var validOut := Decide(i);
      var x := if dc2.busy then dc2.ins else if i.d.Some? then i.d.value else NOP;
      var issue := validOut && !(dc2.valid && i.busy);
      var decoded := Capture(i, x, validOut, issue);
      for t := 0 to TAG_COUNT
        invariant this.currTag == s.currTag && this.currCrTag == s.currCrTag && this.currOvTag == s.currOvTag
        invariant this.prevTag == s.prevTag && this.dc2 == s.dc2
        invariant forall u | 0 <= u < TAG_COUNT :: tags[u] == if u < t then NextTag(s, i, u) else s.tags[u]
      {
        var g := tags[t];
        if i.flush {
          g := g.(wrGpr := false, wrCr := false, wrOv := false, valid := false);
        } else {
          if i.complete.valid && t == i.complete.tag {
            g := g.(wrGpr := false, wrCr := false, wrOv := false, valid := false);
          }
          if issue && x.dest.Some? && tags[t].reg == x.dest.value {
            g := g.(recent := false);
          }
          if issue && t == currTag {
            g := TagReg(x.dest.Some?, if x.dest.Some? then x.dest.value else 0, x.dest.Some?, x.writeCr, x.writeOv,
                        true);
          }
        }
        tags[t] := g;
      }
      if issue && x.writeCr {
        currCrTag := currTag;
      }
      if issue && x.writeOv {
        currOvTag := currTag;
      }
      if validOut {
        prevTag := currTag;
      }
      if issue {
        currTag := (currTag + 1) % TAG_COUNT;
      }
      dc2 := decoded;
      assert tags[..] == Next(s, i).tags;
    }
  }
}
