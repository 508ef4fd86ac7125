/** The simulated UART of uart-verilator.c: uart_rx turns bytes into a line level per tick, uart_tx turns the line back
    into bytes. */
module Uart {
  import opened Wrappers

  /** Bit 0, sent first, at index 0. */
  type Byte = s: seq<bool> | |s| == 8 witness [false, false, false, false, false, false, false, false]

  const NUL: Byte := [false, false, false, false, false, false, false, false]
  const RX_INTERVAL: nat := 10000

  datatype Phase = Idle | StartBit | Bits | StopBit | Error

  /** `unsigned long` decrement. */
  function Dec(n: nat): nat { if n == 0 then P64 - 1 else n - 1 }

  datatype Tx = Tx(phase: Phase, count: nat, bits: nat, byte: Byte, prev: bool)

  /** The transition at `count` ticks before the end of a bit is neither close to its end nor to its start: the ratio to
      the bit width lies between 0.05 and 0.95. */
  predicate IsError(width: nat, count: nat) { 20 * count <= 19 * width && 20 * count >= width }

  datatype Rx = Rx(phase: Phase, ch: Byte, count: nat, bit: nat, line: bool, sometimes: nat)

  /** uart_tx: the new state and the bytes written out. A line that falls exactly at the end of the stop bit makes the
      byte come out twice. */
  function TxNext(t: Tx, width: nat, line: bool): (Tx, seq<Byte>) {
    var c := Dec(t.count);
    var failed := Tx(Error, 2 * width, t.bits, t.byte, line);
    match t.phase
    case Idle =>
      (if line then t.(prev := line) else Tx(StartBit, width, 0, NUL, line), [])
    case StartBit =>
      if line && IsError(width, c) then (failed, [])
      else if c == 0 then (t.(phase := Bits, count := width, prev := line), [])
      else (t.(count := c, prev := line), [])
    case Bits =>
      var sample := c == width / 2;
      var byte := if sample && t.bits < 8 then t.byte[t.bits := t.byte[t.bits] || line] else t.byte;
      var bits := if sample then (t.bits + 1) % 256 else t.bits;
      if line != t.prev && IsError(width, c) then (failed.(bits := bits, byte := byte), [])
      else if c == 0 then (Tx(if bits == 8 then StopBit else Bits, width, bits, byte, line), [])
      else (Tx(Bits, c, bits, byte, line), [])
    case StopBit =>
      if !line && IsError(width, c) then (failed, [])
      else (t.(phase := if !line || c == 0 then Idle else StopBit, count := c, prev := line),
            (if !line then [t.byte] else []) + (if c == 0 then [t.byte] else []))
    case Error =>
      (t.(phase := if c == 0 then Idle else Error, count := c, prev := line), [])
  }

  /** uart_rx: `input` is what nonblocking_read would return if it were called now. */
  function RxNext(r: Rx, width: nat, input: Option<Byte>): Rx {
    var c := Dec(r.count);
    match r.phase
    case Idle =>
      if r.sometimes >= RX_INTERVAL then
        if input.Some? then Rx(StartBit, input.value, width, 0, false, 0) else r.(sometimes := 0)
      else r.(sometimes := (r.sometimes + 1) % P64)
    case StartBit =>
      if c == 0 then r.(phase := Bits, count := width, line := r.ch[0]) else r.(count := c)
    case Bits =>
      if c != 0 then r.(count := c)
      else if r.bit >= 7 then r.(bit := (r.bit + 1) % 256, line := true, phase := StopBit, count := width)
      else r.(bit := r.bit + 1, line := r.ch[r.bit + 1], count := width)
    case StopBit => r.(phase := if c == 0 then Idle else StopBit, count := c)
    case Error => r
  }

  /** nonblocking_read is called and returns a byte. */
  predicate Takes(r: Rx, input: Option<Byte>) { r.phase == Idle && r.sometimes >= RX_INTERVAL && input.Some? }

  class Uart {
    var tx: Tx
    var rx: Rx

    constructor ()
      ensures tx == START.tx && rx == START.rx
    {
      tx := Tx(Idle, 0, 0, NUL, false);
      rx := Rx(Idle, NUL, 0, 0, true, 0);
    }

    method UartRx(width: nat, input: Option<Byte>) returns (line: bool)
      requires rx.phase == Bits ==> rx.bit < 8
      requires rx.phase != Error
      modifies this`rx
      ensures rx == RxNext(old(rx), width, input) && line == rx.line
    {
      match rx.phase {
        case Idle =>
          if rx.sometimes >= RX_INTERVAL {
            rx := rx.(sometimes := 0);
            if input.Some? {
              rx := rx.(phase := StartBit, ch := input.value, count := width, bit := 0, line := false);
            }
          } else {
            rx := rx.(sometimes := (rx.sometimes + 1) % P64);
          }
        case StartBit =>
          rx := rx.(count := Dec(rx.count));
          if rx.count == 0 {
            rx := rx.(phase := Bits, count := width, line := rx.ch[0]);
          }
        case Bits =>
          rx := rx.(count := Dec(rx.count));
          if rx.count == 0 {
            rx := rx.(bit := rx.bit + 1);
            if rx.bit == 8 {
              rx := rx.(line := true, phase := StopBit);
            } else {
              rx := rx.(line := rx.ch[rx.bit]);
            }
            rx := rx.(count := width);
          }
        case StopBit =>
          rx := rx.(count := Dec(rx.count));
          if rx.count == 0 {
            rx := rx.(phase := Idle);
          }
      }
      line := rx.line;
    }

    method UartTx(width: nat, line: bool) returns (written: seq<Byte>)
      requires tx.bits < 256
      modifies this`tx
      ensures tx == TxNext(old(tx), width, line).0 && written == TxNext(old(tx), width, line).1
    {
      written := [];
      var t := tx;
      match tx.phase {
        case Idle =>
          if !line {
            t := Tx(StartBit, width, 0, NUL, t.prev);
          }
        case StartBit =>
          t := t.(count := Dec(t.count));
          if line && IsError(width, t.count) {
            t := t.(count := 2 * width, phase := Error);
          } else if t.count == 0 {
            t := t.(phase := Bits, count := width);
          }
        case Bits =>
          t := t.(count := Dec(t.count));
          if t.count == width / 2 {
            if t.bits < 8 {
              t := t.(byte := t.byte[t.bits := t.byte[t.bits] || line]);
            }
            t := t.(bits := (t.bits + 1) % 256);
          }
          if line != t.prev && IsError(width, t.count) {
            t := t.(count := 2 * width, phase := Error);
          } else if t.count == 0 {
            if t.bits == 8 {
              t := t.(phase := StopBit);
            }
            t := t.(count := width);
          }
        case StopBit =>
          t := t.(count := Dec(t.count));
          if !line && IsError(width, t.count) {
            t := t.(count := 2 * width, phase := Error);
          } else {
            if !line {
              written := [t.byte];
              t := t.(phase := Idle);
            }
            if t.count == 0 {
              written := written + [t.byte];
              t := t.(phase := Idle);
            }
          }
        case Error =>
          t := t.(count := Dec(t.count));
          if t.count == 0 {
            t := t.(phase := Idle);
          }
      }
      tx := t.(prev := line);
    }
  }

  // ----- loopback -----

  /** Receiver and transmitter on one line, with the bytes read and written so far. */
  datatype Loop = Loop(tx: Tx, rx: Rx, read: seq<Byte>, written: seq<Byte>)

  function Tick(l: Loop, width: nat, input: Option<Byte>): Loop {
    var r := RxNext(l.rx, width, input);
    var (t, out) := TxNext(l.tx, width, r.line);
    Loop(t, r, if Takes(l.rx, input) then l.read + [input.value] else l.read,
         l.written + out)
  }

  /** What the transmitter reassembles: with one tick per bit it samples every bit one tick late. */
  function Heard(width: nat, b: Byte): Byte { if width >= 2 then b else b[1..] + [true] }

  function HeardAll(width: nat, bs: seq<Byte>): seq<Byte> {
    seq(|bs|, i requires 0 <= i < |bs| => Heard(width, bs[i]))
  }

  /** Bits sampled so far. */
  function Sampled(width: nat, r: Rx): nat { r.bit + (if r.count <= width / 2 then 1 else 0) }

  /** The low `n` bits of `h`. */
  ghost predicate HasBits(b: Byte, h: Byte, n: nat) { forall k | 0 <= k < 8 :: b[k] == (k < n && h[k]) }

  lemma Gathered(b: Byte, h: Byte, n: nat, x: bool)
    requires n < 8 && HasBits(b, h, n) && x == h[n]
    ensures HasBits(b[n := b[n] || x], h, n + 1)
  {
  }

  lemma AllBits(b: Byte, h: Byte)
    requires HasBits(b, h, 8)
    ensures b == h
  {
  }

  lemma NoBits(h: Byte)
    ensures HasBits(NUL, h, 0)
  {
  }

  /** Both ends are in the same phase with the same count, and the sampled bits are right. */
  ghost predicate Sync(t: Tx, r: Rx, width: nat) {
    match r.phase
    case Idle => t.phase == Idle && r.line
    case StartBit =>
      t.phase == StartBit && 1 <= r.count <= width && t.count == r.count && !r.line && !t.prev
      && t.bits == 0 && t.byte == NUL && r.bit == 0
    case Bits =>
      t.phase == Bits && 1 <= r.count <= width && t.count == r.count && r.bit < 8 && r.line == r.ch[r.bit]
      && t.prev == r.line && t.bits == Sampled(width, r)
      && HasBits(t.byte, Heard(width, r.ch), t.bits)
    case StopBit =>
      t.phase == StopBit && 1 <= r.count <= width && t.count == r.count && r.line && t.byte == Heard(width, r.ch)
    case Error => false
  }

  ghost predicate LoopInv(l: Loop, width: nat) {
    && Sync(l.tx, l.rx, width)
    && (l.rx.phase == Idle ==> l.written == HeardAll(width, l.read))
    && (l.rx.phase != Idle ==>
          l.read != [] && l.rx.ch == l.read[|l.read| - 1]
          && l.written == HeardAll(width, l.read[..|l.read| - 1]))
  }

  lemma SampleRight(r: Rx, width: nat)
    requires width >= 1 && r.phase == Bits && 1 <= r.count <= width && r.bit < 8 && r.line == r.ch[r.bit]
    requires r.count - 1 == width / 2
    ensures RxNext(r, width, None).line == Heard(width, r.ch)[r.bit]
  {
  }

  lemma BitsStep(t: Tx, r: Rx, width: nat)
    requires width >= 1 && r.phase == Bits && Sync(t, r, width)
    ensures var r' := RxNext(r, width, None);
            var (t', out) := TxNext(t, width, r'.line);
            Sync(t', r', width) && r'.ch == r.ch && out == []
  {
    hide Heard, HasBits;
    if t.bits == 8 {
      AllBits(t.byte, Heard(width, r.ch));
    }
    if r.count - 1 == width / 2 {
      SampleRight(r, width);
      var x := RxNext(r, width, None).line;
      Gathered(t.byte, Heard(width, r.ch), r.bit, x);
      if r.bit == 7 {
        AllBits(t.byte[7 := t.byte[7] || x], Heard(width, r.ch));
      }
    }
  }

  lemma SyncStep(t: Tx, r: Rx, width: nat, input: Option<Byte>)
    requires width >= 1 && Sync(t, r, width)
    ensures var r' := RxNext(r, width, input);
            var (t', out) := TxNext(t, width, r'.line);
            && Sync(t', r', width)
            && (r.phase != Idle ==> r'.ch == r.ch)
            && (r.phase == Idle ==> (r'.phase != Idle) == Takes(r, input)
                                    && (Takes(r, input) ==> r'.ch == input.value))
            && out == (if r.phase == StopBit && r'.phase == Idle then [Heard(width, r.ch)] else [])
            && (r.phase != Idle && r'.phase == Idle ==> r.phase == StopBit)
  {
    hide HasBits, Heard;
    if r.phase == Bits {
      BitsStep(t, r, width);
    } else {
      NoBits(Heard(width, r.ch));
    }
  }

  lemma LoopStep(l: Loop, width: nat, input: Option<Byte>)
    requires width >= 1 && LoopInv(l, width)
    ensures LoopInv(Tick(l, width, input), width)
  {
    SyncStep(l.tx, l.rx, width, input);
    if Takes(l.rx, input) {
      assert (l.read + [input.value])[..|l.read|] == l.read;
    }
  }

  function Ticks(l: Loop, width: nat, inputs: seq<Option<Byte>>): Loop
    decreases |inputs|
  {
    if inputs == [] then l else Tick(Ticks(l, width, inputs[..|inputs| - 1]), width, inputs[|inputs| - 1])
  }

  const START: Loop := Loop(Tx(Idle, 0, 0, NUL, false), Rx(Idle, NUL, 0, 0, true, 0), [], [])

  lemma {:induction false} TicksInv(width: nat, inputs: seq<Option<Byte>>)
    requires width >= 1
    ensures LoopInv(Ticks(START, width, inputs), width)
    decreases |inputs|
  {
    if inputs != [] {
      TicksInv(width, inputs[..|inputs| - 1]);
      LoopStep(Ticks(START, width, inputs[..|inputs| - 1]), width, inputs[|inputs| - 1]);
    }
  }

  /** The bytes that have left the line: all that were read but the one now on it. */
  function Sent(z: Loop): seq<Byte> { if z.rx.phase == Idle || z.read == [] then z.read else z.read[..|z.read| - 1] }

  /** For every bit width of at least one tick and every stream: each byte read is written exactly once and in order, no
      state is ERROR and no counter is decremented below zero. */
  lemma LoopbackRun(width: nat, inputs: seq<Option<Byte>>)
    requires width >= 1
    ensures var z := Ticks(START, width, inputs);
            && |z.written| == |Sent(z)| && (forall i | 0 <= i < |Sent(z)| :: z.written[i] == Heard(width, Sent(z)[i]))
            && z.tx.phase != Error && z.rx.phase != Error
            && (z.tx.phase != Idle ==> 1 <= z.tx.count <= width) && (z.rx.phase != Idle ==> 1 <= z.rx.count <= width)
  {
    TicksInv(width, inputs);
  }

  predicate AllOnes(b: Byte) { forall k | 0 <= k < 8 :: b[k] }

  lemma UnchangedIff(width: nat, b: Byte)
    requires width >= 1
    ensures Heard(width, b) == b <==> width >= 2 || AllOnes(b)
  {
    if width == 1 && Heard(1, b) == b {
      assert b[7] == Heard(1, b)[7] && b[6] == Heard(1, b)[6] && b[5] == Heard(1, b)[5] && b[4] == Heard(1, b)[4];
      assert b[3] == Heard(1, b)[3] && b[2] == Heard(1, b)[2] && b[1] == Heard(1, b)[1] && b[0] == Heard(1, b)[0];
    }
  }

  /** The bytes come out unchanged exactly when a bit lasts at least two ticks, or every byte is 0xFF. */
  lemma LoopbackCorrect(width: nat, inputs: seq<Option<Byte>>)
    requires width >= 1
    ensures var z := Ticks(START, width, inputs);
            z.written == Sent(z) <==> width >= 2 || forall b | b in Sent(z) :: AllOnes(b)
  {
    var z := Ticks(START, width, inputs);
    LoopbackRun(width, inputs);
    forall b: Byte ensures Heard(width, b) == b <==> width >= 2 || AllOnes(b) { UnchangedIff(width, b); }
    if z.written == Sent(z) {
      forall i | 0 <= i < |Sent(z)| ensures Heard(width, Sent(z)[i]) == Sent(z)[i] {
        assert z.written[i] == Sent(z)[i];
      }
    }
  }
}
