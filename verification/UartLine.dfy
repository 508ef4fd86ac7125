/** uart_tx on a line of exact frames, and the loopback at one tick per bit. */
module UartLine {
  import opened Wrappers
  import opened Uart

  /** uart_tx called once per level: the state and the bytes written. */
  function Hear(t: Tx, width: nat, line: seq<bool>): (Tx, seq<Byte>) {
    if line == [] then (t, [])
    else
      var (t1, out1) := Hear(t, width, line[..|line| - 1]);
      var (t2, out2) := TxNext(t1, width, line[|line| - 1]);
      (t2, out1 + out2)
  }

  lemma {:induction false} HearJoin(t: Tx, width: nat, a: seq<bool>, b: seq<bool>)
    ensures var (t1, out1) := Hear(t, width, a);
            var (t2, out2) := Hear(t1, width, b);
            Hear(t, width, a + b) == (t2, out1 + out2)
  {
    hide TxNext;
    if b == [] {
      assert a + b == a;
      assert Hear(t, width, a).1 + [] == Hear(t, width, a).1;
    } else {
      assert (a + b)[..|a + b| - 1] == a + b[..|b| - 1];
      HearJoin(t, width, a, b[..|b| - 1]);
      var (t1, out1) := Hear(t, width, a);
      var (t2, out2) := Hear(t1, width, b[..|b| - 1]);
      var out3 := TxNext(t2, width, b[|b| - 1]).1;
      assert out1 + out2 + out3 == out1 + (out2 + out3);
    }
  }

  lemma HearOne(t: Tx, width: nat, x: bool)
    ensures Hear(t, width, [x]) == TxNext(t, width, x)
  {
    hide TxNext;
    assert [x][..0] == [];
    assert Hear(t, width, []) == (t, []);
    assert [] + TxNext(t, width, x).1 == TxNext(t, width, x).1;
  }

  function Levels(x: bool, n: nat): (r: seq<bool>)
    ensures |r| == n
  {
    seq(n, _ => x)
  }

  function BitsFrom(width: nat, b: Byte, k: nat): seq<bool>
    requires k <= 8
    decreases 8 - k
  {
    if k == 8 then [] else Levels(b[k], width) + BitsFrom(width, b, k + 1)
  }

  /** A start bit, eight data bits and a stop bit of exactly `width` ticks each. */
  function Frame(width: nat, b: Byte): seq<bool> {
    Levels(false, width) + BitsFrom(width, b, 0) + Levels(true, width)
  }

  /** Within a bit, both ends count down together. */
  lemma {:induction false} WithinBit(t: Tx, r: Rx, width: nat, n: nat)
    requires width >= 1 && Sync(t, r, width) && r.phase != Idle && n < r.count
    ensures var (t', out) := Hear(t, width, Levels(r.line, n));
            Sync(t', r.(count := r.count - n), width) && out == []
  {
    hide Sync, TxNext;
    if n > 0 {
      assert Levels(r.line, n)[..n - 1] == Levels(r.line, n - 1);
      WithinBit(t, r, width, n - 1);
      var t1 := Hear(t, width, Levels(r.line, n - 1)).0;
      var r1 := r.(count := r.count - (n - 1));
      CountsDown(t1, r1, width);
      SyncStep(t1, r1, width, None);
    }
  }

  lemma CountsDown(t: Tx, r: Rx, width: nat)
    requires Sync(t, r, width) && r.phase != Idle && r.count > 1
    ensures RxNext(r, width, None) == r.(count := r.count - 1)
  {
  }

  /** The end of one bit and all of the next but its last tick. */
  lemma WholeBit(t: Tx, r: Rx, width: nat)
    requires width >= 1 && Sync(t, r, width) && r.phase in {StartBit, Bits} && r.count == 1
    ensures var r' := RxNext(r, width, None);
            var (t', out) := Hear(t, width, Levels(r'.line, width));
            Sync(t', r'.(count := 1), width) && out == []
  {
    hide TxNext, Hear, Levels;
    var r' := RxNext(r, width, None);
    SyncStep(t, r, width, None);
    HearOne(t, width, r'.line);
    WithinBit(Hear(t, width, [r'.line]).0, r', width, width - 1);
    LevelsFirst(r'.line, width);
    HearJoin(t, width, [r'.line], Levels(r'.line, width - 1));
  }

  /** The receiver at the last tick before data bit `k`. */
  function Before(width: nat, b: Byte, k: nat): Rx
    requires k <= 8
  {
    if k == 0 then Rx(StartBit, b, 1, 0, false, 0) else Rx(Bits, b, 1, k - 1, b[k - 1], 0)
  }

  lemma {:induction false} DataBits(t: Tx, width: nat, b: Byte, k: nat)
    requires width >= 1 && k <= 8 && Sync(t, Before(width, b, k), width)
    ensures var (t', out) := Hear(t, width, BitsFrom(width, b, k));
            Sync(t', Before(width, b, 8), width) && out == []
    decreases 8 - k
  {
    hide Sync, TxNext;
    if k < 8 {
      WholeBit(t, Before(width, b, k), width);
      var t1 := Hear(t, width, Levels(b[k], width)).0;
      assert RxNext(Before(width, b, k), width, None).(count := 1) == Before(width, b, k + 1);
      DataBits(t1, width, b, k + 1);
      HearJoin(t, width, Levels(b[k], width), BitsFrom(width, b, k + 1));
    }
  }

  lemma StartHeard(t: Tx, width: nat, b: Byte)
    requires width >= 1 && t.phase == Idle
    ensures var (t', out) := Hear(t, width, Levels(false, width)); Sync(t', Before(width, b, 0), width) && out == []
  {
    HearOne(t, width, false);
    var r := Rx(StartBit, b, width, 0, false, 0);
    var t1 := Hear(t, width, [false]).0;
    assert Sync(t1, r, width);
    WithinBit(t1, r, width, width - 1);
    assert Levels(false, width) == [false] + Levels(false, width - 1);
    HearJoin(t, width, [false], Levels(false, width - 1));
  }

  lemma LastStop(t: Tx, width: nat, b: Byte)
    requires width >= 1 && Sync(t, RxNext(Before(width, b, 8), width, None).(count := 1), width)
    ensures t.phase == StopBit && t.count == 1 && t.byte == Heard(width, b)
  {
  }

  /** After a frame the transmitter is one tick before the end of its stop bit, with the byte complete. */
  lemma FrameHeard(t: Tx, width: nat, b: Byte)
    requires width >= 1 && t.phase == Idle
    ensures var (t', out) := Hear(t, width, Frame(width, b));
            t'.phase == StopBit && t'.count == 1 && t'.byte == Heard(width, b) && out == []
  {
    hide TxNext, Heard, Hear, Levels, BitsFrom, Sync;
    StartHeard(t, width, b);
    var start, bits, stop := Levels(false, width), BitsFrom(width, b, 0), Levels(true, width);
    var t1 := Hear(t, width, start).0;
    DataBits(t1, width, b, 0);
    var t2 := Hear(t1, width, bits).0;
    WholeBit(t2, Before(width, b, 8), width);
    HearJoin(t, width, start, bits);
    HearJoin(t, width, start + bits, stop);
    LastStop(Hear(t2, width, stop).0, width, b);
  }

  /** A frame writes its byte at the tick after it: once if the line is idle then, twice if the next start bit follows
      at once. */
  lemma FrameThen(t: Tx, width: nat, b: Byte, x: bool)
    requires width >= 1 && t.phase == Idle
    ensures Hear(t, width, Frame(width, b) + [x]).1 ==
            if x then [Heard(width, b)] else [Heard(width, b), Heard(width, b)]
  {
    FrameHeard(t, width, b);
    HearJoin(t, width, Frame(width, b), [x]);
    HearOne(Hear(t, width, Frame(width, b)).0, width, x);
  }

  lemma FrameStarts(width: nat, b: Byte)
    requires width >= 1
    ensures Frame(width, b) != [] && Frame(width, b) == [false] + Frame(width, b)[1..]
  {
  }

  /** Two frames back to back, at any width of two ticks or more: the first byte comes out twice. */
  lemma BackToBack(t: Tx, width: nat, b: Byte, c: Byte)
    requires width >= 2 && t.phase == Idle
    ensures [b, b] <= Hear(t, width, Frame(width, b) + Frame(width, c)).1
  {
    hide TxNext, Frame, Hear;
    FrameThen(t, width, b, false);
    FrameStarts(width, c);
    var rest := Frame(width, c)[1..];
    assert Frame(width, b) + Frame(width, c) == Frame(width, b) + [false] + rest;
    HearJoin(t, width, Frame(width, b) + [false], rest);
  }

  // ----- a whole line -----

  /** A frame, and the idle ticks after it. */
  datatype Item = Item(byte: Byte, idle: nat)

  function LineOf(width: nat, items: seq<Item>): seq<bool> {
    if items == [] then []
    else
      var x := items[|items| - 1];
      LineOf(width, items[..|items| - 1]) + (Frame(width, x.byte) + Levels(true, x.idle))
  }

  /** On an idle line uart_tx does nothing. */
  lemma {:induction false} IdleHeard(t: Tx, width: nat, n: nat)
    requires t.phase == Idle
    ensures Hear(t, width, Levels(true, n)).0.phase == Idle && Hear(t, width, Levels(true, n)).1 == []
  {
    if n > 0 {
      IdleHeard(t, width, n - 1);
      assert Levels(true, n)[..n - 1] == Levels(true, n - 1);
    }
  }

  lemma ItemHeard(t: Tx, width: nat, x: Item)
    requires width >= 1 && t.phase == Idle && x.idle >= 1
    ensures var (t', out) := Hear(t, width, Frame(width, x.byte) + Levels(true, x.idle));
            t'.phase == Idle && out == [Heard(width, x.byte)]
  {
    hide Frame, Hear;
    var f, rest := Frame(width, x.byte), Levels(true, x.idle - 1);
    FrameHeard(t, width, x.byte);
    FrameThen(t, width, x.byte, true);
    var t1 := Hear(t, width, f).0;
    HearOne(t1, width, true);
    HearJoin(t, width, f, [true]);
    IdleHeard(Hear(t, width, f + [true]).0, width, x.idle - 1);
    HearJoin(t, width, f + [true], rest);
    assert f + Levels(true, x.idle) == f + [true] + rest;
  }

  /** Any line of exact frames with at least one idle tick after each: every byte is written once and in order. */
  lemma {:induction false} LineHeard(t: Tx, width: nat, items: seq<Item>)
    requires width >= 1 && t.phase == Idle && forall i | 0 <= i < |items| :: items[i].idle >= 1
    ensures var (t', out) := Hear(t, width, LineOf(width, items));
            t'.phase == Idle && out == seq(|items|, i requires 0 <= i < |items| => Heard(width, items[i].byte))
  {
    hide Frame, Hear, Heard;
    if items == [] {
      HearNothing(t, width);
    } else {
      var n := |items| - 1;
      var before, last := LineOf(width, items[..n]), Frame(width, items[n].byte) + Levels(true, items[n].idle);
      LineHeard(t, width, items[..n]);
      ItemHeard(Hear(t, width, before).0, width, items[n]);
      HearJoin(t, width, before, last);
    }
  }

  lemma HearNothing(t: Tx, width: nat)
    ensures Hear(t, width, []) == (t, [])
  {
  }

  // ----- uart_rx drives exact frames -----

  /** The levels of `n` further calls of uart_rx, whatever is offered meanwhile, and the state after them. */
  function Drive(r: Rx, width: nat, n: nat): (Rx, seq<bool>) {
    if n == 0 then (r, [])
    else
      var (r1, line) := Drive(r, width, n - 1);
      var r2 := RxNext(r1, width, None);
      (r2, line + [r2.line])
  }

  /** Offers are ignored while a byte is on the line. */
  lemma OffersIgnored(r: Rx, width: nat, input: Option<Byte>)
    requires r.phase != Idle
    ensures RxNext(r, width, input) == RxNext(r, width, None)
  {
  }

  lemma {:induction false} DriveJoin(r: Rx, width: nat, m: nat, n: nat)
    ensures var (r1, a) := Drive(r, width, m);
            var (r2, b) := Drive(r1, width, n);
            Drive(r, width, m + n) == (r2, a + b)
  {
    hide RxNext;
    var (r1, a) := Drive(r, width, m);
    if n == 0 {
      assert a + [] == a;
    } else {
      DriveJoin(r, width, m, n - 1);
      var (r3, b) := Drive(r1, width, n - 1);
      var x := RxNext(r3, width, None).line;
      assert a + b + [x] == a + (b + [x]);
    }
  }

  lemma {:induction false} DriveWithin(r: Rx, width: nat, n: nat)
    requires r.phase in {StartBit, Bits, StopBit} && n < r.count
    ensures Drive(r, width, n) == (r.(count := r.count - n), Levels(r.line, n))
  {
    if n > 0 {
      DriveWithin(r, width, n - 1);
      assert Levels(r.line, n) == Levels(r.line, n - 1) + [r.line];
    }
  }

  lemma DriveOne(r: Rx, width: nat)
    ensures Drive(r, width, 1) == (RxNext(r, width, None), [RxNext(r, width, None).line])
  {
    hide RxNext;
    assert Drive(r, width, 0) == (r, []);
    assert [] + [RxNext(r, width, None).line] == [RxNext(r, width, None).line];
  }

  lemma LevelsFirst(x: bool, n: nat)
    requires n >= 1
    ensures Levels(x, n) == [x] + Levels(x, n - 1)
  {
  }

  /** The end of one bit and all of the next but its last tick. */
  lemma DriveBit(r: Rx, width: nat)
    requires width >= 1 && r.phase in {StartBit, Bits} && r.count == 1 && (r.phase == Bits ==> r.bit < 8)
    ensures var r' := RxNext(r, width, None);
            Drive(r, width, width) == (r'.(count := 1), Levels(r'.line, width))
  {
    hide Drive, Levels;
    var r' := RxNext(r, width, None);
    DriveOne(r, width);
    DriveWithin(r', width, width - 1);
    DriveJoin(r, width, 1, width - 1);
    LevelsFirst(r'.line, width);
  }

  /** Ticks of the data bits from `k` on. */
  function Span(width: nat, k: nat): nat
    requires k <= 8
    decreases 8 - k
  {
    if k == 8 then 0 else width + Span(width, k + 1)
  }

  lemma SpanAll(width: nat)
    ensures Span(width, 0) == 8 * width
  {
    assert Span(width, 4) == 4 * width;
  }

  lemma BeforeNext(width: nat, b: Byte, k: nat)
    requires k < 8
    ensures var r' := RxNext(Before(width, b, k), width, None);
            r'.(count := 1) == Before(width, b, k + 1) && r'.line == b[k]
    ensures var r := Before(width, b, k);
            r.phase in {StartBit, Bits} && r.count == 1 && (r.phase == Bits ==> r.bit < 8)
  {
  }

  lemma DriveNothing(r: Rx, width: nat)
    ensures Drive(r, width, 0) == (r, [])
  {
  }

  lemma {:induction false} DriveBits(width: nat, b: Byte, k: nat)
    requires width >= 1 && k <= 8
    ensures Drive(Before(width, b, k), width, Span(width, k)) == (Before(width, b, 8), BitsFrom(width, b, k))
    decreases 8 - k
  {
    hide Drive, Levels, RxNext, Before;
    var r := Before(width, b, k);
    if k == 8 {
      DriveNothing(r, width);
    } else {
      BeforeNext(width, b, k);
      DriveBit(r, width);
      DriveBits(width, b, k + 1);
      DriveJoin(r, width, width, Span(width, k + 1));
    }
  }

  /** A byte that uart_rx takes goes out as its frame: the level of the call that takes it is the first of the frame,
      and after the last the line is high and uart_rx idle. */
  lemma RxFrame(r: Rx, width: nat, b: Byte)
    requires width >= 1 && Takes(r, Some(b))
    ensures var r0 := RxNext(r, width, Some(b));
            var (z, line) := Drive(r0, width, 10 * width - 1);
            && [r0.line] + line == Frame(width, b)
            && RxNext(z, width, None).phase == Idle && RxNext(z, width, None).line
  {
    hide Drive, Levels, BitsFrom, Span;
    var r0 := Rx(StartBit, b, width, 0, false, 0);
    assert RxNext(r, width, Some(b)) == r0;
    DriveWithin(r0, width, width - 1);
    DriveBits(width, b, 0);
    SpanAll(width);
    DriveJoin(r0, width, width - 1, 8 * width);
    DriveBit(Before(width, b, 8), width);
    DriveJoin(r0, width, width - 1 + 8 * width, width);
    LevelsFirst(false, width);
    var first, bits, stop := Levels(false, width - 1), BitsFrom(width, b, 0), Levels(true, width);
    assert [false] + (first + bits + stop) == [false] + first + bits + stop;
  }

  // ----- errors -----

  /** uart_tx goes to ERROR exactly on a transition that comes neither within the first nor the last twentieth of a
      bit: a rise in the start bit, a change in a data bit, a fall in the stop bit. */
  lemma ErrorIff(t: Tx, width: nat, line: bool)
    requires width >= 1 && t.phase != Error && t.count >= 1
    ensures TxNext(t, width, line).0.phase == Error <==>
              && ((t.phase == StartBit && line) || (t.phase == Bits && line != t.prev) || (t.phase == StopBit && !line))
              && 0.05 <= (t.count - 1) as real / width as real <= 0.95
  {
    Ratio(t.count - 1, width);
  }

  /** An error lasts two bits: for as many ticks nothing is written, and then uart_tx is idle again. */
  lemma {:induction false} ErrorLasts(t: Tx, width: nat, line: seq<bool>)
    requires t.phase == Error && |line| <= t.count
    ensures var (z, out) := Hear(t, width, line);
            out == [] && (|line| < t.count ==> z.phase == Error && z.count == t.count - |line|)
            && (0 < |line| == t.count ==> z.phase == Idle)
  {
    if line != [] {
      ErrorLasts(t, width, line[..|line| - 1]);
    }
  }

  lemma ErrorBegins(t: Tx, width: nat, line: bool)
    requires t.phase != Error && TxNext(t, width, line).0.phase == Error
    ensures TxNext(t, width, line).0.count == 2 * width && TxNext(t, width, line).1 == []
  {
  }

  lemma Ratio(c: nat, width: nat)
    requires width >= 1
    ensures IsError(width, c) <==> 0.05 <= c as real / width as real <= 0.95
  {
    Quotient(c as real, width as real);
    RatioReal(c as real, width as real, c as real / width as real);
    assert (20 * c) as real == 20.0 * c as real && (19 * width) as real == 19.0 * width as real;
    assert 20 * c <= 19 * width <==> (20 * c) as real <= (19 * width) as real;
    assert width <= 20 * c <==> width as real <= (20 * c) as real;
  }

  lemma Quotient(c: real, w: real)
    requires w > 0.0
    ensures c / w * w == c
  {
  }

  lemma RatioReal(c: real, w: real, e: real)
    requires w > 0.0 && e * w == c
    ensures 0.05 <= e <==> w <= 20.0 * c
    ensures e <= 0.95 <==> 20.0 * c <= 19.0 * w
  {
    Scales(0.05, e, w);
    Scales(e, 0.95, w);
  }

  lemma Scales(a: real, b: real, w: real)
    requires w > 0.0
    ensures a <= b <==> a * w <= b * w
  {
    if a > b {
      assert (a - b) * w > 0.0;
    } else {
      assert (b - a) * w >= 0.0;
    }
  }

  // ----- one tick per bit -----

  /** 0x00 on offer at every tick. */
  function Offers(n: nat): seq<Option<Byte>> { seq(n, _ => Some(NUL)) }

  lemma OfferTick(n: nat)
    ensures Ticks(START, 1, Offers(n + 1)) == Tick(Ticks(START, 1, Offers(n)), 1, Some(NUL))
  {
    hide Tick;
    assert Offers(n + 1)[..n] == Offers(n);
  }

  function Waiter(n: nat): Rx { Rx(Idle, NUL, 0, 0, true, n) }

  lemma WaitStep(n: nat)
    requires n < RX_INTERVAL
    ensures RxNext(Waiter(n), 1, Some(NUL)) == Waiter(n + 1) && !Takes(Waiter(n), Some(NUL))
  {
  }

  lemma {:induction false} Waiting(n: nat)
    requires n <= RX_INTERVAL
    ensures var z := Ticks(START, 1, Offers(n)); z.rx == Waiter(n) && z.read == []
  {
    hide TxNext, RxNext, Takes;
    if n > 0 {
      hide Ticks, Waiter;
      Waiting(n - 1);
      WaitStep(n - 1);
      OfferTick(n - 1);
    }
  }

  /** The receiver `k` ticks after it took the byte. */
  function Sender(k: nat): Rx {
    if k == 0 then Rx(StartBit, NUL, 1, 0, false, 0)
    else if k <= 8 then Rx(Bits, NUL, 1, k - 1, false, 0)
    else if k == 9 then Rx(StopBit, NUL, 1, 8, true, 0)
    else Rx(Idle, NUL, 0, 8, true, 0)
  }

  lemma SenderStep(k: nat)
    requires k < 10
    ensures RxNext(Sender(k), 1, Some(NUL)) == Sender(k + 1) && !Takes(Sender(k), Some(NUL))
  {
  }

  lemma {:induction false} Sending(k: nat)
    requires k <= 10
    ensures var z := Ticks(START, 1, Offers(RX_INTERVAL + 1 + k)); z.read == [NUL] && z.rx == Sender(k)
  {
    hide TxNext, Ticks;
    OfferTick(RX_INTERVAL + k);
    if k == 0 {
      Waiting(RX_INTERVAL);
    } else {
      hide RxNext, Sender, Takes;
      Sending(k - 1);
      SenderStep(k - 1);
    }
  }

  /** With one tick per bit, a 0x00 that is read is written as 0x80: the samples are a tick late. */
  lemma LateSample()
    ensures var z := Ticks(START, 1, Offers(10011)); z.read == [NUL] && z.written == [NUL[7 := true]]
  {
    hide Ticks;
    Sending(10);
    LoopbackRun(1, Offers(RX_INTERVAL + 11));
    assert Heard(1, NUL) == NUL[7 := true];
  }
}
