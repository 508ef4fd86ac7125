/** Doubleword rows, byte lanes, and the and-or multiplexer over ways. */
module Rows {

  /** One 64-bit row, byte lane 0 first. */
  type Row = s: seq<bv8> | |s| == 8 witness [0, 0, 0, 0, 0, 0, 0, 0]

  /** A byte select: one flag per lane. */
  type Lanes = s: seq<bool> | |s| == 8 witness [true, true, true, true, true, true, true, true]

  const ZERO: Row := [0, 0, 0, 0, 0, 0, 0, 0]
  const ALL: Lanes := [true, true, true, true, true, true, true, true]
  const NONE: Lanes := [false, false, false, false, false, false, false, false]

  /** The lanes of `given` that are selected, the other lanes of `prior`. */
  function Merge(sel: Lanes, given: Row, prior: Row): Row {
    seq(8, b requires 0 <= b < 8 => if sel[b] then given[b] else prior[b])
  }

  /** Lane by lane: what is selected is given, the rest stays. */
  lemma MergeLane(sel: Lanes, given: Row, prior: Row, b: nat)
    requires b < 8
    ensures Merge(sel, given, prior)[b] == if sel[b] then given[b] else prior[b]
  {
  }

  lemma MergeNone(given: Row, prior: Row)
    ensures Merge(NONE, given, prior) == prior
  {
    assert forall b :: 0 <= b < 8 ==> Merge(NONE, given, prior)[b] == prior[b];
  }

  lemma MergeAll(given: Row, prior: Row)
    ensures Merge(ALL, given, prior) == given
  {
    assert forall b :: 0 <= b < 8 ==> Merge(ALL, given, prior)[b] == given[b];
  }

  function Or(x: Row, y: Row): Row {
    seq(8, b requires 0 <= b < 8 => x[b] | y[b])
  }

  /** The and-or multiplexer over the first `n` ways. */
  function OrMux(hits: set<nat>, rows: seq<Row>, n: nat): Row
    requires n <= |rows|
  {
    if n == 0 then ZERO
    else Or(if n - 1 in hits then rows[n - 1] else ZERO, OrMux(hits, rows, n - 1))
  }

  lemma OrZero(x: Row)
    ensures Or(x, ZERO) == x && Or(ZERO, x) == x
  {
    assert forall b :: 0 <= b < 8 ==> Or(x, ZERO)[b] == x[b] && Or(ZERO, x)[b] == x[b];
  }

  lemma {:induction false} OrMuxNone(hits: set<nat>, rows: seq<Row>, n: nat)
    requires n <= |rows| && forall w | 0 <= w < n :: w !in hits
    ensures OrMux(hits, rows, n) == ZERO
  {
    if n != 0 {
      OrMuxNone(hits, rows, n - 1);
      OrZero(ZERO);
    }
  }

  /** With exactly one way selected the multiplexer yields that way's row. */
  lemma {:induction false} OrMuxSingle(w: nat, rows: seq<Row>, n: nat)
    requires w < n <= |rows|
    ensures OrMux({w}, rows, n) == rows[w]
  {
    if n - 1 == w {
      OrMuxNone({w}, rows, n - 1);
      OrZero(rows[w]);
    } else {
      OrMuxSingle(w, rows, n - 1);
      OrZero(rows[w]);
    }
  }

  /** Highest way in `hits` below `n`, 0 if there is none (the last assignment of the loop wins). */
  function LastHit(hits: set<nat>, n: nat): (w: nat)
    ensures w < n || w == 0
  {
    if n == 0 then 0
    else if n - 1 in hits then n - 1
    else LastHit(hits, n - 1)
  }

  lemma {:induction false} LastHitIn(hits: set<nat>, n: nat, w: nat)
    requires w in hits && w < n
    ensures LastHit(hits, n) in hits && w <= LastHit(hits, n) < n
  {
    if n - 1 !in hits {
      LastHitIn(hits, n - 1, w);
    }
  }
}
