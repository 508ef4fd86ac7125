/** Byte-addressed memory, big-endian doublewords, and zero_memory of tests/modes/modes.c. */
module ByteMemory {
  import opened Wrappers

  type Byte = b: nat | b < 256

  /** Eight bytes in address order. */
  type Dword = s: seq<Byte> | |s| == 8 witness [0, 0, 0, 0, 0, 0, 0, 0]

  /** Bytes that are not in the map are zero. */
  type Mem = map<nat, Byte>

  const LINE: nat := 64

  const ZERO8: Dword := [0, 0, 0, 0, 0, 0, 0, 0]

  function Get(m: Mem, a: nat): Byte { if a in m then m[a] else 0 }

  function Read8(m: Mem, a: nat): Dword {
    [Get(m, a), Get(m, a + 1), Get(m, a + 2), Get(m, a + 3), Get(m, a + 4), Get(m, a + 5), Get(m, a + 6), Get(m, a + 7)]
  }

  function Write8(m: Mem, a: nat, d: Dword): Mem {
    m[a := d[0]][a + 1 := d[1]][a + 2 := d[2]][a + 3 := d[3]]
    [a + 4 := d[4]][a + 5 := d[5]][a + 6 := d[6]][a + 7 := d[7]]
  }

  /** Memory with the `n` bytes from `a` cleared. */
  function Zeroed(m: Mem, a: nat, n: nat): Mem { map k | k in m && !(a <= k < a + n) :: m[k] }

  lemma ReadBack(m: Mem, a: nat, d: Dword)
    ensures Read8(Write8(m, a, d), a) == d
  {
  }

  lemma ReadOther(m: Mem, a: nat, d: Dword, b: nat)
    requires b + 8 <= a || a + 8 <= b
    ensures Read8(Write8(m, a, d), b) == Read8(m, b)
  {
  }

  lemma ReadCleared(m: Mem, a: nat, n: nat, b: nat)
    ensures a <= b && b + 8 <= a + n ==> Read8(Zeroed(m, a, n), b) == ZERO8
    ensures b + 8 <= a || a + n <= b ==> Read8(Zeroed(m, a, n), b) == Read8(m, b)
  {
  }

  // ----- byte order -----

  /** The `n` low-order bytes of `v`, most significant first. */
  function Bytes(v: nat, n: nat): (r: seq<Byte>)
    ensures |r| == n
  {
    if n == 0 then [] else Bytes(v / 256, n - 1) + [v % 256]
  }

  function Value(s: seq<Byte>): nat { if s == [] then 0 else Value(s[..|s| - 1]) * 256 + s[|s| - 1] }

  function Pow256(n: nat): nat { if n == 0 then 1 else 256 * Pow256(n - 1) }

  lemma {:induction false} ValueOfBytes(v: nat, n: nat)
    requires v < Pow256(n)
    ensures Value(Bytes(v, n)) == v
  {
    if n != 0 {
      ValueOfBytes(v / 256, n - 1);
      assert Bytes(v, n)[..n - 1] == Bytes(v / 256, n - 1);
    }
  }

  /** stdbrx stores the most significant byte first; ldbrx and the page-table walker read it back that way. */
  function BigEndian(v: nat): Dword { Bytes(v, 8) }

  lemma BigEndianRoundTrip(v: nat)
    requires v < P64
    ensures Value(BigEndian(v)) == v
  {
    assert Pow256(8) == P64 by {
      assert Pow256(4) == 0x1_0000_0000;
      assert Pow256(8) == 256 * (256 * (256 * (256 * Pow256(4))));
    }
    ValueOfBytes(v, 8);
  }

  lemma {:induction false} ZerosValue(s: seq<Byte>)
    requires forall k | 0 <= k < |s| :: s[k] == 0
    ensures Value(s) == 0
  {
    if s != [] {
      ZerosValue(s[..|s| - 1]);
    }
  }

  // ----- zero_memory -----

  /** Bytes up to the next line boundary. */
  function ToBoundary(p: nat): nat { (LINE - p % LINE) % LINE }

  /** The loop makes progress until nothing is left: the range is empty, or lies in one partial line, or ends on a line
      boundary. */
  predicate Finishes(p: nat, n: nat) {
    n == 0 || (p % LINE != 0 && n <= ToBoundary(p)) || (p + n) % LINE == 0
  }

  lemma ZeroedMore(m: Mem, a: nat, n: nat, k: nat)
    ensures Zeroed(Zeroed(m, a, n), a + n, k) == Zeroed(m, a, n + k)
  {
  }

  /** The dcbz loop: `lines` whole lines. */
  method ZeroLines(m: Mem, p: nat, lines: nat) returns (r: Mem)
    ensures r == Zeroed(m, p, lines * LINE)
  {
    r := m;
    assert Zeroed(m, p, 0) == m;
    for i := 0 to lines
      invariant r == Zeroed(m, p, i * LINE)
    {
      ZeroedMore(m, p, i * LINE, LINE);
      r := Zeroed(r, p + i * LINE, LINE);
    }
  }

  /** The byte loop. */
  method ZeroBytes(m: Mem, p: nat, n: nat) returns (r: Mem)
    ensures r == Zeroed(m, p, n)
  {
    r := m;
    assert Zeroed(m, p, 0) == m;
    for i := 0 to n
      invariant r == Zeroed(m, p, i)
    {
      ZeroedMore(m, p, i, 1);
      r := Zeroed(r, p + i, 1);
    }
  }

  method ZeroMemory(m: Mem, ptr: nat, nbytes: nat) returns (r: Mem)
    requires Finishes(ptr, nbytes)
    ensures r == Zeroed(m, ptr, nbytes)
    ensures forall x: nat :: Get(r, x) == if ptr <= x < ptr + nbytes then 0 else Get(m, x)
  {
    var p, n: nat := ptr, nbytes;
    r := m;
    assert Zeroed(m, ptr, 0) == m;
    while n != 0
      invariant ptr <= p && p + n == ptr + nbytes && Finishes(p, n)
      invariant r == Zeroed(m, ptr, p - ptr)
      decreases n
    {
      var nb := ToBoundary(p);
      if nb == 0 && n >= LINE {
        var nl := n / LINE;
        r := ZeroLines(r, p, nl);
        nb := nl * LINE;
      } else {
        if nb > n {
          nb := n;
        }
        r := ZeroBytes(r, p, nb);
      }
      ZeroedMore(m, ptr, p - ptr, nb);
      n := n - nb;
      p := p + nb;
    }
  }

  /** One pass of the outer loop on `(p, n)`. */
  function Pass(p: nat, n: nat): (nat, nat) {
    var nb := ToBoundary(p);
    var done := if nb == 0 && n >= LINE then n / LINE * LINE else if nb > n then n else nb;
    (p + done, n - done)
  }

  function Passes(p: nat, n: nat, k: nat): (nat, nat) {
    if k == 0 then (p, n) else var (q, r) := Passes(p, n, k - 1); Pass(q, r)
  }

  /** Outside those ranges the loop never ends: from the second pass on it stands still with bytes left. */
  lemma {:induction false} NeverFinishes(p: nat, n: nat, k: nat)
    requires !Finishes(p, n)
    ensures Passes(p, n, k).1 != 0
    ensures k >= 2 ==> Passes(p, n, k) == Passes(p, n, 2)
  {
    var (p1, n1) := Pass(p, n);
    var (p2, n2) := Pass(p1, n1);
    assert Passes(p, n, 1) == Pass(Passes(p, n, 0).0, Passes(p, n, 0).1) == (p1, n1);
    assert Passes(p, n, 2) == Pass(Passes(p, n, 1).0, Passes(p, n, 1).1) == (p2, n2);
    Standstill(p, n);
    if k > 2 {
      NeverFinishes(p, n, k - 1);
    }
  }

  lemma AlignedPass(p: nat, n: nat)
    requires p % LINE == 0 && n % LINE != 0
    ensures Pass(p, n) == (p + n / LINE * LINE, n % LINE)
  {
  }

  lemma ModShift(q: nat, x: nat)
    ensures (LINE * q + x) % LINE == x % LINE
  {
  }

  lemma FirstPass(p: nat, n: nat)
    requires !Finishes(p, n)
    ensures n != 0 && Pass(p, n).0 % LINE == 0 && Pass(p, n).1 % LINE != 0
  {
    if p % LINE == 0 {
      ModShift(p / LINE, n);
      AlignedPass(p, n);
    } else {
      var q, nb := p / LINE + 1, ToBoundary(p);
      assert p + nb == LINE * q;
      ModShift(q, 0);
      ModShift(q, n - nb);
      assert LINE * q + (n - nb) == p + n;
    }
  }

  lemma Standstill(p: nat, n: nat)
    requires !Finishes(p, n)
    ensures n != 0 && Pass(p, n).1 != 0
    ensures var second := Pass(Pass(p, n).0, Pass(p, n).1);
            second.1 != 0 && Pass(second.0, second.1) == second
  {
    hide Pass;
    FirstPass(p, n);
    var (p1, n1) := Pass(p, n);
    AlignedPass(p1, n1);
    var p2, n2 := p1 + n1 / LINE * LINE, n1 % LINE;
    assert p2 == LINE * (p1 / LINE + n1 / LINE);
    ModShift(p1 / LINE + n1 / LINE, 0);
    assert n2 / LINE == 0 && n2 % LINE == n2;
    AlignedPass(p2, n2);
  }
}
