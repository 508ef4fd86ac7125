/** What several modules share. */
module Wrappers {

  datatype Option<T> = None | Some(value: T)

  const P31: int := 0x8000_0000
  const P32: int := 0x1_0000_0000
  const P56: int := 0x100_0000_0000_0000
  const P63: int := 0x8000_0000_0000_0000
  const P64: int := 0x1_0000_0000_0000_0000

  function Pow2(n: nat): (r: nat)
    ensures r >= 1
  {
    if n == 0 then 1 else 2 * Pow2(n - 1)
  }

  lemma {:induction false} Pow2Add(m: nat, n: nat)
    ensures Pow2(m + n) == Pow2(m) * Pow2(n)
  {
    if m != 0 {
      Pow2Add(m - 1, n);
      assert 2 * (Pow2(m - 1) * Pow2(n)) == 2 * Pow2(m - 1) * Pow2(n);
    }
  }

  function One(b: bool): nat { if b then 1 else 0 }
}
