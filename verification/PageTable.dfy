/** The three-level radix tree that tests/modes/modes.c builds in memory. */
module PageTable {
  import opened Wrappers
  import opened ByteMemory

  const P62: int := 0x4000_0000_0000_0000
  const LEAF_BITS: int := 0xC000_0000_0000_0000

  const PART_TBL: nat := 0x10000
  const PROC_TBL: nat := 0x11000
  const PGDIR: nat := 0x12000
  const FREE0: nat := 0x13000
  const ROOT_ENTRY: nat := 0x2000_0000_0000_0000 + 0x12000 + 9

  // ----- words -----

  /** Bitwise or. */
  function Or(a: nat, b: nat): nat {
    if a == 0 then b else if b == 0 then a
    else 2 * Or(a / 2, b / 2) + (if a % 2 == 1 || b % 2 == 1 then 1 else 0)
  }

  lemma {:induction false} OrBounds(a: nat, b: nat, k: nat)
    requires a < Pow2(k) && b < Pow2(k)
    ensures a <= Or(a, b) < Pow2(k) && b <= Or(a, b)
  {
    if a != 0 && b != 0 {
      OrBounds(a / 2, b / 2, k - 1);
    }
  }

  lemma {:induction false} OrDisjoint(c: nat, b: nat, k: nat)
    requires b < Pow2(k)
    ensures Or(c * Pow2(k), b) == c * Pow2(k) + b
  {
    var a := c * Pow2(k);
    if a != 0 && b != 0 {
      assert a == 2 * (c * Pow2(k - 1));
      OrDisjoint(c, b / 2, k - 1);
    }
  }

  /** `v & 0x00fffffffffff000`. */
  function FrameBits(v: nat): nat { (v % P56) / 4096 * 4096 }

  /** Entry of an upper-level table that points to the table at `fp`. */
  function DirEntry(fp: nat): nat { Or(Or(P63, fp), 9) }

  /** The table address in a directory entry: `w & 0x00ffffffffffff00`. */
  function TableOf(w: nat): nat { (w % P56) / 256 * 256 }

  function Pte(pa: nat, perm: nat): nat { Or(Or(LEAF_BITS, FrameBits(pa)), perm) }

  lemma PowTimes(m: nat, n: nat, a: nat, b: nat)
    requires Pow2(m) == a && Pow2(n) == b
    ensures Pow2(m + n) == a * b
  {
    Pow2Add(m, n);
  }

  lemma Powers()
    ensures Pow2(4) == 16 && Pow2(12) == 4096 && Pow2(56) == P56 && Pow2(64) == P64
  {
    hide Pow2;
    Pow4();
    PowTimes(4, 4, 16, 16);
    PowTimes(8, 4, 0x100, 16);
    PowTimes(12, 12, 0x1000, 0x1000);
    PowTimes(8, 24, 0x100, 0x100_0000);
    PowTimes(24, 32, 0x100_0000, 0x1_0000_0000);
    PowTimes(56, 8, 0x100_0000_0000_0000, 0x100);
  }

  lemma Pow4()
    ensures Pow2(4) == 16
  {
  }

  lemma DirEntryIs(fp: nat)
    requires fp % 4096 == 0 && fp < P56
    ensures DirEntry(fp) == P63 + fp + 9 && TableOf(DirEntry(fp)) == fp
  {
    hide DirEntry, TableOf;
    var x := fp / 4096;
    assert fp == x * 4096 && x < P56 / 4096;
    DirEntryOf(x);
    TableOfSum(x);
  }

  lemma DirEntryOf(x: nat)
    requires x < P56 / 4096
    ensures DirEntry(x * 4096) == P63 + x * 4096 + 9
  {
    hide Or, Pow2;
    Powers();
    OrDisjoint(128, x * 4096, 56);
    var c := P63 / 16 + 256 * x;
    assert c * 16 == P63 + x * 4096;
    OrDisjoint(c, 9, 4);
  }

  lemma TableOfSum(x: nat)
    requires x < P56 / 4096
    ensures TableOf(P63 + x * 4096 + 9) == x * 4096
  {
    var y := x * 4096 + 9;
    assert y < P56;
    assert (128 * P56 + y) % P56 == y;
    assert y / 256 == 16 * x;
  }

  /** A page-table entry is valid and a leaf whatever attribute bits are passed. */
  lemma PteIsLeaf(pa: nat, perm: nat)
    requires perm < P64
    ensures LEAF_BITS <= Pte(pa, perm) < P64
  {
    hide Or, Pow2;
    Powers();
    OrBounds(LEAF_BITS, FrameBits(pa), 64);
    OrBounds(Or(LEAF_BITS, FrameBits(pa)), perm, 64);
  }

  /** With attributes in the low twelve bits the entry decodes to exactly the frame and the attributes. */
  lemma PteFields(pa: nat, perm: nat)
    requires perm < 4096
    ensures FrameBits(Pte(pa, perm)) == FrameBits(pa) && Pte(pa, perm) % 4096 == perm
  {
    hide Or, Pow2;
    Powers();
    var x := (pa % P56) / 4096;
    OrDisjoint(192, x * 4096, 56);
    OrDisjoint(LEAF_BITS / 4096 + x, perm, 12);
    FieldsOfSum(x, perm);
  }

  lemma FieldsOfSum(x: nat, perm: nat)
    requires perm < 4096 && x < P56 / 4096
    ensures FrameBits(LEAF_BITS + x * 4096 + perm) == x * 4096 && (LEAF_BITS + x * 4096 + perm) % 4096 == perm
  {
    var y := x * 4096 + perm;
    assert y < P56;
    assert (192 * P56 + y) % P56 == y;
  }

  // ----- pages and entries -----

  /** The three table indices of an effective page. */
  datatype Page = Page(h: nat, i: nat, j: nat)
  datatype Mid = Mid(h: nat, i: nat)

  /** The tree maps 512GB. */
  const EA_LIMIT: nat := 0x80_0000_0000

  predicate GoodPage(p: Page) { p.h < 512 && p.i < 512 && p.j < 512 }

  function PageOf(ea: nat): Page {
    var epn := ea / 4096;
    Page((epn / 0x40000) % 512, (epn / 512) % 512, epn % 512)
  }

  lemma Recompose(epn: nat)
    requires epn < 0x800_0000
    ensures epn == (epn / 0x40000) % 512 * 0x40000 + (epn / 512) % 512 * 512 + epn % 512
  {
    var a := epn / 512;
    assert a / 512 == epn / 0x40000 < 512;
    assert a == (a / 512) * 512 + a % 512;
  }

  /** Below 512GB different pages have different indices. */
  lemma PageOfInjective(ea: nat, ea': nat)
    requires ea < EA_LIMIT && ea' < EA_LIMIT && PageOf(ea) == PageOf(ea')
    ensures ea / 4096 == ea' / 4096
  {
    Recompose(ea / 4096);
    Recompose(ea' / 4096);
  }

  predicate ValidBit(w: nat) { w >= P63 }
  predicate LeafBit(w: nat) { (w / P62) % 2 == 1 }

  function ReadEntry(m: Mem, table: nat, k: nat): nat { Value(Read8(m, table + 8 * k)) }

  // ----- the tree -----

  /** Where the tables are, and the translations they hold. */
  datatype Tree = Tree(pmd: map<nat, nat>, pte: map<Mid, nat>, leaf: map<Page, nat>)

  ghost predicate Base(b: nat, free: nat) { b % 4096 == 0 && FREE0 <= b && b + 4096 <= free }

  /** Table pages are page-aligned, below the free pointer, and pairwise different. */
  ghost predicate Disjoint(t: Tree, free: nat) {
    && (forall h | h in t.pmd :: Base(t.pmd[h], free))
    && (forall q | q in t.pte :: Base(t.pte[q], free))
    && (forall h, g | h in t.pmd && g in t.pmd && t.pmd[h] == t.pmd[g] :: h == g)
    && (forall q, r | q in t.pte && r in t.pte && t.pte[q] == t.pte[r] :: q == r)
    && (forall h, q | h in t.pmd && q in t.pte :: t.pmd[h] != t.pte[q])
  }

  ghost predicate Keys(t: Tree) {
    && (forall h | h in t.pmd :: h < 512)
    && (forall q | q in t.pte :: q.h in t.pmd && q.i < 512)
    && (forall p | p in t.leaf :: Mid(p.h, p.i) in t.pte && p.j < 512 && LEAF_BITS <= t.leaf[p] < P64)
  }

  function EntryCell(present: bool, table: nat): Dword { if present then BigEndian(DirEntry(table)) else ZERO8 }

  /** One entry of one table. */
  datatype Slot = Root(h: nat) | Middle(q: Mid) | Leaf(p: Page)

  predicate Exists(t: Tree, s: Slot) {
    match s
    case Root(h) => h < 512
    case Middle(q) => q.h in t.pmd && q.i < 512
    case Leaf(p) => Mid(p.h, p.i) in t.pte && p.j < 512
  }

  function SlotBase(t: Tree, s: Slot): nat
    requires Exists(t, s)
  {
    match s
    case Root(_) => PGDIR
    case Middle(q) => t.pmd[q.h]
    case Leaf(p) => t.pte[Mid(p.h, p.i)]
  }

  function SlotIdx(s: Slot): nat {
    match s case Root(h) => h case Middle(q) => q.i case Leaf(p) => p.j
  }

  function Content(t: Tree, s: Slot): Dword {
    match s
    case Root(h) => EntryCell(h in t.pmd, if h in t.pmd then t.pmd[h] else 0)
    case Middle(q) => EntryCell(q in t.pte, if q in t.pte then t.pte[q] else 0)
    case Leaf(p) => if p in t.leaf then BigEndian(t.leaf[p]) else ZERO8
  }

  ghost predicate SlotOk(m: Mem, t: Tree, s: Slot) {
    Exists(t, s) ==> Read8(m, SlotBase(t, s) + 8 * SlotIdx(s)) == Content(t, s)
  }

  ghost predicate Cells(m: Mem, t: Tree) {
    && Read8(m, PART_TBL + 8) == BigEndian(PROC_TBL) && Read8(m, PROC_TBL + 16) == BigEndian(ROOT_ENTRY)
    && forall s: Slot :: SlotOk(m, t, s)
  }

  /** Tables lie in page-aligned, disjoint pages below the free pointer. */
  ghost predicate Shape(free: nat, t: Tree) { free % 4096 == 0 && FREE0 <= free && Keys(t) && Disjoint(t, free) }

  /** The free pointer counts the tables handed out. */
  ghost predicate Counted(free: nat, t: Tree) { free == FREE0 + 4096 * (|t.pmd.Keys| + |t.pte.Keys|) }

  ghost predicate TreeInv(m: Mem, free: nat, t: Tree) { Shape(free, t) && Counted(free, t) && Cells(m, t) }

  // ----- there is always room -----

  lemma {:induction false} FewBelow(s: set<nat>, n: nat)
    requires forall x | x in s :: x < n
    ensures |s| <= n
  {
    if n != 0 {
      FewBelow(s - {n - 1}, n - 1);
    } else {
      assert s == {};
    }
  }

  lemma {:induction false} FewPairs(s: set<Mid>, n: nat)
    requires forall q | q in s :: q.h < n && q.i < 512
    ensures |s| <= n * 512
  {
    if n == 0 {
      assert s == {};
    } else {
      var row := set q | q in s && q.h == n - 1;
      var rest := s - row;
      FewPairs(rest, n - 1);
      var cols := set q | q in row :: q.i;
      RowSize(row, cols, n - 1);
      FewBelow(cols, 512);
      assert s == rest + row;
    }
  }

  lemma {:induction false} RowSize(row: set<Mid>, cols: set<nat>, h: nat)
    requires forall q | q in row :: q.h == h
    requires cols == set q | q in row :: q.i
    ensures |row| == |cols|
    decreases row
  {
    if row != {} {
      var q :| q in row;
      var cols' := set r | r in row - {q} :: r.i;
      assert cols' == cols - {q.i};
      RowSize(row - {q}, cols', h);
    }
  }

  /** However many pages are mapped, the allocator stays far below the limit of a table pointer. */
  lemma Room(free: nat, t: Tree)
    requires Keys(t) && Counted(free, t)
    ensures free + 2 * 4096 < P56
  {
    FewBelow(t.pmd.Keys, 512);
    FewPairs(t.pte.Keys, 512);
  }
}
