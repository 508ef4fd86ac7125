/** map and unmap keep the tree in agreement with an abstract page map, and the TLB in agreement with the tree. */
module PageTableProof {
  import opened Wrappers
  import opened ByteMemory
  import opened PageTable
  import opened RadixWalk

  // ----- reading the tree -----

  lemma EntryValue(present: bool, b: nat)
    requires present ==> b % 4096 == 0 && b + 9 < P56
    ensures var w := Value(EntryCell(present, b));
            && ValidBit(w) == present
            && (present ==> !LeafBit(w) && TableOf(w) == b && w % 32 == 9)
  {
    hide Value, BigEndian, DirEntry, TableOf, LeafBit;
    if present {
      DirEntryIs(b);
      BigEndianRoundTrip(DirEntry(b));
      DirBits(b);
    } else {
      ZerosValue(ZERO8);
    }
  }

  lemma DirBits(b: nat)
    requires b + 9 < P56
    ensures !LeafBit(P63 + b + 9) && (b % 4096 == 0 ==> (P63 + b + 9) % 32 == 9)
  {
  }

  lemma LeafValue(w: nat)
    requires LEAF_BITS <= w < P64
    ensures Value(BigEndian(w)) == w && ValidBit(w) && LeafBit(w)
  {
    BigEndianRoundTrip(w);
  }

  lemma RootValue()
    ensures TableOf(Value(BigEndian(ROOT_ENTRY))) == PGDIR
  {
    BigEndianRoundTrip(ROOT_ENTRY);
  }

  lemma BaseRange(free: nat, t: Tree, s: Slot)
    requires Shape(free, t) && Counted(free, t) && Exists(t, s)
    ensures SlotBase(t, s) % 4096 == 0 && SlotBase(t, s) + 9 < P56
  {
    hide Counted;
    Room(free, t);
  }

  /** What the walker finds at the top level. */
  lemma RootLevel(m: Mem, free: nat, t: Tree, p: Page)
    requires TreeInv(m, free, t) && GoodPage(p)
    ensures var w := ReadEntry(m, PGDIR, p.h);
            && ValidBit(w) == (p.h in t.pmd)
            && (p.h in t.pmd ==> !LeafBit(w) && TableOf(w) == t.pmd[p.h] && w % 32 == 9)
  {
    hide Value, Read8, TableOf, ValidBit, LeafBit, EntryCell, Counted, Disjoint, Keys;
    if p.h in t.pmd {
      BaseRange(free, t, Middle(Mid(p.h, 0)));
    }
    assert SlotOk(m, t, Root(p.h));
    EntryValue(p.h in t.pmd, if p.h in t.pmd then t.pmd[p.h] else 0);
  }

  /** What the walker finds at the second level. */
  lemma MidLevel(m: Mem, free: nat, t: Tree, p: Page)
    requires TreeInv(m, free, t) && GoodPage(p) && p.h in t.pmd
    ensures var q := Mid(p.h, p.i);
            var w := ReadEntry(m, t.pmd[p.h], p.i);
            && ValidBit(w) == (q in t.pte)
            && (q in t.pte ==> !LeafBit(w) && TableOf(w) == t.pte[q] && w % 32 == 9)
  {
    hide Value, Read8, TableOf, ValidBit, LeafBit, EntryCell, Counted, Disjoint, Keys;
    var q := Mid(p.h, p.i);
    if q in t.pte {
      BaseRange(free, t, Leaf(Page(p.h, p.i, 0)));
    }
    assert SlotOk(m, t, Middle(q));
    EntryValue(q in t.pte, if q in t.pte then t.pte[q] else 0);
  }

  lemma LeafLevel(m: Mem, free: nat, t: Tree, p: Page)
    requires TreeInv(m, free, t) && GoodPage(p) && Mid(p.h, p.i) in t.pte
    ensures var w := ReadEntry(m, t.pte[Mid(p.h, p.i)], p.j);
            if p in t.leaf then w == t.leaf[p] && ValidBit(w) && LeafBit(w) else !ValidBit(w)
  {
    hide Value, Read8, BigEndian, ValidBit, LeafBit, Counted, Disjoint;
    assert SlotOk(m, t, Leaf(p));
    if p in t.leaf {
      LeafValue(t.leaf[p]);
    } else {
      NotMapped();
    }
  }

  /** The three fields of an effective address, and the powers of two that the walker uses. */
  lemma Fields(ea: nat)
    ensures Pow2(39) == EA_LIMIT && Pow2(9) == 512
    ensures PageOf(ea) == Page(ea / Pow2(30) % 512, ea / Pow2(21) % 512, ea / Pow2(12) % 512)
  {
    hide Pow2;
    Powers();
    FivePowers();
    PowTimes(9, 12, 512, 4096);
    PowTimes(9, 21, 512, 0x20_0000);
    PowTimes(9, 30, 512, 0x4000_0000);
    DivTwice(ea);
  }

  lemma FivePowers()
    ensures Pow2(9) == 512
  {
    Pow4();
    assert Pow2(5) == 32;
  }

  lemma DivTwice(ea: nat)
    ensures ea / 4096 / 512 == ea / 0x20_0000 && ea / 4096 / 0x40000 == ea / 0x4000_0000
  {
  }

  /** One level of nine bits, with the entry in the builder's terms. */
  lemma LevelIs(m: Mem, table: nat, left: nat, ea: nat, k: nat)
    requires k == ea / Pow2(12 + left) % Pow2(9)
    ensures var w := ReadEntry(m, table, k);
            Level(m, table, left + 9, 9, ea) ==
              if !ValidBit(w) then None else if LeafBit(w) then Some((w, left))
              else Level(m, TableOf(w), left, w % 32, ea)
  {
    hide Value, Read8, Pow2, Dword64;
    DwordValue(m, table + 8 * k);
  }

  lemma RootIs(m: Mem, t: Tree, ea: nat)
    requires Cells(m, t)
    ensures Walk(m, PART_TBL, 1, ea) == if ea >= Pow2(39) then None else Level(m, PGDIR, 27, 9, ea)
  {
    hide Level, FromRoot, Dword64, Pow2, Read8, Value, BigEndian, SlotOk;
    DwordValue(m, PART_TBL + 8);
    DwordValue(m, PROC_TBL + 16);
    BigEndianRoundTrip(PROC_TBL);
    BigEndianRoundTrip(ROOT_ENTRY);
    RootFields();
    FromRootIs(m, ea);
  }

  lemma RootFields()
    ensures ROOT_ENTRY / 0x2000_0000_0000_0000 % 4 == 1 && ROOT_ENTRY / 32 % 8 == 0 && ROOT_ENTRY % 32 == 9
    ensures ROOT_ENTRY % 0x100_0000_0000_0000 / 256 * 256 == PGDIR
    ensures PROC_TBL % 0x100_0000_0000_0000 / 4096 * 4096 == PROC_TBL && PART_TBL / 4096 * 4096 == PART_TBL
  {
  }

  lemma FromRootIs(m: Mem, ea: nat)
    ensures FromRoot(m, ROOT_ENTRY, ea) == if ea >= Pow2(39) then None else Level(m, PGDIR, 27, 9, ea)
  {
    hide Level, Pow2;
    RootFields();
  }

  /** The hardware walk of an effective address gives exactly the translation of its page in the tree, a 4kB page. */
  lemma WalkAgrees(m: Mem, free: nat, t: Tree, ea: nat)
    requires TreeInv(m, free, t)
    ensures Walk(m, PART_TBL, 1, ea) ==
              if ea < EA_LIMIT && PageOf(ea) in t.leaf then Some((t.leaf[PageOf(ea)], 0)) else None
  {
    hide Walk, Level, Pow2, PageOf, Value, Read8, BigEndian, TableOf, ValidBit, LeafBit, ReadEntry, SlotOk, Disjoint,
      Counted;
    var p := PageOf(ea);
    Fields(ea);
    RootIs(m, t, ea);
    LevelIs(m, PGDIR, 18, ea, p.h);
    RootLevel(m, free, t, p);
    if p.h in t.pmd {
      LevelIs(m, t.pmd[p.h], 9, ea, p.i);
      MidLevel(m, free, t, p);
    }
    if Mid(p.h, p.i) in t.pte {
      LevelIs(m, t.pte[Mid(p.h, p.i)], 0, ea, p.j);
      LeafLevel(m, free, t, p);
    }
  }

  lemma NotMapped()
    ensures !ValidBit(Value(ZERO8))
  {
    ZerosValue(ZERO8);
  }

  // ----- changing the tree -----

  lemma CellsApart(b: nat, k: nat, c: nat, l: nat)
    requires b % 4096 == 0 && c % 4096 == 0 && k < 512 && l < 512 && (b, k) != (c, l)
    ensures b + 8 * k + 8 <= c + 8 * l || c + 8 * l + 8 <= b + 8 * k
  {
    if b < c {
      assert b + 4096 <= c;
    } else if c < b {
      assert c + 4096 <= b;
    }
  }

  /** Clearing the next free page and writing one entry leaves every other cell below it alone. */
  lemma KeptByAlloc(m: Mem, free: nat, b: nat, k: nat, d: Dword, c: nat, l: nat)
    requires b % 4096 == 0 && c % 4096 == 0 && k < 512 && l < 512 && (b, k) != (c, l)
    requires c + 4096 <= free
    ensures Read8(Write8(Zeroed(m, free, 4096), b + 8 * k, d), c + 8 * l) == Read8(m, c + 8 * l)
  {
    hide Read8, Write8, Zeroed;
    CellsApart(b, k, c, l);
    ReadOther(Zeroed(m, free, 4096), b + 8 * k, d, c + 8 * l);
    ReadCleared(m, free, 4096, c + 8 * l);
  }

  lemma ClearedByAlloc(m: Mem, free: nat, b: nat, k: nat, d: Dword, l: nat)
    requires b % 4096 == 0 && free % 4096 == 0 && k < 512 && l < 512 && b + 4096 <= free
    ensures Read8(Write8(Zeroed(m, free, 4096), b + 8 * k, d), free + 8 * l) == ZERO8
  {
    hide Read8, Write8, Zeroed;
    ReadOther(Zeroed(m, free, 4096), b + 8 * k, d, free + 8 * l);
    ReadCleared(m, free, 4096, free + 8 * l);
  }

  lemma KeptByWrite(m: Mem, b: nat, k: nat, d: Dword, c: nat, l: nat)
    requires b % 4096 == 0 && c % 4096 == 0 && k < 512 && l < 512 && (b, k) != (c, l)
    ensures Read8(Write8(m, b + 8 * k, d), c + 8 * l) == Read8(m, c + 8 * l)
  {
    hide Read8, Write8;
    CellsApart(b, k, c, l);
    ReadOther(m, b + 8 * k, d, c + 8 * l);
  }

  function AllocMem(m: Mem, free: nat, b: nat, k: nat): Mem {
    Write8(Zeroed(m, free, 4096), b + 8 * k, BigEndian(DirEntry(free)))
  }

  /** `after` is `before` with a table at `free` entered in slot `s0`. */
  ghost predicate Extends(before: Tree, after: Tree, s0: Slot, free: nat) {
    match s0
    case Root(h) => h < 512 && h !in before.pmd && after == before.(pmd := before.pmd[h := free])
    case Middle(q) =>
      q.h in before.pmd && q.i < 512 && q !in before.pte && after == before.(pte := before.pte[q := free])
    case Leaf(_) => false
  }

  lemma ExtendsShape(free: nat, t: Tree, t': Tree, s0: Slot)
    requires Shape(free, t) && Extends(t, t', s0, free)
    ensures Shape(free + 4096, t')
  {
  }

  lemma ExtendsCount(free: nat, t: Tree, t': Tree, s0: Slot)
    requires Counted(free, t) && Extends(t, t', s0, free)
    ensures Counted(free + 4096, t')
  {
    match s0
    case Root(h) => assert t'.pmd.Keys == t.pmd.Keys + {h};
    case Middle(q) => assert t'.pte.Keys == t.pte.Keys + {q};
  }

  /** A slot's table is a page below the free pointer, and different slots have different cells. */
  lemma SlotPlace(free: nat, t: Tree, s: Slot)
    requires Shape(free, t) && Exists(t, s)
    ensures SlotBase(t, s) % 4096 == 0 && PGDIR <= SlotBase(t, s) && SlotBase(t, s) + 4096 <= free
    ensures SlotIdx(s) < 512
  {
  }

  lemma SlotsApart(free: nat, t: Tree, s: Slot, s': Slot)
    requires Shape(free, t) && Exists(t, s) && Exists(t, s') && s != s'
    ensures (SlotBase(t, s), SlotIdx(s)) != (SlotBase(t, s'), SlotIdx(s'))
  {
  }

  /** The slots of the new table, all empty. */
  lemma NewSlot(free: nat, t: Tree, t': Tree, s0: Slot, s: Slot)
    requires Keys(t) && Extends(t, t', s0, free) && Exists(t', s) && !Exists(t, s)
    ensures SlotBase(t', s) == free && SlotIdx(s) < 512 && Content(t', s) == ZERO8
  {
    hide BigEndian, DirEntry;
  }

  /** The slots that were there keep their place, and all but the one written their content. */
  lemma OldSlot(free: nat, t: Tree, t': Tree, s0: Slot, s: Slot)
    requires Extends(t, t', s0, free) && Exists(t, s)
    ensures Exists(t', s) && SlotBase(t', s) == SlotBase(t, s)
    ensures Content(t', s) == if s == s0 then BigEndian(DirEntry(free)) else Content(t, s)
  {
    hide BigEndian, DirEntry;
  }

  lemma AllocSlot(m: Mem, free: nat, t: Tree, t': Tree, s0: Slot, s: Slot)
    requires Shape(free, t) && Extends(t, t', s0, free) && SlotOk(m, t, s)
    ensures SlotOk(AllocMem(m, free, SlotBase(t, s0), SlotIdx(s0)), t', s)
  {
    hide Read8, Write8, Zeroed, BigEndian, DirEntry, Content, SlotBase, SlotIdx, Keys, Disjoint;
    var b, k, d := SlotBase(t, s0), SlotIdx(s0), BigEndian(DirEntry(free));
    SlotPlace(free, t, s0);
    if Exists(t, s) {
      OldSlot(free, t, t', s0, s);
      if s == s0 {
        ReadBack(Zeroed(m, free, 4096), b + 8 * k, d);
      } else {
        SlotPlace(free, t, s);
        SlotsApart(free, t, s0, s);
        KeptByAlloc(m, free, b, k, d, SlotBase(t, s), SlotIdx(s));
      }
    } else if Exists(t', s) {
      NewSlot(free, t, t', s0, s);
      ClearedByAlloc(m, free, b, k, d, SlotIdx(s));
    }
  }

  /** A new table, cleared and entered, keeps the tree. */
  lemma AllocTable(m: Mem, free: nat, t: Tree, t': Tree, s0: Slot)
    requires TreeInv(m, free, t) && Extends(t, t', s0, free)
    ensures TreeInv(AllocMem(m, free, SlotBase(t, s0), SlotIdx(s0)), free + 4096, t')
  {
    hide Read8, Write8, Zeroed, BigEndian, DirEntry, Content, SlotOk, Disjoint, Keys, Counted, Shape;
    ExtendsShape(free, t, t', s0);
    ExtendsCount(free, t, t', s0);
    SlotPlace(free, t, s0);
    KeptByAlloc(m, free, SlotBase(t, s0), SlotIdx(s0), BigEndian(DirEntry(free)), PROC_TBL, 2);
    KeptByAlloc(m, free, SlotBase(t, s0), SlotIdx(s0), BigEndian(DirEntry(free)), PART_TBL, 1);
    forall s: Slot ensures SlotOk(AllocMem(m, free, SlotBase(t, s0), SlotIdx(s0)), t', s) {
      AllocSlot(m, free, t, t', s0, s);
    }
  }

  /** `leaf'` differs from `leaf` at most in page `p0`, for which memory is to hold `d`. */
  ghost predicate LeafChange(leaf: map<Page, nat>, leaf': map<Page, nat>, p0: Page, d: Dword) {
    && (forall p | p != p0 :: (p in leaf' <==> p in leaf) && (p in leaf' ==> leaf'[p] == leaf[p]))
    && (p0 in leaf' ==> LEAF_BITS <= leaf'[p0] < P64 && d == BigEndian(leaf'[p0]))
    && (p0 !in leaf' ==> d == ZERO8)
  }

  lemma SetLeafSlot(m: Mem, free: nat, t: Tree, p0: Page, leaf': map<Page, nat>, d: Dword, s: Slot)
    requires Shape(free, t) && Exists(t, Leaf(p0)) && LeafChange(t.leaf, leaf', p0, d) && SlotOk(m, t, s)
    ensures SlotOk(Write8(m, SlotBase(t, Leaf(p0)) + 8 * p0.j, d), t.(leaf := leaf'), s)
  {
    hide Read8, Write8, BigEndian, DirEntry, Disjoint, Keys;
    var b := SlotBase(t, Leaf(p0));
    SlotPlace(free, t, Leaf(p0));
    if s == Leaf(p0) {
      ReadBack(m, b + 8 * p0.j, d);
    } else if Exists(t, s) {
      SlotPlace(free, t, s);
      SlotsApart(free, t, Leaf(p0), s);
      KeptByWrite(m, b, p0.j, d, SlotBase(t, s), SlotIdx(s));
      assert Content(t.(leaf := leaf'), s) == Content(t, s);
    }
  }

  /** Writing a leaf entry changes that page's translation and no other. */
  lemma SetLeaf(m: Mem, free: nat, t: Tree, p0: Page, leaf': map<Page, nat>, d: Dword)
    requires TreeInv(m, free, t) && Exists(t, Leaf(p0)) && LeafChange(t.leaf, leaf', p0, d)
    ensures TreeInv(Write8(m, SlotBase(t, Leaf(p0)) + 8 * p0.j, d), free, t.(leaf := leaf'))
  {
    hide Read8, Write8, BigEndian, DirEntry, Content, SlotOk, Disjoint, Counted;
    CountKept(free, t, leaf');
    SlotPlace(free, t, Leaf(p0));
    KeptByWrite(m, SlotBase(t, Leaf(p0)), p0.j, d, PROC_TBL, 2);
    KeptByWrite(m, SlotBase(t, Leaf(p0)), p0.j, d, PART_TBL, 1);
    LeafShape(free, t, p0, leaf', d);
    var m', t' := Write8(m, SlotBase(t, Leaf(p0)) + 8 * p0.j, d), t.(leaf := leaf');
    forall s: Slot ensures SlotOk(m', t', s) {
      SetLeafSlot(m, free, t, p0, leaf', d, s);
    }
  }

  lemma CountKept(free: nat, t: Tree, leaf': map<Page, nat>)
    requires Counted(free, t)
    ensures Counted(free, t.(leaf := leaf'))
  {
  }

  lemma LeafShape(free: nat, t: Tree, p0: Page, leaf': map<Page, nat>, d: Dword)
    requires Shape(free, t) && Exists(t, Leaf(p0)) && LeafChange(t.leaf, leaf', p0, d)
    ensures Shape(free, t.(leaf := leaf'))
  {
  }

  lemma CellTests(m: Mem, free: nat, t: Tree, p: Page)
    requires TreeInv(m, free, t) && GoodPage(p)
    ensures (Read8(m, PGDIR + 8 * p.h) == ZERO8) == (p.h !in t.pmd)
    ensures p.h in t.pmd ==> (Read8(m, t.pmd[p.h] + 8 * p.i) == ZERO8) == (Mid(p.h, p.i) !in t.pte)
    ensures Mid(p.h, p.i) in t.pte ==> (Read8(m, t.pte[Mid(p.h, p.i)] + 8 * p.j) == ZERO8) == (p !in t.leaf)
  {
    hide Value, Read8, ValidBit, LeafBit, TableOf, BigEndian, DirEntry, Counted, Disjoint;
    NotMapped();
    RootLevel(m, free, t, p);
    if p.h in t.pmd {
      MidLevel(m, free, t, p);
    }
    assert SlotOk(m, t, Root(p.h)) && SlotOk(m, t, Middle(Mid(p.h, p.i))) && SlotOk(m, t, Leaf(p));
    if Mid(p.h, p.i) in t.pte {
      LeafLevel(m, free, t, p);
    }
  }

  /** The present tests of the code, comparisons with zero in native byte order, and its table pointers are right for
      every level. */
  lemma PresentTest(m: Mem, free: nat, t: Tree, p: Page)
    requires TreeInv(m, free, t) && GoodPage(p)
    ensures (Read8(m, PGDIR + 8 * p.h) == ZERO8) == (p.h !in t.pmd)
    ensures p.h in t.pmd ==>
              && TableOf(ReadEntry(m, PGDIR, p.h)) == t.pmd[p.h]
              && (Read8(m, t.pmd[p.h] + 8 * p.i) == ZERO8) == (Mid(p.h, p.i) !in t.pte)
    ensures Mid(p.h, p.i) in t.pte ==>
              && p.h in t.pmd && TableOf(ReadEntry(m, t.pmd[p.h], p.i)) == t.pte[Mid(p.h, p.i)]
              && (Read8(m, t.pte[Mid(p.h, p.i)] + 8 * p.j) == ZERO8) == (p !in t.leaf)
  {
    hide Read8, TableOf, ReadEntry, SlotOk, Disjoint, Counted;
    CellTests(m, free, t, p);
    RootLevel(m, free, t, p);
    if p.h in t.pmd {
      MidLevel(m, free, t, p);
    }
  }

  // ----- the program -----

  /** An entry for effective page number `n` is the tree's. */
  ghost predicate Fits(n: nat, entry: nat, t: Tree) {
    4096 * n < EA_LIMIT && PageOf(4096 * n) in t.leaf && entry == t.leaf[PageOf(4096 * n)]
  }

  /** The TLB maps effective page numbers to entries of the tree. */
  ghost predicate TlbOk(tlb: map<nat, nat>, t: Tree) { forall n | n in tlb :: Fits(n, tlb[n], t) }

  /** Invalidating the page of `ea` removes what was stale. */
  lemma Invalidated(tlb: map<nat, nat>, t: Tree, ea: nat)
    requires ea < EA_LIMIT
    requires forall n | n in tlb ::
               Fits(n, tlb[n], t) || (4096 * n < EA_LIMIT && PageOf(4096 * n) == PageOf(ea))
    ensures TlbOk(tlb - {ea / 4096}, t)
  {
    hide PageOf;
    forall n | n in tlb - {ea / 4096} ensures Fits(n, tlb[n], t) {
      if !Fits(n, tlb[n], t) {
        PageOfInjective(4096 * n, ea);
      }
    }
  }

  class Mmu {
    var mem: Mem
    var freePtr: nat
    var tlb: map<nat, nat>
    ghost var tree: Tree

    ghost predicate Valid()
      reads this
    {
      TreeInv(mem, freePtr, tree) && TlbOk(tlb, tree)
    }

    /** init_mmu on memory with arbitrary contents: no page is mapped. */
    constructor (m: Mem)
      ensures Valid() && tree.leaf == map[]
    {
      hide Write8, Zeroed, BigEndian, TreeInv;
      var m1 := Write8(m, PART_TBL + 8, BigEndian(PROC_TBL));
      ghost var m0 := m1;
      m1 := ZeroMemory(m1, PROC_TBL, 4096);
      ghost var m2 := m1;
      m1 := ZeroMemory(m1, PGDIR, 4096);
      ghost var m3 := m1;
      m1 := Write8(m1, PROC_TBL + 16, BigEndian(ROOT_ENTRY));
      mem, freePtr, tlb, tree := m1, FREE0, map[], Tree(map[], map[], map[]);
      InitTree(m, m0, m2, m3, m1);
    }

    /** The MMU may load translations into its TLB at any time; it takes them from a walk of an effective address. */
    method Fill(pages: set<nat>)
      requires TreeInv(mem, freePtr, tree)
      modifies this`tlb
      ensures forall n | n in tlb && n !in old(tlb) :: Fits(n, tlb[n], tree)
      ensures forall n | n in old(tlb) :: n in tlb && (tlb[n] == old(tlb)[n] || Fits(n, tlb[n], tree))
    {
      hide Walk, TreeInv, PageOf;
      forall n: nat
        ensures Walk(mem, PART_TBL, 1, 4096 * n) ==
                  if 4096 * n < EA_LIMIT && PageOf(4096 * n) in tree.leaf
                  then Some((tree.leaf[PageOf(4096 * n)], 0)) else None
      {
        WalkAgrees(mem, freePtr, tree, 4096 * n);
      }
      tlb := tlb + map n | n in pages && Walk(mem, PART_TBL, 1, 4096 * n).Some? ::
                       Walk(mem, PART_TBL, 1, 4096 * n).value.0;
    }

    /** tlbie for one page. */
    method Invalidate(n: nat)
      modifies this`tlb
      ensures tlb == old(tlb) - {n}
    {
      tlb := tlb - {n};
    }

    /** `if (table[k] == 0)`: clear a fresh page and enter it. */
    method Allocate(table: nat, k: nat)
      requires freePtr % 4096 == 0
      modifies this`mem, this`freePtr
      ensures mem == AllocMem(old(mem), old(freePtr), table, k) && freePtr == old(freePtr) + 4096
    {
      var m := ZeroMemory(mem, freePtr, 4096);
      mem := Write8(m, table + 8 * k, BigEndian(DirEntry(freePtr)));
      freePtr := freePtr + 4096;
    }

    /** The leaf table of page `p`, allocating tables on the way down. */
    method Descend(p: Page) returns (ptep: nat)
      requires Valid() && GoodPage(p)
      modifies this`mem, this`freePtr, this`tree
      ensures Valid() && tree.leaf == old(tree.leaf)
      ensures Mid(p.h, p.i) in tree.pte && ptep == tree.pte[Mid(p.h, p.i)]
    {
      hide Read8, Write8, Zeroed, BigEndian, DirEntry, TableOf, Value, Disjoint, Keys, Cells, Counted;
      PresentTest(mem, freePtr, tree, p);
      if Read8(mem, PGDIR + 8 * p.h) == ZERO8 {
        ghost var grown := tree.(pmd := tree.pmd[p.h := freePtr]);
        AllocTable(mem, freePtr, tree, grown, Root(p.h));
        Allocate(PGDIR, p.h);
        tree := grown;
      }
      PresentTest(mem, freePtr, tree, p);
      var pmdp := TableOf(ReadEntry(mem, PGDIR, p.h));
      if Read8(mem, pmdp + 8 * p.i) == ZERO8 {
        ghost var grown := tree.(pte := tree.pte[Mid(p.h, p.i) := freePtr]);
        AllocTable(mem, freePtr, tree, grown, Middle(Mid(p.h, p.i)));
        Allocate(pmdp, p.i);
        tree := grown;
      }
      PresentTest(mem, freePtr, tree, p);
      ptep := TableOf(ReadEntry(mem, pmdp, p.i));
    }

    /** map: afterwards exactly that page has the new translation, and the TLB agrees with the tree. `before` and
        `between` are pages the MMU chooses to load while the function runs. */
    method Map(ea: nat, pa: nat, perm: nat, before: set<nat>, between: set<nat>, after: set<nat>)
      requires Valid() && ea < EA_LIMIT && perm < P64
      modifies this
      ensures Valid() && tree.leaf == old(tree.leaf)[PageOf(ea) := Pte(pa, perm)]
    {
      hide Read8, Write8, Zeroed, BigEndian, DirEntry, TableOf, Value, Pte, TreeInv, PageOf;
      GoodPageOf(ea);
      var p := PageOf(ea);
      var ptep := Descend(p);
      Fill(before);
      PresentTest(mem, freePtr, tree, p);
      ghost var leaf0 := tree.leaf;
      if Read8(mem, ptep + 8 * p.j) != ZERO8 {
        SetLeaf(mem, freePtr, tree, p, leaf0 - {p}, ZERO8);
        mem := Write8(mem, ptep + 8 * p.j, ZERO8);
        tree := tree.(leaf := leaf0 - {p});
        Fill(between);
        Invalidated(tlb, tree, ea);
        Invalidate(ea / 4096);
      }
      PteIsLeaf(pa, perm);
      SetLeaf(mem, freePtr, tree, p, leaf0[p := Pte(pa, perm)], BigEndian(Pte(pa, perm)));
      mem := Write8(mem, ptep + 8 * p.j, BigEndian(Pte(pa, perm)));
      tree := tree.(leaf := leaf0[p := Pte(pa, perm)]);
      Fill(after);
    }

    /** unmap: afterwards exactly that page is gone from the tree, and the TLB agrees with the tree. */
    method Unmap(ea: nat, before: set<nat>, between: set<nat>)
      requires Valid() && ea < EA_LIMIT
      modifies this`mem, this`tlb, this`tree
      ensures Valid() && tree.leaf == old(tree.leaf) - {PageOf(ea)}
    {
      hide Read8, Write8, Zeroed, BigEndian, DirEntry, TableOf, Value, Disjoint, Cells, Counted, PageOf;
      GoodPageOf(ea);
      var p := PageOf(ea);
      PresentTest(mem, freePtr, tree, p);
      Fill(before);
      if Read8(mem, PGDIR + 8 * p.h) == ZERO8 {
        return;
      }
      var pmdp := TableOf(ReadEntry(mem, PGDIR, p.h));
      if Read8(mem, pmdp + 8 * p.i) == ZERO8 {
        return;
      }
      var ptep := TableOf(ReadEntry(mem, pmdp, p.i));
      SetLeaf(mem, freePtr, tree, p, tree.leaf - {p}, ZERO8);
      mem := Write8(mem, ptep + 8 * p.j, ZERO8);
      tree := tree.(leaf := tree.leaf - {p});
      Fill(between);
      Invalidated(tlb, tree, ea);
      Invalidate(ea / 4096);
    }
  }

  lemma GoodPageOf(ea: nat)
    ensures GoodPage(PageOf(ea))
  {
  }

  // ----- any sequence of calls -----

  /** A call, with the pages the MMU loads while it runs. */
  datatype Call = MapCall(ea: nat, pa: nat, perm: nat, loads: set<nat>) | UnmapCall(ea: nat, loads: set<nat>)

  predicate GoodCall(c: Call) { c.ea < EA_LIMIT && (c.MapCall? ==> c.perm < P64) }

  /** The abstract page map after the calls. */
  function Mapped(calls: seq<Call>): map<Page, nat> {
    if calls == [] then map[]
    else
      var before := Mapped(calls[..|calls| - 1]);
      match calls[|calls| - 1]
      case MapCall(ea, pa, perm, _) => before[PageOf(ea) := Pte(pa, perm)]
      case UnmapCall(ea, _) => before - {PageOf(ea)}
  }

  /** A page frame and the attributes of the page. */
  datatype Target = Target(frame: nat, attrs: nat)

  /** The address space after the calls: effective page numbers to frames and attributes. */
  function Translations(calls: seq<Call>): map<nat, Target> {
    if calls == [] then map[]
    else
      var before := Translations(calls[..|calls| - 1]);
      match calls[|calls| - 1]
      case MapCall(ea, pa, perm, _) => before[ea / 4096 := Target(pa % 0x100_0000_0000_0000 / 4096 * 4096, perm)]
      case UnmapCall(ea, _) => before - {ea / 4096}
  }

  /** Attributes lie below the frame, in the low twelve bits. */
  predicate PlainCall(c: Call) { GoodCall(c) && (c.MapCall? ==> c.perm < 4096) }

  /** What a walk finds is what the address space says of an effective address: a valid leaf for a 4kB page, with the
      frame in bits 55 to 12 and the attributes below, or nothing. */
  predicate Decodes(found: Option<(nat, nat)>, space: map<nat, Target>, ea: nat) {
    if ea < 0x80_0000_0000 && ea / 4096 in space then
      && found.Some? && found.value.1 == 0
      && var w := found.value.0;
         && w / 0x4000_0000_0000_0000 == 3
         && Target(w % 0x100_0000_0000_0000 / 4096 * 4096, w % 4096) == space[ea / 4096]
    else found.None?
  }

  function EntryFor(pages: map<Page, nat>, p: Page): Option<(nat, nat)> {
    if p in pages then Some((pages[p], 0)) else None
  }

  lemma {:induction false} PagesDecode(calls: seq<Call>, ea: nat)
    requires (forall k | 0 <= k < |calls| :: PlainCall(calls[k])) && ea < EA_LIMIT
    ensures Decodes(EntryFor(Mapped(calls), PageOf(ea)), Translations(calls), ea)
  {
    hide Pte, PageOf;
    if calls != [] {
      var c := calls[|calls| - 1];
      assert PlainCall(c);
      PagesDecode(calls[..|calls| - 1], ea);
      SamePage(ea, c.ea);
      if c.MapCall? {
        PteFields(c.pa, c.perm);
        PteIsLeaf(c.pa, c.perm);
      }
    }
  }

  lemma SamePage(ea: nat, ea': nat)
    requires ea < EA_LIMIT && ea' < EA_LIMIT
    ensures PageOf(ea) == PageOf(ea') <==> ea / 4096 == ea' / 4096
  {
    if PageOf(ea) == PageOf(ea') {
      PageOfInjective(ea, ea');
    }
  }

  /** From init_mmu, after any sequence of map and unmap calls: the hardware walk of every effective address gives
      exactly the entry that the last call for its page left, and so does every TLB entry. With attributes in the low
      twelve bits, every effective address translates to the frame and attributes of the last call for its page, and
      every other one to nothing. */
  method Replay(m: Mem, calls: seq<Call>) returns (u: Mmu)
    requires forall k | 0 <= k < |calls| :: GoodCall(calls[k])
    ensures fresh(u)
    ensures forall ea: nat ::
              Walk(u.mem, PART_TBL, 1, ea) == if ea < EA_LIMIT then EntryFor(Mapped(calls), PageOf(ea)) else None
    ensures (forall k | 0 <= k < |calls| :: PlainCall(calls[k])) ==>
              && (forall ea: nat :: Decodes(Walk(u.mem, PART_TBL, 1, ea), Translations(calls), ea))
              && (forall n | n in u.tlb :: Decodes(Some((u.tlb[n], 0)), Translations(calls), 4096 * n))
  {
    hide TreeInv, Walk, Pte, PageOf, Mapped, Translations, Decodes;
    u := new Mmu(m);
    assert Mapped([]) == map[] by { NoneMapped(); }
    for k := 0 to |calls|
      invariant fresh(u) && u.Valid() && u.tree.leaf == Mapped(calls[..k])
    {
      MappedNext(calls, k);
      match calls[k] {
        case MapCall(ea, pa, perm, loads) => u.Map(ea, pa, perm, loads, loads, loads);
        case UnmapCall(ea, loads) => u.Unmap(ea, loads, loads);
      }
    }
    assert calls[..|calls|] == calls;
    forall ea: nat
      ensures Walk(u.mem, PART_TBL, 1, ea) == if ea < EA_LIMIT then EntryFor(Mapped(calls), PageOf(ea)) else None
    {
      WalkAgrees(u.mem, u.freePtr, u.tree, ea);
    }
    if forall k | 0 <= k < |calls| :: PlainCall(calls[k]) {
      forall ea: nat ensures Decodes(Walk(u.mem, PART_TBL, 1, ea), Translations(calls), ea) {
        WalkAgrees(u.mem, u.freePtr, u.tree, ea);
        SpaceDecodes(calls, ea);
      }
      forall n | n in u.tlb ensures Decodes(Some((u.tlb[n], 0)), Translations(calls), 4096 * n) {
        assert Fits(n, u.tlb[n], u.tree);
        PagesDecode(calls, 4096 * n);
      }
    }
  }

  lemma NoneMapped()
    ensures Mapped([]) == map[]
  {
  }

  lemma MappedNext(calls: seq<Call>, k: nat)
    requires k < |calls|
    ensures Mapped(calls[..k + 1]) ==
              match calls[k]
              case MapCall(ea, pa, perm, _) => Mapped(calls[..k])[PageOf(ea) := Pte(pa, perm)]
              case UnmapCall(ea, _) => Mapped(calls[..k]) - {PageOf(ea)}
  {
    hide PageOf, Pte;
    assert calls[..k + 1][..k] == calls[..k];
  }

  lemma SpaceDecodes(calls: seq<Call>, ea: nat)
    requires forall k | 0 <= k < |calls| :: PlainCall(calls[k])
    ensures Decodes(if ea < EA_LIMIT then EntryFor(Mapped(calls), PageOf(ea)) else None, Translations(calls), ea)
  {
    hide PageOf, Mapped, Translations;
    if ea < EA_LIMIT {
      PagesDecode(calls, ea);
    }
  }

  lemma InitTree(m: Mem, m0: Mem, m2: Mem, m3: Mem, m4: Mem)
    requires m0 == Write8(m, PART_TBL + 8, BigEndian(PROC_TBL)) && m2 == Zeroed(m0, PROC_TBL, 4096)
    requires m3 == Zeroed(m2, PGDIR, 4096) && m4 == Write8(m3, PROC_TBL + 16, BigEndian(ROOT_ENTRY))
    ensures TreeInv(m4, FREE0, Tree(map[], map[], map[]))
  {
    hide Read8, Write8, Zeroed, BigEndian, DirEntry, SlotOk, Shape, Counted;
    ReadBack(m3, PROC_TBL + 16, BigEndian(ROOT_ENTRY));
    ReadBack(m, PART_TBL + 8, BigEndian(PROC_TBL));
    ReadCleared(m0, PROC_TBL, 4096, PART_TBL + 8);
    ReadCleared(m2, PGDIR, 4096, PART_TBL + 8);
    KeptByWrite(m3, PROC_TBL, 2, BigEndian(ROOT_ENTRY), PART_TBL, 1);
    var t := Tree(map[], map[], map[]);
    EmptyTree();
    forall s: Slot ensures SlotOk(m4, t, s) {
      InitSlot(m2, m3, m4, s);
    }
  }

  lemma EmptyTree()
    ensures Shape(FREE0, Tree(map[], map[], map[])) && Counted(FREE0, Tree(map[], map[], map[]))
  {
  }

  lemma InitSlot(m2: Mem, m3: Mem, m: Mem, s: Slot)
    requires m3 == Zeroed(m2, PGDIR, 4096) && m == Write8(m3, PROC_TBL + 16, BigEndian(ROOT_ENTRY))
    ensures SlotOk(m, Tree(map[], map[], map[]), s)
  {
    hide Read8, Write8, Zeroed, BigEndian, DirEntry;
    if s.Root? && s.h < 512 {
      KeptByWrite(m3, PROC_TBL, 2, BigEndian(ROOT_ENTRY), PGDIR, s.h);
      ReadCleared(m2, PGDIR, 4096, PGDIR + 8 * s.h);
    }
  }
}
