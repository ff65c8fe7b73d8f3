/**
 Three-level Sv39 page tables (section 4.4 of the RISC-V Privileged Architecture) as kernel/vm.c
 builds them in physical pages, and the flat map from virtual pages they stand for.

 A physical page is a sequence of 512 words; `kind` says of every page what it is used for.
 */
module Paging {
  const PGSIZE := 4096
  const ENTRIES := 512
  /** MAXVA / PGSIZE: one bit less than Sv39 allows. */
  const MAXPAGES := 0x400_0000
  const NONE := -1

  /** A 64-bit word seen as a page-table entry: the bits from 10 up, PTE_V, R, W, X, U, the other five. */
  datatype Pte = Pte(ppn: int, v: bool, r: bool, w: bool, x: bool, u: bool, rest: int)

  const ZERO := Pte(0, false, false, false, false, false, 0)

  type Page = seq<Pte>

  function Bit(b: bool): int {
    if b then 1 else 0
  }

  predicate PteOk(e: Pte) {
    0 <= e.ppn && 0 <= e.rest < 32
  }

  /** The word itself. */
  function Word(e: Pte): int {
    Bit(e.v) + 2 * (Bit(e.r) + 2 * (Bit(e.w) + 2 * (Bit(e.x) + 2 * (Bit(e.u) + 2 * (e.rest + 32 * e.ppn)))))
  }

  /** Reading the fields of a word is unambiguous: PTE2PA and PTE_FLAGS undo PA2PTE | flags. */
  lemma WordFields(e: Pte)
    requires PteOk(e)
    ensures Word(e) / 1024 == e.ppn && Word(e) % 2 == Bit(e.v)
    ensures Word(e) / 2 % 2 == Bit(e.r) && Word(e) / 4 % 2 == Bit(e.w) && Word(e) / 8 % 2 == Bit(e.x)
    ensures Word(e) / 16 % 2 == Bit(e.u) && Word(e) / 32 % 32 == e.rest
  {
    var a5 := e.rest + 32 * e.ppn;
    var a4 := Bit(e.u) + 2 * a5;
    var a3 := Bit(e.x) + 2 * a4;
    var a2 := Bit(e.w) + 2 * a3;
    var a1 := Bit(e.r) + 2 * a2;
    LowBit(e.v, a1, Word(e));
    LowBit(e.r, a2, a1);
    LowBit(e.w, a3, a2);
    LowBit(e.x, a4, a3);
    LowBit(e.u, a5, a4);
    Halves(Word(e), a1, a2, a3, a4, a5);
  }

  lemma LowBit(b: bool, high: int, w: int)
    requires w == Bit(b) + 2 * high
    ensures w / 2 == high && w % 2 == Bit(b)
  {
  }

  lemma Halves(w: int, a1: int, a2: int, a3: int, a4: int, a5: int)
    requires w / 2 == a1 && a1 / 2 == a2 && a2 / 2 == a3 && a3 / 2 == a4 && a4 / 2 == a5
    ensures w / 4 == a2 && w / 8 == a3 && w / 16 == a4 && w / 32 == a5 && w / 1024 == a5 / 32
  {
  }

  /** (pte & (PTE_R|PTE_W|PTE_X)) != 0. */
  predicate Leafy(e: Pte) {
    e.r || e.w || e.x
  }

  /** The three table indices of a virtual page. */
  datatype Path = Path(i2: int, i1: int, i0: int)

  /** PX(2), PX(1), PX(0) of the addresses of virtual page n. */
  function PathOf(n: int): (p: Path)
    requires 0 <= n < MAXPAGES
    ensures PathOk(p)
  {
    Path(n / 0x4_0000, n / 512 % 512, n % 512)
  }

  predicate PathOk(p: Path) {
    0 <= p.i2 < ENTRIES / 2 && 0 <= p.i1 < ENTRIES && 0 <= p.i0 < ENTRIES
  }

  function Join(p: Path): int {
    p.i2 * 0x4_0000 + p.i1 * 512 + p.i0
  }

  lemma PathJoin(n: int)
    requires 0 <= n < MAXPAGES
    ensures Join(PathOf(n)) == n
  {
  }

  /** PX(level, va): nine bits of the address each, from bit 12, 21 and 30 up. */
  lemma PathOfAddress(va: int)
    requires 0 <= va < MAXPAGES * PGSIZE
    ensures 0 <= va / PGSIZE < MAXPAGES
    ensures var p := PathOf(va / PGSIZE);
      p.i0 == va / 0x1000 % 0x200 && p.i1 == va / 0x20_0000 % 0x200 && p.i2 == va / 0x4000_0000 % 0x200
  {
    var n := va / PGSIZE;
    assert n / 512 == va / 0x20_0000 && n / 0x4_0000 == va / 0x4000_0000;
  }

  lemma JoinPath(p: Path)
    requires PathOk(p)
    ensures 0 <= Join(p) < MAXPAGES && PathOf(Join(p)) == p
  {
    var h := p.i2 * 512 + p.i1;
    assert Join(p) == h * 512 + p.i0;
    assert Join(p) / 512 == h && Join(p) % 512 == p.i0;
    assert h / 512 == p.i2 && h % 512 == p.i1;
  }

  // ------------------------------------------------------------------ what pages are used for

  /**
   Free: on the free list, at this height of the stack. Loose: handed out by kalloc and in nobody's
   table. Table: a page-table page of the tree with this root, linked from entry idx of parent
   (the root itself has level 2). Data: mapped by entry idx of the level-0 table parent, and by
   nothing else. Other: not kalloc's.
   */
  datatype Kind =
    | Free(pos: int)
    | Loose
    | Table(root: int, level: int, parent: int, idx: int)
    | Data(root: int, parent: int, idx: int)
    | Other

  predicate IsPage(kind: seq<Kind>, q: int) {
    0 <= q < |kind|
  }

  predicate IsTable(kind: seq<Kind>, q: int) {
    IsPage(kind, q) && kind[q].Table?
  }

  predicate IsRoot(kind: seq<Kind>, q: int) {
    IsTable(kind, q) && kind[q].level == 2 && kind[q].root == q
  }

  predicate Shape(mem: seq<Page>, kind: seq<Kind>) {
    |mem| == |kind| && forall q :: 0 <= q < |mem| ==> |mem[q]| == ENTRIES
  }

  /** A valid entry of a table leads to the page that knows it as its only parent. */
  predicate EntryOk(mem: seq<Page>, kind: seq<Kind>, p: int, i: int)
    requires Shape(mem, kind) && IsTable(kind, p) && 0 <= i < ENTRIES
  {
    var e := mem[p][i];
    e.v ==>
      IsPage(kind, e.ppn) &&
      if kind[p].level > 0 then !Leafy(e) && kind[e.ppn] == Table(kind[p].root, kind[p].level - 1, p, i)
      else Leafy(e) && (kind[e.ppn] == Data(kind[p].root, p, i) || kind[e.ppn].Other?)
  }

  /** A table or data page is linked from where it says. */
  predicate LinkOk(mem: seq<Page>, kind: seq<Kind>, q: int)
    requires Shape(mem, kind) && IsPage(kind, q)
  {
    match kind[q]
    case Table(root, level, parent, idx) =>
      if level == 2 then root == q && parent == NONE
      else 0 <= level < 2 && (level == 1 ==> idx < ENTRIES / 2) && Linked(mem, kind, q, root, level + 1, parent, idx)
    case Data(root, parent, idx) => Linked(mem, kind, q, root, 0, parent, idx)
    case _ => true
  }

  predicate Linked(mem: seq<Page>, kind: seq<Kind>, q: int, root: int, level: int, parent: int, idx: int)
    requires Shape(mem, kind)
  {
    && IsTable(kind, parent) && kind[parent].level == level && kind[parent].root == root && 0 <= idx < ENTRIES
    && mem[parent][idx].v && mem[parent][idx].ppn == q
  }

  /** All page-table pages form unshared trees; the slots in ex may dangle. */
  ghost predicate Tree(mem: seq<Page>, kind: seq<Kind>, ex: set<(int, int)>) {
    && Shape(mem, kind)
    && (forall p, i :: IsTable(kind, p) && 0 <= i < ENTRIES && (p, i) !in ex ==> EntryOk(mem, kind, p, i))
    && (forall q :: IsPage(kind, q) ==> LinkOk(mem, kind, q))
  }

  // ------------------------------------------------------------------ the flat map

  function At(mem: seq<Page>, p: int, i: int): Pte {
    if 0 <= p < |mem| && 0 <= i < |mem[p]| then mem[p][i] else ZERO
  }

  /** The table an entry leads to. */
  function Step(mem: seq<Page>, p: int, i: int): int {
    if p != NONE && At(mem, p, i).v then At(mem, p, i).ppn else NONE
  }

  /** The level-0 table of a virtual page. */
  function Table0(mem: seq<Page>, root: int, at: Path): int {
    Step(mem, Step(mem, root, at.i2), at.i1)
  }

  /** The entry that maps a virtual page; not valid when the page is unmapped. */
  function Leaf(mem: seq<Page>, root: int, at: Path): Pte {
    if Table0(mem, root, at) == NONE then ZERO else At(mem, Table0(mem, root, at), at.i0)
  }

  /** The flat map: what a virtual page translates to, ZERO when it is unmapped. */
  function Map(mem: seq<Page>, root: int, at: Path): Pte {
    if Leaf(mem, root, at).v then Leaf(mem, root, at) else ZERO
  }

  /** The tables on the way to a virtual page. */
  lemma OnPath(mem: seq<Page>, kind: seq<Kind>, root: int, at: Path)
    requires Tree(mem, kind, {}) && IsRoot(kind, root) && PathOk(at)
    ensures var t := Step(mem, root, at.i2); t != NONE ==> IsTable(kind, t) && kind[t] == Table(root, 1, root, at.i2)
    ensures var t := Table0(mem, root, at);
      t != NONE ==>
        Step(mem, root, at.i2) != NONE && IsTable(kind, t) && kind[t] == Table(root, 0, Step(mem, root, at.i2), at.i1)
  {
    assert EntryOk(mem, kind, root, at.i2);
    var t := Step(mem, root, at.i2);
    if t != NONE {
      assert EntryOk(mem, kind, t, at.i1);
    }
  }

  /**
   The three-level walk of an address: the entries at bits 30, 21 and 12 of it, each in the page the one
   before names, and no translation as soon as one of them is not valid.
   */
  lemma TranslationIs(mem: seq<Page>, kind: seq<Kind>, root: int, va: int)
    requires Tree(mem, kind, {}) && IsRoot(kind, root) && 0 <= va < MAXPAGES * PGSIZE
    ensures 0 <= va / 0x1000 < MAXPAGES && IsPage(kind, root) && |mem| == |kind| && |mem[root]| == 512
    ensures var e2, e := mem[root][va / 0x4000_0000 % 0x200], Map(mem, root, PathOf(va / 0x1000));
      if !e2.v then e == ZERO
      else
        && 0 <= e2.ppn < |mem| && |mem[e2.ppn]| == 512
        && var e1 := mem[e2.ppn][va / 0x20_0000 % 0x200];
           if !e1.v then e == ZERO
           else
             && 0 <= e1.ppn < |mem| && |mem[e1.ppn]| == 512
             && var e0 := mem[e1.ppn][va / 0x1000 % 0x200];
                e == if e0.v then e0 else ZERO
  {
    PathOfAddress(va);
    var at := PathOf(va / 0x1000);
    OnPath(mem, kind, root, at);
    assert EntryOk(mem, kind, root, at.i2);
    if mem[root][at.i2].v {
      var t := mem[root][at.i2].ppn;
      assert t == Step(mem, root, at.i2) && EntryOk(mem, kind, t, at.i1);
      assert mem[t][at.i1].v ==> Table0(mem, root, at) == mem[t][at.i1].ppn;
    } else {
      assert Step(mem, root, at.i2) == NONE;
    }
  }

  /** Two virtual pages, of one address space or of two, never share a leaf entry. */
  lemma SlotsDiffer(mem: seq<Page>, kind: seq<Kind>, root: int, at: Path, root': int, at': Path)
    requires Tree(mem, kind, {}) && IsRoot(kind, root) && IsRoot(kind, root') && PathOk(at) && PathOk(at')
    requires Table0(mem, root, at) != NONE && Table0(mem, root', at') == Table0(mem, root, at) && at'.i0 == at.i0
    ensures root' == root && at' == at
  {
    OnPath(mem, kind, root, at);
    OnPath(mem, kind, root', at');
  }

  /** A data page is mapped at most once in all address spaces. */
  lemma DataMappedOnce(mem: seq<Page>, kind: seq<Kind>, root: int, at: Path, root': int, at': Path)
    requires Tree(mem, kind, {}) && IsRoot(kind, root) && IsRoot(kind, root') && PathOk(at) && PathOk(at')
    requires Leaf(mem, root, at).v && Leaf(mem, root', at').v && Leaf(mem, root, at).ppn == Leaf(mem, root', at').ppn
    requires IsPage(kind, Leaf(mem, root, at).ppn) && kind[Leaf(mem, root, at).ppn].Data?
    ensures root' == root && at' == at
  {
    OnPath(mem, kind, root, at);
    OnPath(mem, kind, root', at');
    assert EntryOk(mem, kind, Table0(mem, root, at), at.i0);
    assert EntryOk(mem, kind, Table0(mem, root', at'), at'.i0);
    SlotsDiffer(mem, kind, root, at, root', at');
  }

  function Set(mem: seq<Page>, p: int, i: int, e: Pte): (r: seq<Page>)
    requires 0 <= p < |mem| && 0 <= i < |mem[p]|
    ensures |r| == |mem| && forall q :: 0 <= q < |r| ==> |r[q]| == |mem[q]|
  {
    mem[p := mem[p][i := e]]
  }

  lemma SetAt(mem: seq<Page>, p: int, i: int, e: Pte, q: int, j: int)
    requires 0 <= p < |mem| && 0 <= i < |mem[p]|
    ensures At(Set(mem, p, i, e), q, j) == if q == p && j == i then e else At(mem, q, j)
  {
  }

  /** Writing a leaf entry changes the translation of its own page and of no other. */
  lemma LeafWrite(mem: seq<Page>, kind: seq<Kind>, root: int, at: Path, e: Pte, root': int, at': Path)
    requires Tree(mem, kind, {}) && IsRoot(kind, root) && IsRoot(kind, root') && PathOk(at) && PathOk(at')
    requires Table0(mem, root, at) != NONE
    ensures 0 <= Table0(mem, root, at) < |mem| && |mem[Table0(mem, root, at)]| == ENTRIES
    ensures Table0(Set(mem, Table0(mem, root, at), at.i0, e), root', at') == Table0(mem, root', at')
    ensures Leaf(Set(mem, Table0(mem, root, at), at.i0, e), root', at')
            == if root' == root && at' == at then e else Leaf(mem, root', at')
  {
    OnPath(mem, kind, root, at);
    OnPath(mem, kind, root', at');
    var t := Table0(mem, root, at);
    SetAt(mem, t, at.i0, e, root', at'.i2);
    SetAt(mem, t, at.i0, e, Step(mem, root', at'.i2), at'.i1);
    SetAt(mem, t, at.i0, e, Table0(mem, root', at'), at'.i0);
    if Table0(mem, root', at') == t && at'.i0 == at.i0 {
      SlotsDiffer(mem, kind, root, at, root', at');
    }
  }

  // ------------------------------------------------------------------ changes to the trees

  /** A table entry that leads to a lower table. */
  function TableEntry(q: int): Pte {
    Pte(q, true, false, false, false, false, 0)
  }

  predicate IsZero(mem: seq<Page>, q: int) {
    0 <= q < |mem| && forall i :: 0 <= i < |mem[q]| ==> mem[q][i] == ZERO
  }

  /** walk links a fresh table below entry i of p. */
  lemma LinkTable(mem: seq<Page>, kind: seq<Kind>, p: int, i: int, q: int)
    requires Tree(mem, kind, {}) && IsTable(kind, p) && kind[p].level > 0 && 0 <= i < ENTRIES && !mem[p][i].v
    requires kind[p].level == 2 ==> i < ENTRIES / 2
    requires IsPage(kind, q) && kind[q].Loose? && IsZero(mem, q)
    ensures Tree(Set(mem, p, i, TableEntry(q)), kind[q := Table(kind[p].root, kind[p].level - 1, p, i)], {})
  {
    var mem', kind' := Set(mem, p, i, TableEntry(q)), kind[q := Table(kind[p].root, kind[p].level - 1, p, i)];
    forall r, j | IsTable(kind', r) && 0 <= j < ENTRIES
      ensures EntryOk(mem', kind', r, j)
    {
      if r != q {
        assert EntryOk(mem, kind, r, j);
      }
    }
    forall r | IsPage(kind', r)
      ensures LinkOk(mem', kind', r)
    {
      assert LinkOk(mem, kind, r) && LinkOk(mem, kind, p);
    }
  }

  /** A fresh table maps nothing, so no translation changes. */
  lemma LinkTableKeepsLeaf(mem: seq<Page>, kind: seq<Kind>, p: int, i: int, q: int, root: int, at: Path)
    requires Tree(mem, kind, {}) && IsTable(kind, p) && kind[p].level > 0 && 0 <= i < ENTRIES && !mem[p][i].v
    requires IsPage(kind, q) && kind[q].Loose? && IsZero(mem, q) && IsRoot(kind, root) && PathOk(at)
    ensures Map(Set(mem, p, i, TableEntry(q)), root, at) == Map(mem, root, at)
  {
    OnPath(mem, kind, root, at);
    var mem' := Set(mem, p, i, TableEntry(q));
    SetAt(mem, p, i, TableEntry(q), root, at.i2);
    var t := Step(mem', root, at.i2);
    SetAt(mem, p, i, TableEntry(q), t, at.i1);
    SetAt(mem, p, i, TableEntry(q), Table0(mem', root, at), at.i0);
  }

  /** A leaf entry for a page that is not the tables' own. */
  lemma MapPage(mem: seq<Page>, kind: seq<Kind>, p: int, i: int, e: Pte)
    requires Tree(mem, kind, {}) && IsTable(kind, p) && kind[p].level == 0 && 0 <= i < ENTRIES && !mem[p][i].v
    requires IsPage(kind, e.ppn) && (kind[e.ppn].Loose? || kind[e.ppn].Other?) && e.v && Leafy(e)
    ensures Tree(Set(mem, p, i, e), Claimed(kind, e.ppn, p, i), {})
  {
    var mem', kind' := Set(mem, p, i, e), Claimed(kind, e.ppn, p, i);
    forall r, j | IsTable(kind', r) && 0 <= j < ENTRIES
      ensures EntryOk(mem', kind', r, j)
    {
      assert EntryOk(mem, kind, r, j);
    }
    forall r | IsPage(kind', r)
      ensures LinkOk(mem', kind', r)
    {
      assert LinkOk(mem, kind, r);
    }
  }

  /** Mapping a loose page makes it the data page of that entry. */
  function Claimed(kind: seq<Kind>, q: int, p: int, i: int): (r: seq<Kind>)
    requires IsPage(kind, q) && IsTable(kind, p)
    ensures |r| == |kind|
  {
    if kind[q].Loose? then kind[q := Data(kind[p].root, p, i)] else kind
  }

  /** The data page of a leaf entry may be let go of before the entry is cleared. */
  lemma ReleasePage(mem: seq<Page>, kind: seq<Kind>, p: int, i: int)
    requires Tree(mem, kind, {}) && IsTable(kind, p) && kind[p].level == 0 && 0 <= i < ENTRIES && mem[p][i].v
    ensures IsPage(kind, mem[p][i].ppn) && (kind[mem[p][i].ppn].Other?
      || kind[mem[p][i].ppn] == Data(kind[p].root, p, i))
    ensures Tree(mem, Released(kind, mem[p][i].ppn), {(p, i)})
  {
    assert EntryOk(mem, kind, p, i);
    var kind' := Released(kind, mem[p][i].ppn);
    forall r, j | IsTable(kind', r) && 0 <= j < ENTRIES && (r, j) != (p, i)
      ensures EntryOk(mem, kind', r, j)
    {
      assert EntryOk(mem, kind, r, j);
    }
    forall r | IsPage(kind', r)
      ensures LinkOk(mem, kind', r)
    {
      assert LinkOk(mem, kind, r);
    }
  }

  /** Clearing an entry no page is linked from. */
  lemma ClearEntry(mem: seq<Page>, kind: seq<Kind>, p: int, i: int, ex: set<(int, int)>)
    requires Tree(mem, kind, ex + {(p, i)}) && IsTable(kind, p) && 0 <= i < ENTRIES
    requires IsPage(kind, mem[p][i].ppn) ==> !kind[mem[p][i].ppn].Table? && !kind[mem[p][i].ppn].Data?
    ensures Tree(Set(mem, p, i, ZERO), kind, ex)
  {
    var mem' := Set(mem, p, i, ZERO);
    forall r, j | IsTable(kind, r) && 0 <= j < ENTRIES && (r, j) !in ex
      ensures EntryOk(mem', kind, r, j)
    {
      if (r, j) != (p, i) {
        assert EntryOk(mem, kind, r, j);
      }
    }
    forall r | IsPage(kind, r)
      ensures LinkOk(mem', kind, r)
    {
      assert LinkOk(mem, kind, r);
    }
  }

  /** An entry may change its permissions, as long as it is a leaf or not as before. */
  lemma EntryFlags(mem: seq<Page>, kind: seq<Kind>, p: int, i: int, e: Pte)
    requires Tree(mem, kind, {}) && IsTable(kind, p) && 0 <= i < ENTRIES
    requires e.v == mem[p][i].v && e.ppn == mem[p][i].ppn && Leafy(e) == Leafy(mem[p][i])
    ensures Tree(Set(mem, p, i, e), kind, {})
  {
    var mem' := Set(mem, p, i, e);
    forall r, j | IsTable(kind, r) && 0 <= j < ENTRIES
      ensures EntryOk(mem', kind, r, j)
    {
      assert EntryOk(mem, kind, r, j);
    }
    forall r | IsPage(kind, r)
      ensures LinkOk(mem', kind, r)
    {
      assert LinkOk(mem, kind, r);
    }
  }

  function Released(kind: seq<Kind>, q: int): (r: seq<Kind>)
    requires IsPage(kind, q)
    ensures |r| == |kind|
  {
    if kind[q].Data? then kind[q := Loose] else kind
  }

  predicate Unused(k: Kind) {
    k.Free? || k.Loose?
  }

  /** The trees depend on the contents of tables alone, and not on which pages are free. */
  ghost predicate SameTables(mem: seq<Page>, kind: seq<Kind>, mem': seq<Page>, kind': seq<Kind>) {
    && Shape(mem, kind) && Shape(mem', kind') && |mem| == |mem'|
    && (forall q :: IsPage(kind, q) ==> kind'[q] == kind[q] || (Unused(kind[q]) && Unused(kind'[q])))
    && (forall q :: IsTable(kind, q) ==> mem'[q] == mem[q])
  }

  lemma TreeFrame(mem: seq<Page>, kind: seq<Kind>, mem': seq<Page>, kind': seq<Kind>, ex: set<(int, int)>)
    requires Tree(mem, kind, ex) && SameTables(mem, kind, mem', kind')
    ensures Tree(mem', kind', ex)
  {
    forall r, j | IsTable(kind', r) && 0 <= j < ENTRIES && (r, j) !in ex
      ensures EntryOk(mem', kind', r, j)
    {
      assert EntryOk(mem, kind, r, j);
    }
    forall r | IsPage(kind', r)
      ensures LinkOk(mem', kind', r)
    {
      assert LinkOk(mem, kind, r);
    }
  }

  lemma LeafFrame(mem: seq<Page>, kind: seq<Kind>, mem': seq<Page>, kind': seq<Kind>, root: int, at: Path)
    requires Tree(mem, kind, {}) && SameTables(mem, kind, mem', kind') && IsRoot(kind, root) && PathOk(at)
    ensures Leaf(mem', root, at) == Leaf(mem, root, at) && Table0(mem', root, at) == Table0(mem, root, at)
  {
    OnPath(mem, kind, root, at);
  }

  // ------------------------------------------------------------------ the free list

  /** A page filled with one word. */
  function Filled(e: Pte): (r: Page)
    ensures |r| == ENTRIES && forall i :: 0 <= i < ENTRIES ==> r[i] == e
  {
    seq(ENTRIES, _ => e)
  }

  /** The words of memset(pa, 5, PGSIZE) and memset(pa, 1, PGSIZE). */
  const JUNK5 := Pte(0x0505_0505_0505_0505 / 1024, true, false, true, false, false, 8)
  const JUNK1 := Pte(0x0101_0101_0101_0101 / 1024, true, false, false, false, false, 8)

  /** The pointer r->next as a word: the address next * PGSIZE, or 0. */
  function Run(next: int): Pte {
    if next == NONE then ZERO else Pte(4 * next, false, false, false, false, false, 0)
  }

  function NextOf(e: Pte): int {
    if e == ZERO then NONE else e.ppn / 4
  }

  /** The top of a stack. */
  function Top(free: seq<int>): int {
    if free == [] then NONE else free[|free| - 1]
  }

  /** kmem.freelist runs through exactly the free pages, the top of the stack first. */
  ghost predicate FreeOk(mem: seq<Page>, kind: seq<Kind>, head: int, free: seq<int>) {
    && Shape(mem, kind) && |kind| > 0 && kind[0].Other?
    && head == Top(free)
    && (forall k :: 0 <= k < |free| ==> IsPage(kind, free[k]) && kind[free[k]] == Free(k))
    && (free != [] ==> IsPage(kind, free[0]) && mem[free[0]][0] == Run(NONE))
    && (forall j, k :: 0 <= j < k < |free| && k == j + 1 ==> IsPage(kind, free[k]) && mem[free[k]][0] == Run(free[j]))
    && (forall q :: IsPage(kind, q) && kind[q].Free? ==> 0 <= kind[q].pos < |free| && free[kind[q].pos] == q)
  }

  lemma Popped(mem: seq<Page>, kind: seq<Kind>, head: int, free: seq<int>, page: Page)
    requires FreeOk(mem, kind, head, free) && free != [] && |page| == ENTRIES
    ensures 0 < head < |mem| && kind[head].Free?
    ensures FreeOk(mem[head := page], kind[head := Loose], NextOf(mem[head][0]), free[..|free| - 1])
  {
    var n := |free| - 1;
    assert free[n] == head && kind[head] == Free(n);
    if n > 0 {
      assert mem[free[n]][0] == Run(free[n - 1]);
    }
  }

  lemma Pushed(mem: seq<Page>, kind: seq<Kind>, head: int, free: seq<int>, q: int, page: Page)
    requires FreeOk(mem, kind, head, free) && IsPage(kind, q) && kind[q].Loose? && |page| == ENTRIES
      && page[0] == Run(head)
    ensures FreeOk(mem[q := page], kind[q := Free(|free|)], q, free + [q])
  {
  }

  /** The list depends on the free pages alone. */
  lemma FreeFrame(mem: seq<Page>, kind: seq<Kind>, head: int, free: seq<int>, mem': seq<Page>, kind': seq<Kind>)
    requires FreeOk(mem, kind, head, free) && Shape(mem', kind') && |kind'| == |kind|
    requires forall q :: IsPage(kind, q) ==>
      kind'[q] == kind[q] || (!kind[q].Free? && !kind[q].Other? && !kind'[q].Free?)
    requires forall q :: IsPage(kind, q) && kind[q].Free? ==> mem'[q] == mem[q]
    ensures FreeOk(mem', kind', head, free)
  {
  }

  // ------------------------------------------------------------------ taking trees down

  /** q is p or a table below it. */
  predicate Under(kind: seq<Kind>, q: int, p: int) {
    q == p || ChildOf(kind, q, p) || (IsTable(kind, q) && kind[q].level < 2 && ChildOf(kind, kind[q].parent, p))
  }

  predicate ChildOf(kind: seq<Kind>, q: int, p: int) {
    IsTable(kind, q) && kind[q].level < 2 && kind[q].parent == p
  }

  /** No level-0 table of root's tree maps anything. */
  ghost predicate Bare(mem: seq<Page>, kind: seq<Kind>, root: int)
    requires Shape(mem, kind)
  {
    forall t, i :: IsTable(kind, t) && kind[t].level == 0 && kind[t].root == root && 0 <= i < ENTRIES ==> !mem[t][i].v
  }

  /** The slot a table is linked from. */
  function SlotOf(kind: seq<Kind>, p: int): (int, int)
    requires IsTable(kind, p)
  {
    (kind[p].parent, kind[p].idx)
  }

  /** An emptied table can go; the slot that leads to it dangles. */
  lemma DropTable(mem: seq<Page>, kind: seq<Kind>, p: int, ex: set<(int, int)>)
    requires Tree(mem, kind, ex) && IsTable(kind, p) && forall i :: 0 <= i < ENTRIES ==> !mem[p][i].v
    ensures Tree(mem, kind[p := Loose], ex + {SlotOf(kind, p)})
  {
    var kind', ex' := kind[p := Loose], ex + {SlotOf(kind, p)};
    forall r, j | IsTable(kind', r) && 0 <= j < ENTRIES && (r, j) !in ex'
      ensures EntryOk(mem, kind', r, j)
    {
      assert EntryOk(mem, kind, r, j) && LinkOk(mem, kind, p) && LinkOk(mem, kind, r);
    }
    forall r | IsPage(kind', r)
      ensures LinkOk(mem, kind', r)
    {
      assert LinkOk(mem, kind, r);
    }
  }

  /** When p has no entries left, everything that was below it is gone. */
  lemma NothingBelow(mem: seq<Page>, kind0: seq<Kind>, kind: seq<Kind>, p: int, q: int, ex: set<(int, int)>)
    requires Tree(mem, kind, ex) && IsTable(kind, p) && (forall i :: 0 <= i < ENTRIES ==> !mem[p][i].v)
    requires |kind0| == |kind| && IsPage(kind, q) && q != p && Under(kind0, q, p)
    requires forall r :: IsPage(kind, r) && r != p ==> kind[r] == kind0[r] || kind[r].Free?
    ensures kind[q].Free?
  {
    assert LinkOk(mem, kind, q);
    if IsTable(kind, q) && IsPage(kind, kind[q].parent) {
      assert LinkOk(mem, kind, kind[q].parent);
    }
  }

  /** Every data page of an address space is mapped by some virtual page of it. */
  lemma DataIsMapped(mem: seq<Page>, kind: seq<Kind>, q: int) returns (n: int)
    requires Tree(mem, kind, {}) && IsPage(kind, q) && kind[q].Data?
    ensures 0 <= n < MAXPAGES && Map(mem, kind[q].root, PathOf(n)).v && Map(mem, kind[q].root, PathOf(n)).ppn == q
  {
    assert LinkOk(mem, kind, q);
    n := SlotIsMapped(mem, kind, kind[q].parent, kind[q].idx);
  }

  /** Every valid leaf entry is the translation of some virtual page. */
  lemma SlotIsMapped(mem: seq<Page>, kind: seq<Kind>, t: int, i: int) returns (n: int)
    requires Tree(mem, kind, {}) && IsTable(kind, t) && kind[t].level == 0 && 0 <= i < ENTRIES && mem[t][i].v
    ensures 0 <= n < MAXPAGES && Map(mem, kind[t].root, PathOf(n)) == mem[t][i]
  {
    var t1 := kind[t].parent;
    assert LinkOk(mem, kind, t) && LinkOk(mem, kind, t1) && LinkOk(mem, kind, kind[t1].parent);
    var at := Path(kind[t1].idx, kind[t].idx, i);
    JoinPath(at);
    n := Join(at);
    assert Step(mem, kind[t].root, at.i2) == t1;
    assert Table0(mem, kind[t].root, at) == t;
  }

  /** The tables under a root are those that name it. */
  lemma UnderRoot(mem: seq<Page>, kind: seq<Kind>, root: int, q: int)
    requires Tree(mem, kind, {}) && IsRoot(kind, root) && IsPage(kind, q)
    ensures Under(kind, q, root) <==> kind[q].Table? && kind[q].root == root
  {
    assert LinkOk(mem, kind, q);
    if IsTable(kind, q) && IsPage(kind, kind[q].parent) {
      assert LinkOk(mem, kind, kind[q].parent);
      if IsTable(kind, kind[q].parent) && IsPage(kind, kind[kind[q].parent].parent) {
        assert LinkOk(mem, kind, kind[kind[q].parent].parent);
      }
    }
  }

  /** Dangling slots of no table do not matter. */
  lemma NoSlot(mem: seq<Page>, kind: seq<Kind>, i: int)
    requires Tree(mem, kind, {(NONE, i)})
    ensures Tree(mem, kind, {})
  {
    forall p, j | IsTable(kind, p) && 0 <= j < ENTRIES
      ensures EntryOk(mem, kind, p, j)
    {
      assert (p, j) !in {(NONE, i)};
    }
  }
}
