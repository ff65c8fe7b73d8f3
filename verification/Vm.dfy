/**
 Physical pages and user page tables: kernel/kalloc.c and kernel/vm.c.

 Addresses are handled by page number; memory is a sequence of pages, and `kind` and `free` record
 what each page is used for. The loops' byte copies and fills act on whole pages.
 */
module Vm {
  import opened Paging

  // ------------------------------------------------------------------ what operations keep

  /** Free pages at any height count as the same. */
  predicate SameUse(a: Kind, b: Kind) {
    a == b || (a.Free? && b.Free?)
  }

  /** Pages keep their use, except that free ones may have become tables of root's tree. */
  ghost predicate Kept(kind0: seq<Kind>, kind: seq<Kind>, root: int) {
    && |kind| == |kind0|
    && forall q :: IsPage(kind0, q) ==>
         SameUse(kind0[q], kind[q]) || (kind0[q].Free? && kind[q].Table? && kind[q].root == root)
  }

  /** Contents of pages that are neither tables nor free stay. */
  ghost predicate ContentsKept(mem0: seq<Page>, kind0: seq<Kind>, mem: seq<Page>) {
    |mem| == |mem0| == |kind0| && forall q :: IsPage(kind0, q) && !kind0[q].Free? && !kind0[q].Table? ==>
      mem[q] == mem0[q]
  }

  /** No address space's flat map changes, except pages lo..hi of root's. */
  ghost predicate MapsKept(mem0: seq<Page>, kind0: seq<Kind>, mem: seq<Page>, root: int, lo: int, hi: int) {
    forall r, n :: IsRoot(kind0, r) && 0 <= n < MAXPAGES && !(r == root && lo <= n < hi) ==>
      Map(mem, r, PathOf(n)) == Map(mem0, r, PathOf(n))
  }

  /** Valid table entries stay. */
  ghost predicate EntriesKept(mem0: seq<Page>, kind0: seq<Kind>, mem: seq<Page>) {
    forall p, i :: IsTable(kind0, p) && At(mem0, p, i).v ==> At(mem, p, i) == At(mem0, p, i)
  }

  /** What walk may do when it allocates: only add empty tables to root's tree. */
  ghost predicate Grown(mem0: seq<Page>, kind0: seq<Kind>, mem: seq<Page>, kind: seq<Kind>, root: int) {
    && Kept(kind0, kind, root) && ContentsKept(mem0, kind0, mem) && EntriesKept(mem0, kind0, mem)
    && MapsKept(mem0, kind0, mem, root, 0, 0)
  }

  /**
   Table q is on the way to one of the virtual pages lo..hi: below the root a table serves 2^18 pages, and the
   tables below that one 512 pages each.
   */
  predicate Serves(kind: seq<Kind>, q: int, lo: int, hi: int)
    requires IsTable(kind, q)
  {
    match kind[q].level
    case 1 => lo / 0x4_0000 <= kind[q].idx <= (hi - 1) / 0x4_0000
    case 0 =>
      var mid := kind[q].parent;
      IsTable(kind, mid) && lo / 512 <= kind[mid].idx * 512 + kind[q].idx <= (hi - 1) / 512
    case _ => false
  }

  /** Page q stays a table if it was one, and if it is a new one it is on the way to pages lo..hi. */
  predicate TableFor(kind0: seq<Kind>, kind: seq<Kind>, q: int, lo: int, hi: int) {
    if IsTable(kind0, q) then IsPage(kind, q) && kind[q] == kind0[q]
    else IsTable(kind, q) ==> lo < hi && Serves(kind, q, lo, hi)
  }

  /** The tables that are lost, or made although the pages lo..hi do not need them. */
  ghost function Astray(kind0: seq<Kind>, kind: seq<Kind>, lo: int, hi: int): set<int> {
    set q | 0 <= q < |kind0| + |kind| && !TableFor(kind0, kind, q, lo, hi)
  }

  ghost predicate TablesFor(kind0: seq<Kind>, kind: seq<Kind>, lo: int, hi: int) {
    Astray(kind0, kind, lo, hi) == {}
  }

  lemma IsFor(kind0: seq<Kind>, kind: seq<Kind>, lo: int, hi: int)
    ensures TablesFor(kind0, kind, lo, hi) <==> forall q :: TableFor(kind0, kind, q, lo, hi)
  {
    forall q | TablesFor(kind0, kind, lo, hi)
      ensures TableFor(kind0, kind, q, lo, hi)
    {
      assert q !in Astray(kind0, kind, lo, hi);
    }
  }

  lemma TablesJoin(kind0: seq<Kind>, kind1: seq<Kind>, kind2: seq<Kind>, lo: int, a: int, b: int, hi: int)
    requires TablesFor(kind0, kind1, lo, a) && TablesFor(kind1, kind2, b, hi) && lo <= a <= hi && lo <= b <= hi
    ensures TablesFor(kind0, kind2, lo, hi)
  {
    IsFor(kind0, kind1, lo, a);
    IsFor(kind1, kind2, b, hi);
    IsFor(kind0, kind2, lo, hi);
    forall q
      ensures TableFor(kind0, kind2, q, lo, hi)
    {
      assert TableFor(kind0, kind1, q, lo, a) && TableFor(kind1, kind2, q, b, hi);
      if IsTable(kind1, q) {
        var mid := kind1[q].parent;
        assert TableFor(kind1, kind2, mid, b, hi);
      }
    }
  }

  lemma TablesMore(kind0: seq<Kind>, kind: seq<Kind>, lo: int, a: int, hi: int)
    requires TablesFor(kind0, kind, lo, a) && lo <= a <= hi
    ensures TablesFor(kind0, kind, lo, hi)
  {
    SameTablesFor(kind, kind, hi, hi);
    TablesJoin(kind0, kind, kind, lo, a, hi, hi);
  }

  ghost predicate SameTables(kind: seq<Kind>, kind': seq<Kind>) {
    |kind'| == |kind| && forall q :: IsPage(kind, q) && (kind[q].Table? || kind'[q].Table?) ==> kind'[q] == kind[q]
  }

  lemma SameTablesFor(kind: seq<Kind>, kind': seq<Kind>, lo: int, hi: int)
    requires SameTables(kind, kind')
    ensures TablesFor(kind, kind', lo, hi)
  {
    IsFor(kind, kind', lo, hi);
    forall q
      ensures TableFor(kind, kind', q, lo, hi)
    {
    }
  }

  lemma TablesStay(kind0: seq<Kind>, kind1: seq<Kind>, kind2: seq<Kind>, lo: int, hi: int)
    requires TablesFor(kind0, kind1, lo, hi) && SameTables(kind1, kind2) && lo <= hi
    ensures TablesFor(kind0, kind2, lo, hi)
  {
    SameTablesFor(kind1, kind2, hi, hi);
    TablesJoin(kind0, kind1, kind2, lo, hi, hi, hi);
  }

  lemma TablesFrom(kind0: seq<Kind>, kind1: seq<Kind>, kind2: seq<Kind>, lo: int, hi: int)
    requires SameTables(kind0, kind1) && TablesFor(kind1, kind2, lo, hi) && lo <= hi
    ensures TablesFor(kind0, kind2, lo, hi)
  {
    SameTablesFor(kind0, kind1, lo, lo);
    TablesJoin(kind0, kind1, kind2, lo, lo, lo, hi);
  }

  lemma GrownJoin(mem0: seq<Page>, kind0: seq<Kind>, mem1: seq<Page>, kind1: seq<Kind>, mem2: seq<Page>,
                  kind2: seq<Kind>, root: int)
    requires Grown(mem0, kind0, mem1, kind1, root) && Grown(mem1, kind1, mem2, kind2, root)
    ensures Grown(mem0, kind0, mem2, kind2, root)
  {
    forall p, i | IsTable(kind0, p) && At(mem0, p, i).v
      ensures At(mem2, p, i) == At(mem0, p, i)
    {
      assert At(mem1, p, i) == At(mem0, p, i);
    }
    forall r, n | IsRoot(kind0, r) && 0 <= n < MAXPAGES
      ensures Map(mem2, r, PathOf(n)) == Map(mem0, r, PathOf(n))
    {
      assert IsRoot(kind1, r);
      assert Map(mem1, r, PathOf(n)) == Map(mem0, r, PathOf(n));
    }
  }

  /** No table is lost, and a new one is the one below entry i of p. */
  ghost predicate NewTableOnly(kind0: seq<Kind>, kind: seq<Kind>, p: int, i: int) {
    && |kind| == |kind0| && IsTable(kind0, p)
    && (forall q :: IsTable(kind0, q) ==> kind[q] == kind0[q])
    && (forall q :: IsTable(kind, q) && !IsTable(kind0, q) ==>
          kind[q] == Table(kind0[p].root, kind0[p].level - 1, p, i))
  }

  /** A level of a walk to page n. */
  lemma LevelServes(kind0: seq<Kind>, mem1: seq<Page>, kind1: seq<Kind>, kind: seq<Kind>, root: int, n: int, p: int)
    requires TablesFor(kind0, kind1, n, n + 1) && Tree(mem1, kind1, {}) && IsRoot(kind1, root)
    requires 0 <= n < MAXPAGES && IsTable(kind1, p)
    requires if kind1[p].level == 2 then p == root && NewTableOnly(kind1, kind, p, PathOf(n).i2)
      else kind1[p].level == 1 && p == Step(mem1, root, PathOf(n).i2) && NewTableOnly(kind1, kind, p, PathOf(n).i1)
    ensures TablesFor(kind0, kind, n, n + 1)
  {
    OnPath(mem1, kind1, root, PathOf(n));
    IsFor(kind1, kind, n, n + 1);
    forall q {:trigger TableFor(kind1, kind, q, n, n + 1)}
      ensures TableFor(kind1, kind, q, n, n + 1)
    {
    }
    TablesJoin(kind0, kind1, kind, n, n + 1, n, n + 1);
  }

  /** A fresh zeroed page t, linked at entry i of p. */
  lemma NewTable(mem0: seq<Page>, kind0: seq<Kind>, mem: seq<Page>, p: int, i: int, t: int)
    requires Tree(mem0, kind0, {}) && IsTable(kind0, p) && kind0[p].level > 0 && 0 <= i < ENTRIES && !mem0[p][i].v
    requires kind0[p].level == 2 ==> i < ENTRIES / 2
    requires IsPage(kind0, t) && kind0[t].Free? && mem == mem0[t := Filled(ZERO)]
    ensures var mem' := Set(mem, p, i, TableEntry(t));
      var kind' := kind0[t := Table(kind0[p].root, kind0[p].level - 1, p, i)];
      Tree(mem', kind', {}) && Grown(mem0, kind0, mem', kind', kind0[p].root)
  {
    var kind := kind0[t := Loose];
    TreeFrame(mem0, kind0, mem, kind, {});
    LinkTable(mem, kind, p, i, t);
    forall r, n | IsRoot(kind0, r) && 0 <= n < MAXPAGES
      ensures Map(Set(mem, p, i, TableEntry(t)), r, PathOf(n)) == Map(mem0, r, PathOf(n))
    {
      LeafFrame(mem0, kind0, mem, kind, r, PathOf(n));
      LinkTableKeepsLeaf(mem, kind, p, i, t, r, PathOf(n));
    }
    var table := Table(kind0[p].root, kind0[p].level - 1, p, i);
    assert kind[t := table] == kind0[t := table];
  }

  /** Pages keep their use, but free ones may become tables of root's tree and loose ones from lo to hi its data. */
  ghost predicate Uses(kind0: seq<Kind>, kind: seq<Kind>, root: int, lo: int, hi: int) {
    && |kind| == |kind0|
    && forall q :: IsPage(kind0, q) ==>
         || SameUse(kind0[q], kind[q])
         || (kind0[q].Free? && kind[q].Table? && kind[q].root == root)
         || (lo <= q < hi && kind0[q].Loose? && kind[q].Data? && kind[q].root == root)
  }

  /** What mappages does: pages lo..hi of root's space and loose pages qlo..qhi are concerned. */
  ghost predicate Mapped(mem0: seq<Page>, kind0: seq<Kind>, mem: seq<Page>, kind: seq<Kind>, root: int, lo: int,
                         hi: int, qlo: int, qhi: int) {
    Uses(kind0, kind, root, qlo, qhi) && ContentsKept(mem0, kind0, mem) && MapsKept(mem0, kind0, mem, root, lo, hi)
  }

  /** Ranges that follow one another. */
  lemma MappedJoin(mem0: seq<Page>, kind0: seq<Kind>, mem1: seq<Page>, kind1: seq<Kind>, mem2: seq<Page>,
                   kind2: seq<Kind>,
                   root: int, lo: int, mid: int, hi: int, qlo: int, qmid: int, qhi: int)
    requires Mapped(mem0, kind0, mem1, kind1, root, lo, mid, qlo, qmid)
      && Mapped(mem1, kind1, mem2, kind2, root, mid, hi, qmid, qhi)
    requires lo <= mid <= hi && qlo <= qmid <= qhi
    ensures Mapped(mem0, kind0, mem2, kind2, root, lo, hi, qlo, qhi)
  {
    forall r, n | IsRoot(kind0, r) && 0 <= n < MAXPAGES && !(r == root && lo <= n < hi)
      ensures Map(mem2, r, PathOf(n)) == Map(mem0, r, PathOf(n))
    {
      assert IsRoot(kind1, r);
      assert Map(mem1, r, PathOf(n)) == Map(mem0, r, PathOf(n));
    }
  }

  lemma GrownIsMapped(mem0: seq<Page>, kind0: seq<Kind>, mem: seq<Page>, kind: seq<Kind>, root: int, n: int, q: int)
    requires Grown(mem0, kind0, mem, kind, root)
    ensures Mapped(mem0, kind0, mem, kind, root, n, n, q, q)
  {
  }

  /** Writing the leaf entry of page n. */
  lemma MapAt(mem: seq<Page>, kind: seq<Kind>, root: int, n: int, e: Pte)
    requires Tree(mem, kind, {}) && IsRoot(kind, root) && 0 <= n < MAXPAGES
    requires Table0(mem, root, PathOf(n)) != NONE && !Map(mem, root, PathOf(n)).v
    requires IsPage(kind, e.ppn) && (kind[e.ppn].Loose? || kind[e.ppn].Other?) && e.v && Leafy(e)
    ensures var t := Table0(mem, root, PathOf(n));
      IsTable(kind, t) && kind[t].level == 0 && kind[t].root == root && !mem[t][PathOf(n).i0].v
    ensures var t, i := Table0(mem, root, PathOf(n)), PathOf(n).i0;
      && Tree(Set(mem, t, i, e), Claimed(kind, e.ppn, t, i), {})
      && Mapped(mem, kind, Set(mem, t, i, e), Claimed(kind, e.ppn, t, i), root, n, n + 1, e.ppn, e.ppn + 1)
      && Map(Set(mem, t, i, e), root, PathOf(n)) == e
  {
    var at := PathOf(n);
    var t := Table0(mem, root, at);
    OnPath(mem, kind, root, at);
    MapPage(mem, kind, t, at.i0, e);
    forall r, m | IsRoot(kind, r) && 0 <= m < MAXPAGES && !(r == root && m == n)
      ensures Map(Set(mem, t, at.i0, e), r, PathOf(m)) == Map(mem, r, PathOf(m))
    {
      PathJoin(m);
      PathJoin(n);
      LeafWrite(mem, kind, root, at, e, r, PathOf(m));
    }
    LeafWrite(mem, kind, root, at, e, root, at);
  }

  /** mappages may map it. */
  predicate Available(kind: seq<Kind>, q: int) {
    IsPage(kind, q) && (kind[q].Loose? || kind[q].Other?)
  }

  /** count pages from first on map to the physical pages from ppn on. */
  ghost predicate RangeMapped(mem: seq<Page>, root: int, first: int, count: int, ppn: int, perm: Pte) {
    forall n :: first <= n < first + count ==>
      0 <= n < MAXPAGES && Map(mem, root, PathOf(n)) == perm.(ppn := ppn + (n - first), v := true)
  }

  lemma RangeGrows(mem: seq<Page>, kind: seq<Kind>, mem': seq<Page>, root: int, first: int, a: int, ppn: int,
                   perm: Pte, next: int)
    requires RangeMapped(mem, root, first, a - first, ppn, perm) && IsRoot(kind, root) && 0 <= first <= a < MAXPAGES
    requires next == a || (next == a + 1 && Map(mem', root, PathOf(a)) == perm.(ppn := ppn + (a - first), v := true))
    requires MapsKept(mem, kind, mem', root, a, next)
    ensures RangeMapped(mem', root, first, next - first, ppn, perm)
  {
    forall n | first <= n < next
      ensures 0 <= n < MAXPAGES && Map(mem', root, PathOf(n)) == perm.(ppn := ppn + (n - first), v := true)
    {
      if n < a {
        assert Map(mem', root, PathOf(n)) == Map(mem, root, PathOf(n));
      }
    }
  }

  /** Physical page q is what some page lo..hi of root's space maps to. */
  ghost predicate MappedIn(mem: seq<Page>, root: int, lo: int, hi: int, q: int) {
    exists n :: lo <= n < hi && 0 <= n < MAXPAGES && Map(mem, root, PathOf(n)).v && Map(mem, root, PathOf(n)).ppn == q
  }

  /** Exactly the data pages that lo..hi map to change their use: free if freed, loose if not. */
  ghost predicate LetGo(mem0: seq<Page>, kind0: seq<Kind>, kind: seq<Kind>, root: int, lo: int, hi: int, freed: bool) {
    && |kind| == |kind0|
    && forall q :: IsPage(kind0, q) ==>
         if kind0[q].Data? && MappedIn(mem0, root, lo, hi, q) then (if freed then kind[q].Free? else kind[q].Loose?)
         else SameUse(kind0[q], kind[q])
  }

  /** Contents of pages that stay in use, tables aside. */
  ghost predicate InUseKept(mem0: seq<Page>, kind0: seq<Kind>, mem: seq<Page>, kind: seq<Kind>) {
    && |mem| == |mem0| == |kind0| == |kind|
    && forall q :: IsPage(kind0, q) && !kind0[q].Free? && !kind0[q].Table? && !kind[q].Free? ==> mem[q] == mem0[q]
  }

  ghost predicate RangeUnmapped(mem: seq<Page>, root: int, lo: int, hi: int) {
    forall n :: lo <= n < hi && 0 <= n < MAXPAGES ==> Map(mem, root, PathOf(n)) == ZERO
  }

  ghost predicate Dropped(mem0: seq<Page>, kind0: seq<Kind>, mem: seq<Page>, kind: seq<Kind>, root: int, lo: int,
                          hi: int, freed: bool) {
    && LetGo(mem0, kind0, kind, root, lo, hi, freed) && InUseKept(mem0, kind0, mem, kind)
    && MapsKept(mem0, kind0, mem, root, lo, hi) && RangeUnmapped(mem, root, lo, hi)
  }

  lemma DroppedTables(kind0: seq<Kind>, mem1: seq<Page>, kind1: seq<Kind>, mem: seq<Page>, kind: seq<Kind>, root: int,
                      lo: int, a: int, hi: int)
    requires Dropped(mem1, kind1, mem, kind, root, lo, a, true) && TablesFor(kind0, kind1, lo, a + 1) && lo <= a < hi
    ensures TablesFor(kind0, kind, lo, hi)
  {
    TablesStay(kind0, kind1, kind, lo, a + 1);
    TablesMore(kind0, kind, lo, a + 1, hi);
  }

  lemma DroppedJoin(mem0: seq<Page>, kind0: seq<Kind>, mem1: seq<Page>, kind1: seq<Kind>, mem2: seq<Page>,
                    kind2: seq<Kind>,
                    root: int, lo: int, a: int, freed: bool)
    requires Dropped(mem0, kind0, mem1, kind1, root, lo, a, freed)
      && Dropped(mem1, kind1, mem2, kind2, root, a, a + 1, freed)
    requires IsRoot(kind0, root) && 0 <= lo <= a < MAXPAGES
    ensures Dropped(mem0, kind0, mem2, kind2, root, lo, a + 1, freed)
  {
    RootStays(mem0, kind0, mem1, kind1, root, lo, a, freed, root);
    assert Map(mem1, root, PathOf(a)) == Map(mem0, root, PathOf(a));
    forall q | IsPage(kind0, q)
      ensures MappedIn(mem0, root, lo, a + 1, q) <==>
        MappedIn(mem0, root, lo, a, q) || MappedIn(mem1, root, a, a + 1, q)
    {
      InOneMore(mem0, mem1, root, lo, a, q);
    }
    forall r, n | IsRoot(kind0, r) && 0 <= n < MAXPAGES && !(r == root && lo <= n < a + 1)
      ensures Map(mem2, r, PathOf(n)) == Map(mem0, r, PathOf(n))
    {
      RootStays(mem0, kind0, mem1, kind1, root, lo, a, freed, r);
      assert Map(mem1, r, PathOf(n)) == Map(mem0, r, PathOf(n));
    }
    forall n | lo <= n < a && 0 <= n < MAXPAGES
      ensures Map(mem2, root, PathOf(n)) == ZERO
    {
      assert Map(mem1, root, PathOf(n)) == ZERO;
    }
  }

  lemma RootStays(mem0: seq<Page>, kind0: seq<Kind>, mem: seq<Page>, kind: seq<Kind>, root: int, lo: int, hi: int,
                  freed: bool, r: int)
    requires Dropped(mem0, kind0, mem, kind, root, lo, hi, freed) && IsRoot(kind0, r)
    ensures IsRoot(kind, r)
  {
  }

  lemma InOneMore(mem0: seq<Page>, mem1: seq<Page>, root: int, lo: int, a: int, q: int)
    requires 0 <= lo <= a < MAXPAGES && Map(mem1, root, PathOf(a)) == Map(mem0, root, PathOf(a))
    ensures MappedIn(mem0, root, lo, a + 1, q) <==> MappedIn(mem0, root, lo, a, q) || MappedIn(mem1, root, a, a + 1, q)
  {
    if MappedIn(mem0, root, lo, a + 1, q) && !MappedIn(mem0, root, lo, a, q) {
      var n :| lo <= n < a + 1 && 0 <= n < MAXPAGES && Map(mem0, root, PathOf(n)).v
        && Map(mem0, root, PathOf(n)).ppn == q;
      assert n == a;
      assert Map(mem1, root, PathOf(a)).ppn == q;
    }
    if MappedIn(mem0, root, lo, a, q) {
      var n :| lo <= n < a && 0 <= n < MAXPAGES && Map(mem0, root, PathOf(n)).v && Map(mem0, root, PathOf(n)).ppn == q;
      assert lo <= n < a + 1;
    }
    if MappedIn(mem1, root, a, a + 1, q) {
      var n :| a <= n < a + 1 && 0 <= n < MAXPAGES && Map(mem1, root, PathOf(n)).v
        && Map(mem1, root, PathOf(n)).ppn == q;
      assert Map(mem0, root, PathOf(a)).ppn == q;
    }
  }

  /** Only page q has changed: if it was data it is free, or loose with its contents. */
  ghost predicate OnePageLetGo(mem0: seq<Page>, kind0: seq<Kind>, mem: seq<Page>, kind: seq<Kind>, q: int,
                               freed: bool) {
    && |mem| == |mem0| == |kind| == |kind0| && IsPage(kind0, q)
    && (forall r :: IsPage(kind0, r) && r != q ==> mem[r] == mem0[r] && kind[r] == kind0[r])
    && (if kind0[q].Data? && freed then kind[q].Free?
        else mem[q] == mem0[q] && kind[q] == if kind0[q].Data? then Loose else kind0[q])
  }

  /** Clearing the leaf entry of page n, given that only its data page has changed hands. */
  lemma UnmapAt(mem0: seq<Page>, kind0: seq<Kind>, mem1: seq<Page>, kind1: seq<Kind>, root: int, n: int, freed: bool)
    requires Tree(mem0, kind0, {}) && IsRoot(kind0, root) && 0 <= n < MAXPAGES && Map(mem0, root, PathOf(n)).v
    requires |mem1| == |mem0| && |kind1| == |kind0| && Shape(mem1, kind1)
    requires OnePageLetGo(mem0, kind0, mem1, kind1, Map(mem0, root, PathOf(n)).ppn, freed)
    ensures var t := Table0(mem0, root, PathOf(n)); 0 <= t < |mem1| && |mem1[t]| == ENTRIES
    ensures Dropped(mem0, kind0, Set(mem1, Table0(mem0, root, PathOf(n)), PathOf(n).i0, ZERO), kind1, root, n, n + 1,
      freed)
  {
    var at := PathOf(n);
    var t, q := Table0(mem0, root, at), Map(mem0, root, at).ppn;
    OnPath(mem0, kind0, root, at);
    assert EntryOk(mem0, kind0, t, at.i0);
    var cleared := Set(mem0, t, at.i0, ZERO);
    var mem2 := Set(mem1, t, at.i0, ZERO);
    forall r, m | IsRoot(kind0, r) && 0 <= m < MAXPAGES
      ensures Map(mem2, r, PathOf(m)) == if r == root && m == n then ZERO else Map(mem0, r, PathOf(m))
    {
      PathJoin(m);
      PathJoin(n);
      LeafWrite(mem0, kind0, root, at, ZERO, r, PathOf(m));
      OnPath(mem0, kind0, r, PathOf(m));
      SameLeaf(cleared, mem2, kind0, q, r, PathOf(m));
    }
    forall r | IsPage(kind0, r)
      ensures MappedIn(mem0, root, n, n + 1, r) <==> r == q
    {
      if r == q {
        assert n <= n < n + 1 && Map(mem0, root, PathOf(n)).ppn == q;
      }
    }
  }

  /** Data pages beyond those let go stay mapped. */
  lemma StillMapped(mem0: seq<Page>, kind0: seq<Kind>, mem: seq<Page>, kind: seq<Kind>, root: int, lo: int, a: int,
                    freed: bool, n: int)
    requires Tree(mem0, kind0, {}) && IsRoot(kind0, root) && Dropped(mem0, kind0, mem, kind, root, lo, a, freed)
    requires 0 <= lo <= a <= n < MAXPAGES && Map(mem0, root, PathOf(n)).v
    ensures IsRoot(kind, root) && Map(mem, root, PathOf(n)) == Map(mem0, root, PathOf(n))
    ensures var q := Map(mem0, root, PathOf(n)).ppn; IsPage(kind0, q) && kind0[q].Data? ==> kind[q] == kind0[q]
  {
    var q := Map(mem0, root, PathOf(n)).ppn;
    if IsPage(kind0, q) && kind0[q].Data? && MappedIn(mem0, root, lo, a, q) {
      var m :| lo <= m < a && 0 <= m < MAXPAGES && Map(mem0, root, PathOf(m)).v && Map(mem0, root, PathOf(m)).ppn == q;
      DataMappedOnce(mem0, kind0, root, PathOf(m), root, PathOf(n));
      PathJoin(m);
      PathJoin(n);
    }
  }

  /** Every page of the range is mapped; to data if own is set. */
  ghost predicate RangeInUse(mem: seq<Page>, kind: seq<Kind>, root: int, lo: int, hi: int, own: bool) {
    forall n :: lo <= n < hi ==> InUse(mem, kind, root, n, own)
  }

  ghost predicate InUse(mem: seq<Page>, kind: seq<Kind>, root: int, n: int, own: bool) {
    && 0 <= n < MAXPAGES && Map(mem, root, PathOf(n)).v
    && (own ==> IsPage(kind, Map(mem, root, PathOf(n)).ppn) && kind[Map(mem, root, PathOf(n)).ppn].Data?)
  }

  lemma DroppedNothing(mem: seq<Page>, kind: seq<Kind>, root: int, lo: int, freed: bool)
    requires |mem| == |kind|
    ensures Dropped(mem, kind, mem, kind, root, lo, lo, freed)
  {
  }

  /** Memories that differ outside the tables translate alike. */
  lemma SameLeaf(mem: seq<Page>, mem': seq<Page>, kind: seq<Kind>, q: int, root: int, at: Path)
    requires |mem'| == |mem| == |kind| && IsPage(kind, q) && !IsTable(kind, q)
    requires forall r :: 0 <= r < |mem| && r != q ==> mem'[r] == mem[r]
    requires IsTable(kind, root)
    requires Step(mem, root, at.i2) != NONE ==> IsTable(kind, Step(mem, root, at.i2))
    requires Table0(mem, root, at) != NONE ==> IsTable(kind, Table0(mem, root, at))
    ensures Map(mem', root, at) == Map(mem, root, at)
  {
  }

  /** A zeroed loose page becomes the root of an empty tree. */
  lemma NewRoot(mem0: seq<Page>, kind0: seq<Kind>, mem: seq<Page>, kind: seq<Kind>, root: int)
    requires Tree(mem0, kind0, {}) && IsPage(kind0, root) && kind0[root].Loose?
    requires mem == mem0[root := Filled(ZERO)] && kind == kind0[root := Table(root, 2, NONE, 0)]
    ensures Tree(mem, kind, {})
    ensures forall n :: 0 <= n < MAXPAGES ==> Map(mem, root, PathOf(n)) == ZERO
  {
    forall r, j | IsTable(kind, r) && 0 <= j < ENTRIES
      ensures EntryOk(mem, kind, r, j)
    {
      if r != root {
        assert EntryOk(mem0, kind0, r, j);
      }
    }
    forall r | IsPage(kind, r)
      ensures LinkOk(mem, kind, r)
    {
      assert LinkOk(mem0, kind0, r);
    }
  }

  // ------------------------------------------------------------------ growing by pages taken from the free list

  /** Page n maps to a page that was free and is now its own. */
  ghost predicate Took(mem: seq<Page>, kind0: seq<Kind>, kind: seq<Kind>, root: int, n: int) {
    var e := Map(mem, root, PathOf(if 0 <= n < MAXPAGES then n else 0));
    0 <= n < MAXPAGES && e.v && IsPage(kind0, e.ppn) && IsPage(kind, e.ppn) && kind0[e.ppn].Free? && kind[e.ppn].Data?
  }

  /** Page n has e's permissions and these contents. */
  ghost predicate NewPage(mem: seq<Page>, root: int, n: int, e: Pte, page: Page) {
    var m := Map(mem, root, PathOf(if 0 <= n < MAXPAGES then n else 0));
    m == e.(ppn := m.ppn, v := true) && 0 <= m.ppn < |mem| && mem[m.ppn] == page
  }

  /** Free pages became tables of root's tree or the data of its pages lo..hi; nothing else changed. */
  ghost predicate Alloced(mem0: seq<Page>, kind0: seq<Kind>, mem: seq<Page>, kind: seq<Kind>, root: int, lo: int,
                          hi: int) {
    && |kind| == |kind0|
    && (forall q :: IsPage(kind0, q) ==>
          || SameUse(kind0[q], kind[q])
          || (kind0[q].Free? && kind[q].Table? && kind[q].root == root)
          || (kind0[q].Free? && kind[q].Data? && kind[q].root == root && MappedIn(mem, root, lo, hi, q)))
    && ContentsKept(mem0, kind0, mem) && MapsKept(mem0, kind0, mem, root, lo, hi)
    && (forall n :: lo <= n < hi ==> Took(mem, kind0, kind, root, n))
  }

  lemma AllocedNothing(mem: seq<Page>, kind: seq<Kind>, root: int, lo: int)
    requires |mem| == |kind|
    ensures Alloced(mem, kind, mem, kind, root, lo, lo)
  {
  }

  lemma AllocedJoin(mem0: seq<Page>, kind0: seq<Kind>, mem1: seq<Page>, kind1: seq<Kind>, mem2: seq<Page>,
                    kind2: seq<Kind>,
                    root: int, lo: int, a: int, b: int)
    requires Alloced(mem0, kind0, mem1, kind1, root, lo, a) && Alloced(mem1, kind1, mem2, kind2, root, a, b)
    requires IsRoot(kind0, root) && 0 <= lo <= a <= b <= MAXPAGES
    ensures Alloced(mem0, kind0, mem2, kind2, root, lo, b) && IsRoot(kind2, root)
  {
    assert IsRoot(kind1, root);
    forall r, n | IsRoot(kind0, r) && 0 <= n < MAXPAGES && !(r == root && lo <= n < b)
      ensures Map(mem2, r, PathOf(n)) == Map(mem0, r, PathOf(n))
    {
      assert IsRoot(kind1, r);
      assert Map(mem1, r, PathOf(n)) == Map(mem0, r, PathOf(n));
    }
    forall n | lo <= n < b
      ensures Took(mem2, kind0, kind2, root, n)
    {
      if n < a {
        assert Took(mem1, kind0, kind1, root, n);
        assert Map(mem2, root, PathOf(n)) == Map(mem1, root, PathOf(n));
      } else {
        assert Took(mem2, kind1, kind2, root, n);
      }
    }
    forall q | IsPage(kind0, q) && (MappedIn(mem1, root, lo, a, q) || MappedIn(mem2, root, a, b, q))
      ensures MappedIn(mem2, root, lo, b, q)
    {
      StaysMapped(mem1, kind1, mem2, root, lo, a, b, q);
    }
  }

  lemma StaysMapped(mem1: seq<Page>, kind1: seq<Kind>, mem2: seq<Page>, root: int, lo: int, a: int, b: int, q: int)
    requires IsRoot(kind1, root) && MapsKept(mem1, kind1, mem2, root, a, b) && 0 <= lo <= a <= b
    requires MappedIn(mem1, root, lo, a, q) || MappedIn(mem2, root, a, b, q)
    ensures MappedIn(mem2, root, lo, b, q)
  {
    if MappedIn(mem1, root, lo, a, q) {
      var n :| lo <= n < a && 0 <= n < MAXPAGES && Map(mem1, root, PathOf(n)).v && Map(mem1, root, PathOf(n)).ppn == q;
      assert Map(mem2, root, PathOf(n)) == Map(mem1, root, PathOf(n));
    }
  }

  lemma NewPageStays(mem1: seq<Page>, kind0: seq<Kind>, kind1: seq<Kind>, mem2: seq<Page>, root: int, n: int, a: int,
                     b: int, e: Pte, page: Page)
    requires NewPage(mem1, root, n, e, page) && Took(mem1, kind0, kind1, root, n) && IsRoot(kind1, root)
    requires ContentsKept(mem1, kind1, mem2) && MapsKept(mem1, kind1, mem2, root, a, b) && n < a
    ensures NewPage(mem2, root, n, e, page)
  {
    assert Map(mem2, root, PathOf(n)) == Map(mem1, root, PathOf(n));
  }

  /** A mapped page is the address space's own data or none of kalloc's. */
  lemma MappedIsOwn(mem: seq<Page>, kind: seq<Kind>, root: int, n: int)
    requires Tree(mem, kind, {}) && IsRoot(kind, root) && 0 <= n < MAXPAGES && Map(mem, root, PathOf(n)).v
    ensures var e := Map(mem, root, PathOf(n));
      Leafy(e) && IsPage(kind, e.ppn) && (kind[e.ppn].Other? || (kind[e.ppn].Data? && kind[e.ppn].root == root))
  {
    OnPath(mem, kind, root, PathOf(n));
    assert EntryOk(mem, kind, Table0(mem, root, PathOf(n)), PathOf(n).i0);
  }

  /** Filling a page just taken changes no translation. */
  lemma FillKeeps(mem0: seq<Page>, kind0: seq<Kind>, q: int, page: Page, root: int, n: int)
    requires Tree(mem0, kind0, {}) && IsPage(kind0, q) && kind0[q].Free? && |page| == ENTRIES
    ensures Tree(mem0[q := page], kind0[q := Loose], {}) && MapsKept(mem0, kind0, mem0[q := page], root, n, n)
  {
    var mem, kind := mem0[q := page], kind0[q := Loose];
    TreeFrame(mem0, kind0, mem, kind, {});
    forall r, m | IsRoot(kind0, r) && 0 <= m < MAXPAGES
      ensures Map(mem, r, PathOf(m)) == Map(mem0, r, PathOf(m))
    {
      LeafFrame(mem0, kind0, mem, kind, r, PathOf(m));
    }
  }

  /** A page taken, filled and mapped. */
  lemma AddedPage(mem0: seq<Page>, kind0: seq<Kind>, mem: seq<Page>, kind: seq<Kind>, root: int, n: int, q: int,
                  page: Page, e: Pte)
    requires Tree(mem0, kind0, {}) && Tree(mem, kind, {}) && IsRoot(kind0, root) && 0 <= n < MAXPAGES
    requires IsPage(kind0, q) && kind0[q].Free? && |page| == ENTRIES
    requires Mapped(mem0[q := page], kind0[q := Loose], mem, kind, root, n, n + 1, q, q + 1)
    requires Map(mem, root, PathOf(n)) == e.(ppn := q, v := true)
    ensures Alloced(mem0, kind0, mem, kind, root, n, n + 1) && NewPage(mem, root, n, e, page) && IsRoot(kind, root)
  {
    assert IsRoot(kind0[q := Loose], root) && IsRoot(kind, root);
    assert MapsKept(mem0, kind0, mem, root, n, n + 1) by {
      FillKeeps(mem0, kind0, q, page, root, n);
      MapsJoin(mem0, kind0, mem0[q := page], kind0[q := Loose], mem, root, n, n + 1);
    }
    MappedIsOwn(mem, kind, root, n);
    assert MappedIn(mem, root, n, n + 1, q);
  }

  lemma MapsJoin(mem0: seq<Page>, kind0: seq<Kind>, mem1: seq<Page>, kind1: seq<Kind>, mem2: seq<Page>, root: int,
                 lo: int, hi: int)
    requires MapsKept(mem0, kind0, mem1, root, lo, lo) && MapsKept(mem1, kind1, mem2, root, lo, hi)
    requires forall r :: IsRoot(kind0, r) ==> IsRoot(kind1, r)
    ensures MapsKept(mem0, kind0, mem2, root, lo, hi)
  {
    forall r, n | IsRoot(kind0, r) && 0 <= n < MAXPAGES && !(r == root && lo <= n < hi)
      ensures Map(mem2, r, PathOf(n)) == Map(mem0, r, PathOf(n))
    {
      assert Map(mem1, r, PathOf(n)) == Map(mem0, r, PathOf(n));
    }
  }

  /** A page taken and given back because no table page was left. */
  lemma AddFailed(mem0: seq<Page>, kind0: seq<Kind>, mem1: seq<Page>, kind1: seq<Kind>, mem: seq<Page>, kind: seq<Kind>,
                  root: int, n: int, q: int, page: Page)
    requires Tree(mem0, kind0, {}) && Tree(mem1, kind1, {}) && IsRoot(kind0, root) && 0 <= n < MAXPAGES
    requires IsPage(kind0, q) && kind0[q].Free? && |page| == ENTRIES
    requires Mapped(mem0[q := page], kind0[q := Loose], mem1, kind1, root, n, n, q, q)
    requires |mem| == |mem1| == |kind| == |kind1| && kind[q].Free? && Shape(mem, kind)
    requires forall r :: IsPage(kind1, r) && r != q ==> mem[r] == mem1[r] && kind[r] == kind1[r]
    ensures Alloced(mem0, kind0, mem, kind, root, n, n) && IsRoot(kind, root)
  {
    FillKeeps(mem0, kind0, q, page, root, n);
    MapsJoin(mem0, kind0, mem0[q := page], kind0[q := Loose], mem1, root, n, n);
    forall r, m | IsRoot(kind0, r) && 0 <= m < MAXPAGES
      ensures Map(mem, r, PathOf(m)) == Map(mem0, r, PathOf(m))
    {
      assert IsRoot(kind1, r);
      LeafFrame(mem1, kind1, mem, kind, r, PathOf(m));
      assert Map(mem1, r, PathOf(m)) == Map(mem0, r, PathOf(m));
    }
  }

  /** The pages from lo to a are as wanted. */
  ghost predicate AllNew(mem: seq<Page>, root: int, lo: int, a: int, flags: seq<Pte>, pages: seq<Page>) {
    && a - lo <= |flags| && a - lo <= |pages|
    && forall n :: lo <= n < a ==> AsWanted(mem, root, lo, n, flags, pages)
  }

  ghost predicate AsWanted(mem: seq<Page>, root: int, lo: int, n: int, flags: seq<Pte>, pages: seq<Page>) {
    lo <= n && n - lo < |flags| && n - lo < |pages| && NewPage(mem, root, n, flags[n - lo], pages[n - lo])
  }

  lemma AllNewJoin(mem1: seq<Page>, kind0: seq<Kind>, kind1: seq<Kind>, mem2: seq<Page>, root: int, lo: int, a: int,
                   flags: seq<Pte>, pages: seq<Page>)
    requires AllNew(mem1, root, lo, a, flags, pages) && lo <= a && a - lo < |flags| && a - lo < |pages|
      && IsRoot(kind1, root)
    requires forall n :: lo <= n < a ==> Took(mem1, kind0, kind1, root, n)
    requires ContentsKept(mem1, kind1, mem2) && MapsKept(mem1, kind1, mem2, root, a, a + 1)
    requires NewPage(mem2, root, a, flags[a - lo], pages[a - lo])
    ensures AllNew(mem2, root, lo, a + 1, flags, pages)
  {
    forall n | lo <= n < a + 1
      ensures AsWanted(mem2, root, lo, n, flags, pages)
    {
      if n < a {
        assert AsWanted(mem1, root, lo, n, flags, pages) && Took(mem1, kind0, kind1, root, n);
        NewPageStays(mem1, kind0, kind1, mem2, root, n, a, a + 1, flags[n - lo], pages[n - lo]);
      }
    }
  }

  /** Unmapping and freeing what was just allocated undoes it, but for empty tables. */
  lemma RolledBack(mem0: seq<Page>, kind0: seq<Kind>, mem1: seq<Page>, kind1: seq<Kind>, mem2: seq<Page>,
                   kind2: seq<Kind>, root: int, lo: int, a: int)
    requires Alloced(mem0, kind0, mem1, kind1, root, lo, a) && Dropped(mem1, kind1, mem2, kind2, root, lo, a, true)
    requires IsRoot(kind0, root) && 0 <= lo <= a <= MAXPAGES && RangeUnmapped(mem0, root, lo, a)
    ensures Alloced(mem0, kind0, mem2, kind2, root, lo, lo)
  {
    forall q | IsPage(kind0, q) && MappedIn(mem1, root, lo, a, q)
      ensures kind0[q].Free?
    {
      var n :| lo <= n < a && 0 <= n < MAXPAGES && Map(mem1, root, PathOf(n)).v && Map(mem1, root, PathOf(n)).ppn == q;
      assert Took(mem1, kind0, kind1, root, n);
    }
    forall r, n | IsRoot(kind0, r) && 0 <= n < MAXPAGES
      ensures Map(mem2, r, PathOf(n)) == Map(mem0, r, PathOf(n))
    {
      assert IsRoot(kind1, r);
      if !(r == root && lo <= n < a) {
        assert Map(mem1, r, PathOf(n)) == Map(mem0, r, PathOf(n));
      }
    }
  }

  lemma TookIsInUse(mem: seq<Page>, kind0: seq<Kind>, kind: seq<Kind>, root: int, lo: int, a: int)
    requires forall n :: lo <= n < a ==> Took(mem, kind0, kind, root, n)
    ensures RangeInUse(mem, kind, root, lo, a, true)
  {
    forall n | lo <= n < a
      ensures InUse(mem, kind, root, n, true)
    {
      assert Took(mem, kind0, kind, root, n);
    }
  }

  /** The permissions and contents of the first count pages of an address space. */
  ghost function FlagsOf(mem: seq<Page>, root: int, count: int): (r: seq<Pte>)
    requires 0 <= count <= MAXPAGES
    ensures |r| == count && forall n :: 0 <= n < count ==> r[n] == Map(mem, root, PathOf(n))
  {
    seq(count, n requires 0 <= n < count => Map(mem, root, PathOf(n)))
  }

  ghost function PagesOf(mem: seq<Page>, root: int, count: int): (r: seq<Page>)
    requires 0 <= count <= MAXPAGES
    ensures |r| == count && forall n :: 0 <= n < count ==> r[n] == PageAt(mem, root, n)
  {
    seq(count, n requires 0 <= n < count => PageAt(mem, root, n))
  }

  /** What a virtual page holds. */
  ghost function PageAt(mem: seq<Page>, root: int, n: int): Page
    requires 0 <= n < MAXPAGES
  {
    var q := Map(mem, root, PathOf(n)).ppn;
    if 0 <= q < |mem| then mem[q] else Filled(ZERO)
  }

  /** What is read of the parent stays while the child grows. */
  lemma ParentStays(mem0: seq<Page>, kind0: seq<Kind>, mem: seq<Page>, kind: seq<Kind>, old_: int, root: int, lo: int,
                    a: int, n: int)
    requires Tree(mem0, kind0, {}) && IsRoot(kind0, old_) && old_ != root && 0 <= n < MAXPAGES
    requires Alloced(mem0, kind0, mem, kind, root, lo, a) && Map(mem0, old_, PathOf(n)).v
    ensures Map(mem, old_, PathOf(n)) == Map(mem0, old_, PathOf(n)) && IsRoot(kind, old_)
    ensures Leafy(Map(mem0, old_, PathOf(n))) && 0 <= Map(mem0, old_, PathOf(n)).ppn < |mem|
    ensures mem[Map(mem0, old_, PathOf(n)).ppn] == PageAt(mem0, old_, n)
  {
    MappedIsOwn(mem0, kind0, old_, n);
  }

  /** PGROUNDUP(size) / PGSIZE. */
  function Pages(size: int): int {
    (size + PGSIZE - 1) / PGSIZE
  }

  /** Pages(size) pages hold size bytes, and one page less does not. */
  lemma PagesAreEnough(size: int)
    requires 0 <= size
    ensures (Pages(size) - 1) * PGSIZE < size <= Pages(size) * PGSIZE
  {
  }

  /** freewalk on p has come to entry i: earlier entries are gone, with tables below p and nothing else. */
  ghost predicate Emptied(mem0: seq<Page>, kind0: seq<Kind>, mem: seq<Page>, kind: seq<Kind>, p: int, i: int) {
    && |mem| == |mem0| == |kind| == |kind0| && IsTable(kind0, p) && kind[p] == kind0[p]
       && |mem[p]| == |mem0[p]| == ENTRIES
    && (forall j :: 0 <= j < i && j < ENTRIES ==> !mem[p][j].v)
    && (forall j :: i <= j < ENTRIES && 0 <= j ==> mem[p][j] == mem0[p][j])
    && (forall q :: IsPage(kind, q) ==> SameUse(kind0[q], kind[q]) || (q != p && Under(kind0, q, p) && kind[q].Free?))
    && (forall q :: IsPage(kind, q) && q != p && !kind[q].Free? ==> mem[q] == mem0[q])
  }

  /** Freeing the child at entry i, then clearing the entry. */
  lemma EmptiedChild(mem0: seq<Page>, kind0: seq<Kind>, mem1: seq<Page>, kind1: seq<Kind>, mem: seq<Page>,
                     kind: seq<Kind>, p: int, i: int, child: int)
    requires Emptied(mem0, kind0, mem1, kind1, p, i) && 0 <= i < ENTRIES && IsTable(kind1, child)
      && kind1[child].parent == p
    requires kind1[child].level < kind1[p].level <= 2 && Shape(mem1, kind1) && LinkOk(mem1, kind1, child)
    requires forall q :: IsPage(kind1, q) ==> LinkOk(mem1, kind1, q)
    requires |mem| == |kind| == |kind1| && Shape(mem, kind)
    requires forall q :: IsPage(kind, q) ==> if Under(kind1, q, child) then kind[q].Free?
      else SameUse(kind1[q], kind[q])
    requires forall q :: IsPage(kind, q) && !kind[q].Free? ==> mem[q] == mem1[q]
    ensures kind[p] == kind0[p] && IsTable(kind, p)
    ensures Emptied(mem0, kind0, Set(mem, p, i, ZERO), kind, p, i + 1)
  {
    assert LinkOk(mem1, kind1, p);
    assert !Under(kind1, p, child);
    forall q | IsPage(kind1, q) && Under(kind1, q, child)
      ensures q != p && Under(kind0, q, p)
    {
      assert LinkOk(mem1, kind1, q);
    }
  }

  /** With nothing mapped, no level-0 table has an entry. */
  lemma BareWhenUnmapped(mem: seq<Page>, kind: seq<Kind>, root: int)
    requires Tree(mem, kind, {}) && IsRoot(kind, root) && RangeUnmapped(mem, root, 0, MAXPAGES)
    ensures Bare(mem, kind, root)
  {
    forall t, i | IsTable(kind, t) && kind[t].level == 0 && kind[t].root == root && 0 <= i < ENTRIES
      ensures !mem[t][i].v
    {
      if mem[t][i].v {
        var _ := SlotIsMapped(mem, kind, t, i);
      }
    }
  }

  /** After unmapping all of an address space, exactly its data pages are free. */
  lemma AllDataGone(mem0: seq<Page>, kind0: seq<Kind>, mem: seq<Page>, kind: seq<Kind>, root: int, hi: int, q: int)
    requires Tree(mem0, kind0, {}) && IsRoot(kind0, root) && 0 <= hi <= MAXPAGES
      && RangeUnmapped(mem0, root, hi, MAXPAGES)
    requires LetGo(mem0, kind0, kind, root, 0, hi, true) && IsPage(kind0, q)
    ensures if kind0[q].Data? && kind0[q].root == root then kind[q].Free? else SameUse(kind0[q], kind[q])
  {
    if kind0[q].Data? {
      if kind0[q].root == root {
        var n := DataIsMapped(mem0, kind0, q);
        assert n < hi;
        assert MappedIn(mem0, root, 0, hi, q);
      } else if MappedIn(mem0, root, 0, hi, q) {
        var n :| 0 <= n < hi && 0 <= n < MAXPAGES && Map(mem0, root, PathOf(n)).v
          && Map(mem0, root, PathOf(n)).ppn == q;
        MappedIsOwn(mem0, kind0, root, n);
      }
    }
  }

  /** Exactly the pages of root's address space are free now. */
  ghost predicate SpaceFreed(kind0: seq<Kind>, kind: seq<Kind>, root: int) {
    && |kind| == |kind0|
    && forall q :: IsPage(kind0, q) ==>
         if (kind0[q].Data? || kind0[q].Table?) && kind0[q].root == root then kind[q].Free?
           else SameUse(kind0[q], kind[q])
  }

  ghost predicate OthersStand(mem0: seq<Page>, kind0: seq<Kind>, mem: seq<Page>, kind: seq<Kind>, root: int) {
    forall r, n :: IsRoot(kind0, r) && r != root && 0 <= n < MAXPAGES ==> Stands(mem0, mem, kind, r, n)
  }

  /** r is still a root and translates page n as it did. */
  predicate Stands(mem0: seq<Page>, mem: seq<Page>, kind: seq<Kind>, r: int, n: int)
    requires 0 <= n < MAXPAGES
  {
    IsRoot(kind, r) && Map(mem, r, PathOf(n)) == Map(mem0, r, PathOf(n))
  }

  /** The tables under root are free, and nothing else has changed. */
  ghost predicate TreeGone(mem0: seq<Page>, kind0: seq<Kind>, mem: seq<Page>, kind: seq<Kind>, root: int) {
    && |mem| == |mem0| == |kind| == |kind0|
    && (forall q :: IsPage(kind, q) ==> if Under(kind0, q, root) then kind[q].Free? else SameUse(kind0[q], kind[q]))
    && (forall q :: IsPage(kind, q) && !kind[q].Free? ==> mem[q] == mem0[q])
  }

  lemma StaysUnmapped(mem0: seq<Page>, kind0: seq<Kind>, mem: seq<Page>, root: int, hi: int)
    requires IsRoot(kind0, root) && RangeUnmapped(mem0, root, hi, MAXPAGES) && RangeUnmapped(mem, root, 0, hi)
    requires MapsKept(mem0, kind0, mem, root, 0, hi)
    ensures RangeUnmapped(mem, root, 0, MAXPAGES)
  {
    forall n | 0 <= n < MAXPAGES
      ensures Map(mem, root, PathOf(n)) == ZERO
    {
      if n >= hi {
        assert Map(mem, root, PathOf(n)) == Map(mem0, root, PathOf(n));
      }
    }
  }

  /** Taking one tree down leaves the translations of the others. */
  lemma OtherTrees(mem0: seq<Page>, kind0: seq<Kind>, mem: seq<Page>, kind: seq<Kind>, root: int, r: int, at: Path)
    requires Tree(mem0, kind0, {}) && IsRoot(kind0, root) && IsRoot(kind0, r) && r != root && PathOk(at)
    requires TreeGone(mem0, kind0, mem, kind, root)
    ensures Map(mem, r, at) == Map(mem0, r, at) && IsRoot(kind, r)
  {
    OnPath(mem0, kind0, r, at);
    UnderRoot(mem0, kind0, root, r);
    if Step(mem0, r, at.i2) != NONE {
      UnderRoot(mem0, kind0, root, Step(mem0, r, at.i2));
    }
    if Table0(mem0, r, at) != NONE {
      UnderRoot(mem0, kind0, root, Table0(mem0, r, at));
    }
  }

  lemma PageTakenDown(mem0: seq<Page>, kind0: seq<Kind>, mem1: seq<Page>, kind1: seq<Kind>, mem: seq<Page>,
                      kind: seq<Kind>,
                      root: int, hi: int, q: int)
    requires Tree(mem0, kind0, {}) && Tree(mem1, kind1, {}) && IsRoot(kind0, root) && 0 <= hi <= MAXPAGES
    requires RangeUnmapped(mem0, root, hi, MAXPAGES) && Dropped(mem0, kind0, mem1, kind1, root, 0, hi, true)
    requires IsRoot(kind1, root) && TreeGone(mem1, kind1, mem, kind, root) && IsPage(kind0, q)
    ensures if (kind0[q].Data? || kind0[q].Table?) && kind0[q].root == root then kind[q].Free?
            else SameUse(kind0[q], kind[q])
  {
    AllDataGone(mem0, kind0, mem1, kind1, root, hi, q);
    UnderRoot(mem1, kind1, root, q);
  }

  lemma OtherStands(mem0: seq<Page>, kind0: seq<Kind>, mem1: seq<Page>, kind1: seq<Kind>, mem: seq<Page>,
                    kind: seq<Kind>,
                    root: int, hi: int, r: int, n: int)
    requires Tree(mem1, kind1, {}) && IsRoot(kind1, root) && IsRoot(kind0, r) && r != root && 0 <= n < MAXPAGES
    requires Dropped(mem0, kind0, mem1, kind1, root, 0, hi, true) && TreeGone(mem1, kind1, mem, kind, root)
    ensures Stands(mem0, mem, kind, r, n)
  {
    RootStays(mem0, kind0, mem1, kind1, root, 0, hi, true, r);
    OtherTrees(mem1, kind1, mem, kind, root, r, PathOf(n));
    assert Map(mem1, r, PathOf(n)) == Map(mem0, r, PathOf(n));
  }

  lemma TakenDown(mem0: seq<Page>, kind0: seq<Kind>, mem1: seq<Page>, kind1: seq<Kind>, mem: seq<Page>,
                  kind: seq<Kind>, root: int, hi: int)
    requires Tree(mem0, kind0, {}) && Tree(mem1, kind1, {}) && IsRoot(kind0, root) && 0 <= hi <= MAXPAGES
    requires RangeUnmapped(mem0, root, hi, MAXPAGES) && Dropped(mem0, kind0, mem1, kind1, root, 0, hi, true)
    requires TreeGone(mem1, kind1, mem, kind, root)
    ensures SpaceFreed(kind0, kind, root) && OthersStand(mem0, kind0, mem, kind, root)
    ensures InUseKept(mem0, kind0, mem, kind)
  {
    RootStays(mem0, kind0, mem1, kind1, root, 0, hi, true, root);
    assert SpaceFreed(kind0, kind, root) by {
      forall q | IsPage(kind0, q)
        ensures if (kind0[q].Data? || kind0[q].Table?) && kind0[q].root == root then kind[q].Free?
                else SameUse(kind0[q], kind[q])
      {
        PageTakenDown(mem0, kind0, mem1, kind1, mem, kind, root, hi, q);
      }
    }
    forall r, n | IsRoot(kind0, r) && r != root && 0 <= n < MAXPAGES
      ensures Stands(mem0, mem, kind, r, n)
    {
      OtherStands(mem0, kind0, mem1, kind1, mem, kind, root, hi, r, n);
    }
  }

  lemma Copied(mem0: seq<Page>, mem: seq<Page>, parent: int, root: int, hi: int, flags: seq<Pte>, pages: seq<Page>)
    requires 0 <= hi <= MAXPAGES && AllNew(mem, root, 0, hi, flags, pages)
    requires flags == FlagsOf(mem0, parent, hi) && pages == PagesOf(mem0, parent, hi)
    ensures forall n :: 0 <= n < hi ==> NewPage(mem, root, n, Map(mem0, parent, PathOf(n)), PageAt(mem0, parent, n))
  {
    forall n | 0 <= n < hi
      ensures NewPage(mem, root, n, Map(mem0, parent, PathOf(n)), PageAt(mem0, parent, n))
    {
      assert AsWanted(mem, root, 0, n, flags, pages);
    }
  }

  /** Page n of root's space is no longer one for the user. No other translation changes, nor what any page holds. */
  ghost predicate Cleared(mem0: seq<Page>, kind: seq<Kind>, mem: seq<Page>, root: int, n: int) {
    && |mem| == |mem0| == |kind|
    && (forall q :: IsPage(kind, q) && !kind[q].Table? ==> mem[q] == mem0[q])
    && forall r, m :: IsRoot(kind, r) && 0 <= m < MAXPAGES ==>
         Map(mem, r, PathOf(m)) ==
           if r == root && m == n then Map(mem0, r, PathOf(m)).(u := false) else Map(mem0, r, PathOf(m))
  }

  /** Clearing PTE_U of the leaf entry of page n. */
  lemma ClearAt(mem: seq<Page>, kind: seq<Kind>, root: int, n: int)
    requires Tree(mem, kind, {}) && IsRoot(kind, root) && 0 <= n < MAXPAGES && Table0(mem, root, PathOf(n)) != NONE
    ensures var t, i := Table0(mem, root, PathOf(n)), PathOf(n).i0;
      && IsTable(kind, t) && |mem[t]| == ENTRIES
      && Tree(Set(mem, t, i, mem[t][i].(u := false)), kind, {})
      && Cleared(mem, kind, Set(mem, t, i, mem[t][i].(u := false)), root, n)
  {
    var at := PathOf(n);
    var t := Table0(mem, root, at);
    OnPath(mem, kind, root, at);
    var e := mem[t][at.i0].(u := false);
    EntryFlags(mem, kind, t, at.i0, e);
    forall r, m | IsRoot(kind, r) && 0 <= m < MAXPAGES
      ensures Map(Set(mem, t, at.i0, e), r, PathOf(m)) ==
        if r == root && m == n then Map(mem, r, PathOf(m)).(u := false) else Map(mem, r, PathOf(m))
    {
      PathJoin(m);
      PathJoin(n);
      LeafWrite(mem, kind, root, at, e, r, PathOf(m));
    }
  }

  /** A page as kfree leaves it: junk, and in its first word the page below it on the list. */
  predicate IsFreePage(page: Page, below: int) {
    page == Filled(JUNK1)[0 := Run(below)]
  }

  class Machine {
    var mem: seq<Page>
    var head: int
    ghost var kind: seq<Kind>
    ghost var free: seq<int>

    ghost predicate ValidBut(ex: set<(int, int)>)
      reads this
    {
      Tree(mem, kind, ex) && FreeOk(mem, kind, head, free)
    }

    ghost predicate Valid()
      reads this
    {
      ValidBut({})
    }

    // ---------------------------------------------------------------- kalloc.c

    /** kinit: all pages from first on are free, whatever memory holds. */
    constructor (first: int, contents: seq<Page>)
      requires 1 <= first <= |contents| && forall q :: 0 <= q < |contents| ==> |contents[q]| == ENTRIES
      ensures Valid() && |kind| == |contents|
      ensures forall q :: IsPage(kind, q) ==> if q < first then kind[q].Other? else kind[q].Free?
    {
      mem, head := contents, NONE;
      kind, free := seq(|contents|, q => if q < first then Other else Loose), [];
      new;
      FreeRange(first, |contents|);
    }

    /** kalloc: the top of the free list, NONE when there is none. */
    method Kalloc(ghost ex: set<(int, int)>) returns (q: int)
      requires ValidBut(ex)
      modifies this
      ensures ValidBut(ex)
      ensures q == NONE <==> old(free) == []
      ensures q == NONE ==> mem == old(mem) && kind == old(kind) && free == old(free)
      ensures q != NONE ==> IsPage(old(kind), q) && old(kind)[q].Free? && 0 < q
      ensures q != NONE ==> mem == old(mem)[q := Filled(JUNK5)] && kind == old(kind)[q := Loose]
      ensures q != NONE ==> free == old(free)[..|old(free)| - 1]
    {
      q := head;
      if q != NONE {
        Popped(mem, kind, head, free, Filled(JUNK5));
        head := NextOf(mem[q][0]);
        mem := mem[q := Filled(JUNK5)];
        kind, free := kind[q := Loose], free[..|free| - 1];
        TreeFrame(old(mem), old(kind), mem, kind, ex);
      }
    }

    /** kfree; its panic on a page outside its range is its precondition. */
    method Kfree(q: int, ghost ex: set<(int, int)>)
      requires ValidBut(ex) && IsPage(kind, q) && kind[q].Loose?
      modifies this
      ensures ValidBut(ex)
      ensures |mem| == |old(mem)| && forall r :: 0 <= r < |mem| && r != q ==> mem[r] == old(mem)[r]
      ensures kind == old(kind)[q := Free(|old(free)|)] && free == old(free) + [q]
      ensures IsFreePage(mem[q], old(head))
    {
      var page := Filled(JUNK1)[0 := Run(head)];
      Pushed(mem, kind, head, free, q, page);
      mem := mem[q := page];
      head := q;
      kind, free := kind[q := Free(|free|)], free + [q];
      TreeFrame(old(mem), old(kind), mem, kind, ex);
    }

    /** freerange, by page numbers. */
    method FreeRange(lo: int, hi: int)
      requires Valid() && 0 <= lo <= hi <= |mem|
      requires forall q :: lo <= q < hi ==> kind[q].Loose?
      modifies this
      ensures Valid() && |kind| == |old(kind)|
      ensures forall q :: IsPage(kind, q) ==> if lo <= q < hi then kind[q].Free? else kind[q] == old(kind)[q]
      ensures free == old(free) + seq(hi - lo, k => lo + k)
    {
      var p := lo;
      while p < hi
        invariant lo <= p <= hi && Valid() && |kind| == |old(kind)| == |mem|
        invariant forall q :: IsPage(kind, q) ==> if lo <= q < p then kind[q].Free? else kind[q] == old(kind)[q]
        invariant free == old(free) + seq(p - lo, k => lo + k)
      {
        Kfree(p, {});
        p := p + 1;
      }
    }

    // ---------------------------------------------------------------- walk

    /** One level of walk: the table below entry i of p, a new one if there is none and alloc is set. */
    method Descend(p: int, i: int, alloc: bool) returns (t: int)
      requires Valid() && IsTable(kind, p) && kind[p].level > 0 && 0 <= i < ENTRIES
        && (kind[p].level == 2 ==> i < ENTRIES / 2)
      modifies this
      ensures Valid() && Grown(old(mem), old(kind), mem, kind, old(kind)[p].root)
      ensures t != NONE ==> t == Step(mem, p, i) && IsTable(kind, t) && kind[t].level == old(kind)[p].level - 1
      ensures t != NONE ==> kind[t].root == old(kind)[p].root
      ensures t == NONE ==> Step(mem, p, i) == NONE && (alloc ==> free == [])
      ensures t == NONE || !alloc ==> mem == old(mem) && kind == old(kind) && free == old(free) && head == old(head)
      ensures |free| >= |old(free)| - 1
      ensures NewTableOnly(old(kind), kind, p, i)
    {
      if mem[p][i].v {
        assert EntryOk(mem, kind, p, i);
        return mem[p][i].ppn;
      }
      if !alloc {
        return NONE;
      }
      t := Kalloc({});
      if t == NONE {
        return;
      }
      LinkNew(p, i, t, old(mem), old(kind));
    }

    /** The end of Descend: clear the new page and link it. */
    method LinkNew(p: int, i: int, t: int, ghost mem0: seq<Page>, ghost kind0: seq<Kind>)
      requires Valid() && Tree(mem0, kind0, {}) && IsTable(kind0, p) && kind0[p].level > 0 && 0 <= i < ENTRIES
        && !mem0[p][i].v
      requires kind0[p].level == 2 ==> i < ENTRIES / 2
      requires IsPage(kind0, t) && kind0[t].Free? && mem == mem0[t := Filled(JUNK5)] && kind == kind0[t := Loose]
      modifies this`mem, this`kind
      ensures Valid() && Grown(mem0, kind0, mem, kind, kind0[p].root)
      ensures t == Step(mem, p, i) && kind == kind0[t := Table(kind0[p].root, kind0[p].level - 1, p, i)]
    {
      ghost var zeroed := mem0[t := Filled(ZERO)];
      mem := mem[t := Filled(ZERO)];
      assert mem == zeroed;
      NewTable(mem0, kind0, zeroed, p, i, t);
      mem := Set(mem, p, i, TableEntry(t));
      kind := kind0[t := Table(kind0[p].root, kind0[p].level - 1, p, i)];
      SetAt(zeroed, p, i, TableEntry(t), p, i);
      FreeFrame(old(mem), old(kind), head, free, mem, kind);
    }

    /**
     walk: the place of the level-0 entry of virtual page n. It exists, without allocation, unless
     a table on the way is missing; with allocation, unless memory runs out.
     */
    method Walk(root: int, n: int, alloc: bool) returns (p: int, i: int)
      requires Valid() && IsRoot(kind, root) && 0 <= n < MAXPAGES
      modifies this
      ensures Valid() && Grown(old(mem), old(kind), mem, kind, root)
      ensures p == Table0(mem, root, PathOf(n)) && i == PathOf(n).i0
      ensures p == NONE && alloc ==> free == [] && |old(free)| <= 1
      ensures |free| >= |old(free)| - 2 && TablesFor(old(kind), kind, n, n + 1)
      ensures !alloc ==> mem == old(mem) && kind == old(kind) && free == old(free) && head == old(head)
    {
      var at := PathOf(n);
      p, i := root, at.i0;
      SameTablesFor(kind, kind, n, n + 1);
      var level := 2;
      while level > 0
        invariant 0 <= level <= 2 && Valid() && Grown(old(mem), old(kind), mem, kind, root)
        invariant IsTable(kind, p) && kind[p].level == level && kind[p].root == root && IsRoot(kind, root)
        invariant p == if level == 2 then root else if level == 1 then Step(mem, root, at.i2) else Table0(mem, root, at)
        invariant !alloc ==> mem == old(mem) && kind == old(kind) && free == old(free) && head == old(head)
        invariant |free| >= |old(free)| - (2 - level) && TablesFor(old(kind), kind, n, n + 1)
      {
        ghost var mem1, kind1 := mem, kind;
        var t := Descend(p, if level == 2 then at.i2 else at.i1, alloc);
        GrownJoin(old(mem), old(kind), mem1, kind1, mem, kind, root);
        LevelServes(old(kind), mem1, kind1, kind, root, n, p);
        assert level == 1 ==> At(mem1, root, at.i2).v;
        if t == NONE {
          p := NONE;
          return;
        }
        p := t;
        level := level - 1;
      }
    }

    /** walkaddr: the physical page of a user page, NONE if it is not mapped for the user. */
    method Walkaddr(root: int, n: int) returns (q: int)
      requires Valid() && IsRoot(kind, root) && 0 <= n
      modifies this
      ensures Valid() && mem == old(mem) && kind == old(kind) && free == old(free)
      ensures q == if n < MAXPAGES && Map(mem, root, PathOf(n)).v && Map(mem, root, PathOf(n)).u
                   then Map(mem, root, PathOf(n)).ppn else NONE
    {
      if n >= MAXPAGES {
        return NONE;
      }
      var p, i := Walk(root, n, false);
      if p == NONE {
        return NONE;
      }
      OnPath(mem, kind, root, PathOf(n));
      var pte := mem[p][i];
      return if !pte.v || !pte.u then NONE else pte.ppn;
    }

    /**
     uvmclear: page n is no longer one for the user, and nothing else changes. Its panic, on a page for which
     there is no table, is its precondition.
     */
    method Uvmclear(root: int, n: int)
      requires Valid() && IsRoot(kind, root) && 0 <= n < MAXPAGES && Table0(mem, root, PathOf(n)) != NONE
      modifies this
      ensures Valid() && kind == old(kind) && free == old(free) && head == old(head)
      ensures Cleared(old(mem), kind, mem, root, n)
    {
      var p, i := Walk(root, n, false);
      ClearAt(mem, kind, root, n);
      mem := Set(mem, p, i, mem[p][i].(u := false));
      FreeFrame(old(mem), kind, head, free, mem, kind);
    }

    // ---------------------------------------------------------------- mappages

    /** One turn of the loop of mappages: virtual page n gets entry e, unless memory runs out. */
    method MapOne(root: int, n: int, e: Pte) returns (ok: bool)
      requires Valid() && IsRoot(kind, root) && 0 <= n < MAXPAGES && !Map(mem, root, PathOf(n)).v
      requires IsPage(kind, e.ppn) && (kind[e.ppn].Loose? || kind[e.ppn].Other?) && e.v && Leafy(e)
      modifies this
      ensures Valid()
      ensures ok ==>
        Mapped(old(mem), old(kind), mem, kind, root, n, n + 1, e.ppn, e.ppn + 1) && Map(mem, root, PathOf(n)) == e
      ensures !ok ==> Mapped(old(mem), old(kind), mem, kind, root, n, n, e.ppn, e.ppn) && free == []
      ensures if ok then |free| >= |old(free)| - 2 else |old(free)| <= 1
      ensures TablesFor(old(kind), kind, n, n + 1)
    {
      var p, i := Walk(root, n, true);
      ghost var mem1, kind1 := mem, kind;
      GrownIsMapped(old(mem), old(kind), mem1, kind1, root, n, e.ppn);
      assert IsRoot(kind1, root);
      assert Map(mem1, root, PathOf(n)) == Map(old(mem), root, PathOf(n));
      if p == NONE {
        return false;
      }
      MapAt(mem1, kind1, root, n, e);
      mem := Set(mem, p, i, e);
      kind := Claimed(kind, e.ppn, p, i);
      TablesStay(old(kind), kind1, kind, n, n + 1);
      FreeFrame(mem1, kind1, head, free, mem, kind);
      MappedJoin(old(mem), old(kind), mem1, kind1, mem, kind, root, n, n, n + 1, e.ppn, e.ppn, e.ppn + 1);
      return true;
    }

    /** A turn of the loop of mappages among the earlier ones. */
    method MapTurn(root: int, first: int, a: int, ppn: int, perm: Pte, ghost mem0: seq<Page>,
                   ghost kind0: seq<Kind>) returns (ok: bool)
      requires Valid() && IsRoot(kind, root) && IsRoot(kind0, root) && 0 <= first <= a < MAXPAGES && Leafy(perm)
      requires Mapped(mem0, kind0, mem, kind, root, first, a, ppn, ppn + (a - first))
      requires RangeMapped(mem, root, first, a - first, ppn, perm)
      requires !Map(mem0, root, PathOf(a)).v && Available(kind0, ppn + (a - first)) && TablesFor(kind0, kind, first, a)
      modifies this
      ensures Valid() && IsRoot(kind, root)
      ensures ok ==> Mapped(mem0, kind0, mem, kind, root, first, a + 1, ppn, ppn + (a + 1 - first))
      ensures ok ==> RangeMapped(mem, root, first, a + 1 - first, ppn, perm)
      ensures !ok ==> Mapped(mem0, kind0, mem, kind, root, first, a, ppn, ppn + (a - first)) && free == []
      ensures !ok ==> RangeMapped(mem, root, first, a - first, ppn, perm)
      ensures if ok then |free| >= |old(free)| - 2 else |old(free)| <= 1
      ensures TablesFor(kind0, kind, first, a + 1)
    {
      var q := ppn + (a - first);
      ghost var mem1, kind1 := mem, kind;
      assert Map(mem1, root, PathOf(a)) == Map(mem0, root, PathOf(a));
      ok := MapOne(root, a, perm.(ppn := q, v := true));
      TablesJoin(kind0, kind1, kind, first, a, a, a + 1);
      ghost var next, qnext := if ok then a + 1 else a, if ok then q + 1 else q;
      MappedJoin(mem0, kind0, mem1, kind1, mem, kind, root, first, a, next, ppn, q, qnext);
      RangeGrows(mem1, kind1, mem, root, first, a, ppn, perm, next);
    }

    /**
     mappages: the pages of va..va + size map to the physical pages from pa on, with perm; on
     failure, when memory has run out, a prefix of them does. No other translation changes. Its
     panics on an empty range and on a page already mapped are its preconditions.
     */
    method Mappages(root: int, va: int, size: int, pa: int, perm: Pte) returns (ok: bool, ghost done: int)
      requires Valid() && IsRoot(kind, root) && 0 <= va && 0 < size && va + size <= MAXPAGES * PGSIZE && 0 <= pa
        && Leafy(perm)
      requires forall n :: va / PGSIZE <= n <= (va + size - 1) / PGSIZE ==>
        0 <= n < MAXPAGES && !Map(mem, root, PathOf(n)).v
      requires forall q :: pa / PGSIZE <= q <= pa / PGSIZE + ((va + size - 1) / PGSIZE - va / PGSIZE) ==>
        Available(kind, q)
      modifies this
      ensures Valid()
      ensures 0 <= done <= (va + size - 1) / PGSIZE - va / PGSIZE + 1
      ensures ok <==> done == (va + size - 1) / PGSIZE - va / PGSIZE + 1
      ensures !ok ==> free == []
      ensures if ok then |free| >= |old(free)| - 2 * done else |old(free)| <= 2 * done + 1
      ensures Mapped(old(mem), old(kind), mem, kind, root, va / PGSIZE, va / PGSIZE + done, pa / PGSIZE,
        pa / PGSIZE + done)
      ensures RangeMapped(mem, root, va / PGSIZE, done, pa / PGSIZE, perm)
      ensures TablesFor(old(kind), kind, va / PGSIZE, (va + size - 1) / PGSIZE + 1)
    {
      ok, done := MapLoop(root, va / PGSIZE, (va + size - 1) / PGSIZE, pa / PGSIZE, perm);
    }

    /** The loop of mappages, by page numbers. */
    method MapLoop(root: int, first: int, last: int, ppn: int, perm: Pte) returns (ok: bool, ghost done: int)
      requires Valid() && IsRoot(kind, root) && 0 <= first <= last < MAXPAGES && Leafy(perm)
      requires forall n :: first <= n <= last ==> !Map(mem, root, PathOf(n)).v
      requires forall q :: ppn <= q <= ppn + (last - first) ==> Available(kind, q)
      modifies this
      ensures Valid()
      ensures 0 <= done <= last - first + 1 && (ok <==> done == last - first + 1) && (!ok ==> free == [])
      ensures if ok then |free| >= |old(free)| - 2 * done else |old(free)| <= 2 * done + 1
      ensures Mapped(old(mem), old(kind), mem, kind, root, first, first + done, ppn, ppn + done)
      ensures RangeMapped(mem, root, first, done, ppn, perm) && TablesFor(old(kind), kind, first, last + 1)
    {
      var a := first;
      done := 0;
      while true
        invariant first <= a <= last && done == a - first && Valid() && IsRoot(kind, root)
        invariant Mapped(old(mem), old(kind), mem, kind, root, first, a, ppn, ppn + (a - first))
        invariant RangeMapped(mem, root, first, a - first, ppn, perm) && |free| >= |old(free)| - 2 * done
        invariant TablesFor(old(kind), kind, first, a)
        decreases last - a
      {
        ok := MapTurn(root, first, a, ppn, perm, old(mem), old(kind));
        if !ok {
          TablesMore(old(kind), kind, first, a + 1, last + 1);
          return;
        }
        done := done + 1;
        if a == last {
          return;
        }
        a := a + 1;
      }
    }

    // ---------------------------------------------------------------- uvmunmap

    /** One turn of the loop of uvmunmap. */
    method UnmapOne(root: int, n: int, doFree: bool)
      requires Valid() && IsRoot(kind, root) && 0 <= n < MAXPAGES && Map(mem, root, PathOf(n)).v
      requires doFree ==> IsPage(kind, Map(mem, root, PathOf(n)).ppn) && kind[Map(mem, root, PathOf(n)).ppn].Data?
      modifies this
      ensures Valid() && Dropped(old(mem), old(kind), mem, kind, root, n, n + 1, doFree)
    {
      var p, i := Walk(root, n, false);
      OnPath(mem, kind, root, PathOf(n));
      ReleaseData(p, i, doFree);
      UnmapAt(old(mem), old(kind), mem, kind, root, n, doFree);
      ClearPte(p, i);
    }

    /** The data page of entry i of the level-0 table p is freed, or handed back to the caller. */
    method ReleaseData(p: int, i: int, doFree: bool)
      requires Valid() && IsTable(kind, p) && kind[p].level == 0 && 0 <= i < ENTRIES && mem[p][i].v
      requires doFree ==> IsPage(kind, mem[p][i].ppn) && kind[mem[p][i].ppn].Data?
      modifies this
      ensures ValidBut({(p, i)}) && IsTable(kind, p) && mem[p] == old(mem[p])
      ensures IsPage(kind, mem[p][i].ppn) && !kind[mem[p][i].ppn].Table? && !kind[mem[p][i].ppn].Data?
      ensures OnePageLetGo(old(mem), old(kind), mem, kind, mem[p][i].ppn, doFree)
    {
      ReleasePage(mem, kind, p, i);
      var q := mem[p][i].ppn;
      kind := Released(kind, q);
      FreeFrame(mem, old(kind), head, free, mem, kind);
      if doFree {
        Kfree(q, {(p, i)});
      }
    }

    /** *pte = 0. */
    method ClearPte(p: int, i: int)
      requires ValidBut({(p, i)}) && IsTable(kind, p) && 0 <= i < ENTRIES
      requires IsPage(kind, mem[p][i].ppn) ==> !kind[mem[p][i].ppn].Table? && !kind[mem[p][i].ppn].Data?
      modifies this`mem
      ensures Valid() && mem == Set(old(mem), p, i, ZERO)
    {
      assert {(p, i)} == {} + {(p, i)};
      ClearEntry(mem, kind, p, i, {});
      mem := Set(mem, p, i, ZERO);
      FreeFrame(old(mem), kind, head, free, mem, kind);
    }

    /**
     uvmunmap: exactly the pages va..va + npages lose their translation, and their data pages are
     free if doFree is set. Its panics, on an unaligned address and on a page that is not mapped
     to a leaf, are its preconditions.
     */
    method Uvmunmap(root: int, va: int, npages: int, doFree: bool)
      requires Valid() && IsRoot(kind, root) && va % PGSIZE == 0 && 0 <= va && 0 <= npages
      requires RangeInUse(mem, kind, root, va / PGSIZE, va / PGSIZE + npages, doFree)
      modifies this
      ensures Valid() && Dropped(old(mem), old(kind), mem, kind, root, va / PGSIZE, va / PGSIZE + npages, doFree)
    {
      UnmapLoop(root, va / PGSIZE, va / PGSIZE + npages, doFree);
    }

    /** The loop of uvmunmap, by page numbers. */
    method UnmapLoop(root: int, lo: int, hi: int, doFree: bool)
      requires Valid() && IsRoot(kind, root) && 0 <= lo <= hi && RangeInUse(mem, kind, root, lo, hi, doFree)
      modifies this
      ensures Valid() && IsRoot(kind, root) && Dropped(old(mem), old(kind), mem, kind, root, lo, hi, doFree)
    {
      var a := lo;
      DroppedNothing(mem, kind, root, lo, doFree);
      while a < hi
        invariant lo <= a <= hi && Valid() && IsRoot(kind, root)
        invariant Dropped(old(mem), old(kind), mem, kind, root, lo, a, doFree)
      {
        assert InUse(old(mem), old(kind), root, a, doFree);
        UnmapTurn(root, lo, a, doFree, old(mem), old(kind));
        a := a + 1;
      }
    }

    /** A turn of the loop of uvmunmap after the earlier ones. */
    method UnmapTurn(root: int, ghost lo: int, a: int, doFree: bool, ghost mem0: seq<Page>, ghost kind0: seq<Kind>)
      requires Valid() && IsRoot(kind, root) && Tree(mem0, kind0, {}) && IsRoot(kind0, root)
      requires 0 <= lo <= a && InUse(mem0, kind0, root, a, doFree)
        && Dropped(mem0, kind0, mem, kind, root, lo, a, doFree)
      modifies this
      ensures Valid() && IsRoot(kind, root) && Dropped(mem0, kind0, mem, kind, root, lo, a + 1, doFree)
    {
      StillMapped(mem0, kind0, mem, kind, root, lo, a, doFree, a);
      UnmapOne(root, a, doFree);
      DroppedJoin(mem0, kind0, old(mem), old(kind), mem, kind, root, lo, a, doFree);
      RootStays(old(mem), old(kind), mem, kind, root, a, a + 1, doFree, root);
    }

    // ---------------------------------------------------------------- address spaces

    /** uvmcreate: an empty address space, NONE when memory has run out. */
    method Uvmcreate() returns (root: int)
      requires Valid()
      modifies this
      ensures Valid()
      ensures root == NONE <==> old(free) == []
      ensures root == NONE ==> mem == old(mem) && kind == old(kind) && free == old(free)
      ensures root != NONE ==> IsPage(old(kind), root) && old(kind)[root].Free? && IsRoot(kind, root)
      ensures root != NONE ==> kind == old(kind)[root := Table(root, 2, NONE, 0)] && |free| == |old(free)| - 1
      ensures root != NONE ==> forall r :: IsPage(kind, r) && r != root ==> mem[r] == old(mem)[r]
      ensures root != NONE ==> forall n :: 0 <= n < MAXPAGES ==> Map(mem, root, PathOf(n)) == ZERO
    {
      root := Kalloc({});
      if root == NONE {
        return;
      }
      ghost var mem1, kind1 := mem, kind;
      mem := mem[root := Filled(ZERO)];
      kind := kind[root := Table(root, 2, NONE, 0)];
      NewRoot(mem1, kind1, mem, kind, root);
      FreeFrame(mem1, kind1, head, free, mem, kind);
    }

    /** The common body of the loops of uvmalloc and uvmcopy: take a page, fill it, map it at n. */
    method AddPage(root: int, n: int, page: Page, perm: Pte) returns (ok: bool)
      requires Valid() && IsRoot(kind, root) && 0 <= n < MAXPAGES && !Map(mem, root, PathOf(n)).v && Leafy(perm)
        && |page| == ENTRIES
      modifies this
      ensures Valid() && IsRoot(kind, root)
      ensures ok ==> Alloced(old(mem), old(kind), mem, kind, root, n, n + 1) && NewPage(mem, root, n, perm, page)
      ensures !ok ==> Alloced(old(mem), old(kind), mem, kind, root, n, n) && |free| <= 1
      ensures if ok then |free| >= |old(free)| - 3 else |old(free)| <= 2
      ensures TablesFor(old(kind), kind, n, n + 1)
    {
      var q := Kalloc({});
      if q == NONE {
        AllocedNothing(mem, kind, root, n);
        return false;
      }
      ghost var mem1 := mem;
      mem := mem[q := page];
      FreeFrame(mem1, kind, head, free, mem, kind);
      FillKeeps(old(mem), old(kind), q, page, root, n);
      assert mem == old(mem)[q := page];
      ok := MapFilled(root, n, q, page, perm, old(mem), old(kind));
    }

    lemma OnePage(n: int)
      requires 0 <= n
      ensures n * PGSIZE / PGSIZE == n && (n * PGSIZE + PGSIZE - 1) / PGSIZE == n
    {
    }

    /** The mappages of both loops, of one page. */
    method MapPage(root: int, n: int, q: int, perm: Pte) returns (ok: bool)
      requires Valid() && IsRoot(kind, root) && 0 <= n < MAXPAGES && 0 <= q && Leafy(perm)
      requires !Map(mem, root, PathOf(n)).v && Available(kind, q)
      modifies this
      ensures Valid() && (!ok ==> free == [])
      ensures var m := if ok then 1 else 0;
        && Mapped(old(mem), old(kind), mem, kind, root, n, n + m, q, q + m) && RangeMapped(mem, root, n, m, q, perm)
      ensures if ok then |free| >= |old(free)| - 2 else |old(free)| <= 1
      ensures TablesFor(old(kind), kind, n, n + 1)
    {
      OnePage(n);
      OnePage(q);
      ghost var done;
      ok, done := Mappages(root, n * PGSIZE, PGSIZE, q * PGSIZE, perm);
      assert TablesFor(old(kind), kind, n, n + 1);
    }

    method MapFilled(root: int, n: int, q: int, ghost page: Page, perm: Pte, ghost mem0: seq<Page>,
                     ghost kind0: seq<Kind>) returns (ok: bool)
      requires Valid() && Tree(mem0, kind0, {}) && IsRoot(kind0, root) && 0 <= n < MAXPAGES
        && !Map(mem0, root, PathOf(n)).v
      requires IsPage(kind0, q) && kind0[q].Free? && mem == mem0[q := page] && kind == kind0[q := Loose]
      requires Leafy(perm) && |page| == ENTRIES && MapsKept(mem0, kind0, mem, root, n, n)
      modifies this
      ensures Valid() && IsRoot(kind, root)
      ensures ok ==> Alloced(mem0, kind0, mem, kind, root, n, n + 1) && NewPage(mem, root, n, perm, page)
      ensures !ok ==> Alloced(mem0, kind0, mem, kind, root, n, n) && |free| <= 1
      ensures if ok then |free| >= |old(free)| - 2 else |old(free)| <= 1
      ensures TablesFor(kind0, kind, n, n + 1)
    {
      assert IsRoot(kind, root) && Map(mem, root, PathOf(n)) == Map(mem0, root, PathOf(n));
      ok := MapPage(root, n, q, perm);
      TablesFrom(kind0, old(kind), kind, n, n + 1);
      if ok {
        AddedPage(mem0, kind0, mem, kind, root, n, q, page, perm);
      } else {
        ghost var mem2, kind2 := mem, kind;
        Kfree(q, {});
        AddFailed(mem0, kind0, mem2, kind2, mem, kind, root, n, q, page);
        TablesStay(kind0, kind2, kind, n, n + 1);
      }
    }

    /** A turn of either loop among the earlier ones. */
    method GrowTurn(root: int, ghost lo: int, a: int, page: Page, perm: Pte, ghost mem0: seq<Page>,
                    ghost kind0: seq<Kind>,
                    ghost flags: seq<Pte>, ghost pages: seq<Page>) returns (ok: bool)
      requires Valid() && IsRoot(kind, root) && IsRoot(kind0, root) && 0 <= lo <= a < MAXPAGES && |page| == ENTRIES
        && Leafy(perm)
      requires Alloced(mem0, kind0, mem, kind, root, lo, a) && AllNew(mem, root, lo, a, flags, pages)
      requires !Map(mem0, root, PathOf(a)).v && TablesFor(kind0, kind, lo, a)
      requires a - lo < |flags| && a - lo < |pages| && flags[a - lo] == perm && pages[a - lo] == page
      modifies this
      ensures Valid() && IsRoot(kind, root)
      ensures ok ==> Alloced(mem0, kind0, mem, kind, root, lo, a + 1) && AllNew(mem, root, lo, a + 1, flags, pages)
      ensures !ok ==> Alloced(mem0, kind0, mem, kind, root, lo, a) && |free| <= 1
      ensures if ok then |free| >= |old(free)| - 3 else |old(free)| <= 2
      ensures TablesFor(kind0, kind, lo, a + 1)
    {
      ghost var mem1, kind1 := mem, kind;
      assert Map(mem1, root, PathOf(a)) == Map(mem0, root, PathOf(a));
      ok := AddPage(root, a, page, perm);
      TablesJoin(kind0, kind1, kind, lo, a, a, a + 1);
      AllocedJoin(mem0, kind0, mem1, kind1, mem, kind, root, lo, a, if ok then a + 1 else a);
      if ok {
        AllNewJoin(mem1, kind0, kind1, mem, root, lo, a, flags, pages);
      }
    }

    /** uvmdealloc: exactly the pages above newsz go, and their data pages are free. */
    method Uvmdealloc(root: int, oldsz: int, newsz: int) returns (sz: int)
      requires Valid() && IsRoot(kind, root) && 0 <= oldsz && 0 <= newsz
      requires newsz < oldsz ==> RangeInUse(mem, kind, root, Pages(newsz), Pages(oldsz), true)
      modifies this
      ensures Valid() && IsRoot(kind, root) && sz == if newsz >= oldsz then oldsz else newsz
      ensures newsz >= oldsz ==> mem == old(mem) && kind == old(kind) && free == old(free)
      ensures newsz < oldsz ==> Dropped(old(mem), old(kind), mem, kind, root, Pages(newsz), Pages(oldsz), true)
    {
      if newsz >= oldsz {
        return oldsz;
      }
      if Pages(newsz) < Pages(oldsz) {
        Uvmunmap(root, Pages(newsz) * PGSIZE, Pages(oldsz) - Pages(newsz), true);
        RootStays(old(mem), old(kind), mem, kind, root, Pages(newsz), Pages(oldsz), true, root);
      } else {
        DroppedNothing(mem, kind, root, Pages(newsz), true);
      }
      return newsz;
    }

    /**
     uvmalloc: on success the pages between the sizes are new, zeroed and the address space's own,
     with PTE_R|PTE_U|xperm; on failure the flat maps are as they were, no data page is taken, and
     only empty tables may have been added. It never fails with three pages free for each one asked for.
     */
    method Uvmalloc(root: int, oldsz: int, newsz: int, xperm: Pte) returns (sz: int, ghost ok: bool)
      requires Valid() && IsRoot(kind, root) && 0 <= oldsz && 0 <= newsz <= MAXPAGES * PGSIZE && xperm.ppn == 0
      requires forall n :: Pages(oldsz) <= n < Pages(newsz) ==> !Map(mem, root, PathOf(n)).v
      modifies this
      ensures Valid() && IsRoot(kind, root)
      ensures newsz < oldsz ==> ok && sz == oldsz && mem == old(mem) && kind == old(kind) && free == old(free)
      ensures newsz >= oldsz && ok ==>
        sz == newsz && Alloced(old(mem), old(kind), mem, kind, root, Pages(oldsz), Pages(newsz))
      ensures newsz >= oldsz && ok ==> forall n :: Pages(oldsz) <= n < Pages(newsz) ==>
        NewPage(mem, root, n, xperm.(r := true, u := true), Filled(ZERO))
      ensures !ok ==> sz == 0 && Alloced(old(mem), old(kind), mem, kind, root, Pages(oldsz), Pages(oldsz))
      ensures !ok ==> |old(free)| < 3 * (Pages(newsz) - Pages(oldsz))
      ensures newsz >= oldsz ==> TablesFor(old(kind), kind, Pages(oldsz), Pages(newsz))
    {
      if newsz < oldsz {
        return oldsz, true;
      }
      var lo, hi, perm := Pages(oldsz), Pages(newsz), xperm.(r := true, u := true);
      ghost var flags, pages := seq(hi - lo, _ => perm), seq(hi - lo, _ => Filled(ZERO));
      var done := GrowLoop(root, lo, hi, perm, flags, pages);
      ok := done;
      if done {
        forall n | lo <= n < hi
          ensures NewPage(mem, root, n, perm, Filled(ZERO))
        {
          assert AsWanted(mem, root, lo, n, flags, pages);
        }
      }
      sz := if done then newsz else 0;
    }

    /** The loop of uvmalloc and its way back. */
    method GrowLoop(root: int, lo: int, hi: int, perm: Pte, ghost flags: seq<Pte>,
                    ghost pages: seq<Page>) returns (ok: bool)
      requires Valid() && IsRoot(kind, root) && 0 <= lo <= hi <= MAXPAGES && Leafy(perm)
      requires forall n :: lo <= n < hi ==> !Map(mem, root, PathOf(n)).v
      requires flags == seq(hi - lo, _ => perm) && pages == seq(hi - lo, _ => Filled(ZERO))
      modifies this
      ensures Valid() && IsRoot(kind, root)
      ensures ok ==> Alloced(old(mem), old(kind), mem, kind, root, lo, hi) && AllNew(mem, root, lo, hi, flags, pages)
      ensures !ok ==> Alloced(old(mem), old(kind), mem, kind, root, lo, lo) && |old(free)| < 3 * (hi - lo)
      ensures TablesFor(old(kind), kind, lo, hi)
    {
      var a := lo;
      AllocedNothing(mem, kind, root, lo);
      while a < hi
        invariant lo <= a <= hi && Valid() && IsRoot(kind, root) && |free| >= |old(free)| - 3 * (a - lo)
        invariant Alloced(old(mem), old(kind), mem, kind, root, lo, a) && AllNew(mem, root, lo, a, flags, pages)
        invariant TablesFor(old(kind), kind, lo, a)
      {
        ok := GrowTurn(root, lo, a, Filled(ZERO), perm, old(mem), old(kind), flags, pages);
        if !ok {
          TakeBack(root, lo, a, old(mem), old(kind), hi);
          return false;
        }
        a := a + 1;
      }
      ok := true;
    }

    /** uvmalloc's error path. */
    method TakeBack(root: int, lo: int, a: int, ghost mem0: seq<Page>, ghost kind0: seq<Kind>, ghost hi: int)
      requires Valid() && IsRoot(kind, root) && IsRoot(kind0, root) && 0 <= lo <= a < hi <= MAXPAGES
      requires Alloced(mem0, kind0, mem, kind, root, lo, a) && RangeUnmapped(mem0, root, lo, a)
      requires TablesFor(kind0, kind, lo, a + 1)
      modifies this
      ensures Valid() && IsRoot(kind, root) && Alloced(mem0, kind0, mem, kind, root, lo, lo)
      ensures TablesFor(kind0, kind, lo, hi)
    {
      ghost var mem1, kind1 := mem, kind;
      TookIsInUse(mem, kind0, kind, root, lo, a);
      var sz := Uvmdealloc(root, a * PGSIZE, lo * PGSIZE);
      if lo == a {
        DroppedNothing(mem, kind, root, lo, true);
      }
      DroppedTables(kind0, mem1, kind1, mem, kind, root, lo, a, hi);
      RolledBack(mem0, kind0, mem1, kind1, mem, kind, root, lo, a);
    }

    /**
     uvmcopy: on success the child's pages have the parent's permissions and contents in pages of
     its own; on failure the flat maps are as they were, no data page is taken, and only empty
     tables may have been added. It never fails with three pages free for each one of the parent. Its
     panics, on a page of the parent that is not present, are its preconditions.
     */
    method Uvmcopy(parent: int, root: int, sz: int) returns (r: int)
      requires Valid() && IsRoot(kind, parent) && IsRoot(kind, root) && parent != root && 0 <= sz <= MAXPAGES * PGSIZE
      requires RangeInUse(mem, kind, parent, 0, Pages(sz), false) && RangeUnmapped(mem, root, 0, Pages(sz))
      modifies this
      ensures Valid() && IsRoot(kind, parent) && IsRoot(kind, root)
      ensures r == 0 ==> Alloced(old(mem), old(kind), mem, kind, root, 0, Pages(sz))
      ensures r == 0 ==> forall n :: 0 <= n < Pages(sz) ==>
        NewPage(mem, root, n, Map(old(mem), parent, PathOf(n)), PageAt(old(mem), parent, n))
      ensures r != 0 ==> r == -1 && Alloced(old(mem), old(kind), mem, kind, root, 0, 0)
      ensures r != 0 ==> |old(free)| < 3 * Pages(sz)
      ensures TablesFor(old(kind), kind, 0, Pages(sz))
    {
      var i := 0;
      ghost var flags, pages := FlagsOf(mem, parent, Pages(sz)), PagesOf(mem, parent, Pages(sz));
      AllocedNothing(mem, kind, root, 0);
      while i < Pages(sz)
        invariant 0 <= i <= Pages(sz) && Valid() && IsRoot(kind, root) && IsRoot(kind, parent)
        invariant |free| >= |old(free)| - 3 * i
        invariant Alloced(old(mem), old(kind), mem, kind, root, 0, i) && AllNew(mem, root, 0, i, flags, pages)
        invariant TablesFor(old(kind), kind, 0, i)
      {
        var ok := CopyTurn(parent, root, i, old(mem), old(kind), flags, pages);
        if !ok {
          CopyBack(root, i, old(mem), old(kind), Pages(sz));
          return -1;
        }
        i := i + 1;
      }
      Copied(old(mem), mem, parent, root, Pages(sz), flags, pages);
      r := 0;
    }

    /** A turn of the loop of uvmcopy. */
    method CopyTurn(parent: int, root: int, i: int, ghost mem0: seq<Page>, ghost kind0: seq<Kind>,
                    ghost flags: seq<Pte>, ghost pages: seq<Page>)
      returns (ok: bool)
      requires Valid() && IsRoot(kind, root) && IsRoot(kind, parent) && IsRoot(kind0, root) && IsRoot(kind0, parent)
        && parent != root
      requires Tree(mem0, kind0, {}) && 0 <= i < MAXPAGES && InUse(mem0, kind0, parent, i, false)
        && !Map(mem0, root, PathOf(i)).v
      requires Alloced(mem0, kind0, mem, kind, root, 0, i) && AllNew(mem, root, 0, i, flags, pages)
      requires TablesFor(kind0, kind, 0, i)
      requires i < |flags| && i < |pages| && flags[i] == Map(mem0, parent, PathOf(i))
        && pages[i] == PageAt(mem0, parent, i)
      modifies this
      ensures Valid() && IsRoot(kind, root) && IsRoot(kind, parent)
      ensures ok ==> Alloced(mem0, kind0, mem, kind, root, 0, i + 1) && AllNew(mem, root, 0, i + 1, flags, pages)
      ensures !ok ==> Alloced(mem0, kind0, mem, kind, root, 0, i)
      ensures if ok then |free| >= |old(free)| - 3 else |old(free)| <= 2
      ensures TablesFor(kind0, kind, 0, i + 1)
    {
      ParentStays(mem0, kind0, mem, kind, parent, root, 0, i, i);
      var p, j := Walk(parent, i, false);
      OnPath(mem, kind, parent, PathOf(i));
      var pte := mem[p][j];
      ok := GrowTurn(root, 0, i, mem[pte.ppn], pte, mem0, kind0, flags, pages);
      ParentStays(mem0, kind0, mem, kind, parent, root, 0, if ok then i + 1 else i, i);
    }

    /** uvmcopy's error path. */
    method CopyBack(root: int, i: int, ghost mem0: seq<Page>, ghost kind0: seq<Kind>, ghost hi: int)
      requires Valid() && IsRoot(kind, root) && IsRoot(kind0, root) && 0 <= i < hi <= MAXPAGES
      requires Alloced(mem0, kind0, mem, kind, root, 0, i) && RangeUnmapped(mem0, root, 0, i)
        && TablesFor(kind0, kind, 0, i + 1)
      modifies this
      ensures Valid() && IsRoot(kind, root) && Alloced(mem0, kind0, mem, kind, root, 0, 0)
      ensures TablesFor(kind0, kind, 0, hi)
    {
      ghost var mem1, kind1 := mem, kind;
      TookIsInUse(mem, kind0, kind, root, 0, i);
      Uvmunmap(root, 0, i, true);
      RootStays(mem1, kind1, mem, kind, root, 0, i, true, root);
      DroppedTables(kind0, mem1, kind1, mem, kind, root, 0, i, hi);
      RolledBack(mem0, kind0, mem1, kind1, mem, kind, root, 0, i);
    }

    // ---------------------------------------------------------------- freewalk and uvmfree

    /**
     freewalk: p and all tables below it are free, nothing else changes, and no leaf is met. The
     slots in ex, and afterwards the one that leads to p, dangle until the callers clear them.
     */
    method Freewalk(p: int, ghost ex: set<(int, int)>)
      requires ValidBut(ex) && IsTable(kind, p) && 0 <= kind[p].level && Bare(mem, kind, kind[p].root)
      requires forall e :: e in ex ==> IsTable(kind, e.0) && kind[e.0].level > kind[p].level
      modifies this
      decreases kind[p].level, 1
      ensures ValidBut(ex + {SlotOf(old(kind), p)}) && |kind| == |old(kind)|
      ensures forall q :: IsPage(kind, q) ==> if Under(old(kind), q, p) then kind[q].Free?
        else SameUse(old(kind)[q], kind[q])
      ensures forall q :: IsPage(kind, q) && !kind[q].Free? ==> mem[q] == old(mem)[q]
    {
      var i := 0;
      while i < ENTRIES
        invariant 0 <= i <= ENTRIES && ValidBut(ex) && Emptied(old(mem), old(kind), mem, kind, p, i)
        invariant Bare(mem, kind, kind[p].root)
      {
        FreeEntry(p, i, ex, old(mem), old(kind));
        i := i + 1;
      }
      forall q | IsPage(kind, q) && q != p && Under(old(kind), q, p)
        ensures kind[q].Free?
      {
        NothingBelow(mem, old(kind), kind, p, q, ex);
      }
      DropTable(mem, kind, p, ex);
      ghost var kind1 := kind;
      kind := kind[p := Loose];
      FreeFrame(mem, kind1, head, free, mem, kind);
      Kfree(p, ex + {SlotOf(old(kind), p)});
    }

    /** A turn of the loop of freewalk. */
    method FreeEntry(p: int, i: int, ghost ex: set<(int, int)>, ghost mem0: seq<Page>, ghost kind0: seq<Kind>)
      requires ValidBut(ex) && Emptied(mem0, kind0, mem, kind, p, i) && 0 <= i < ENTRIES
        && Bare(mem, kind, kind[p].root)
      requires 0 <= kind[p].level && forall e :: e in ex ==> IsTable(kind0, e.0) && kind0[e.0].level > kind[p].level
      modifies this
      decreases kind[p].level, 0
      ensures ValidBut(ex) && Emptied(mem0, kind0, mem, kind, p, i + 1) && Bare(mem, kind, kind[p].root)
    {
      var pte := mem[p][i];
      assert (p, i) !in ex;
      assert EntryOk(mem, kind, p, i);
      if pte.v && !Leafy(pte) {
        var child := pte.ppn;
        ghost var mem1, kind1 := mem, kind;
        assert LinkOk(mem, kind, child) && LinkOk(mem, kind, p);
        Freewalk(child, ex);
        assert SlotOf(kind1, child) == (p, i);
        EmptiedChild(mem0, kind0, mem1, kind1, mem, kind, p, i, child);
        ClearEntry(mem, kind, p, i, ex);
        ghost var mem2 := mem;
        mem := Set(mem, p, i, ZERO);
        FreeFrame(mem2, kind, head, free, mem, kind);
      }
    }

    /**
     uvmfree: exactly the address space's own data pages and page-table pages go back to the free
     list, and no other address space changes, nor what its pages hold. Nothing may be mapped above
     sz.
     */
    method Uvmfree(root: int, sz: int)
      requires Valid() && IsRoot(kind, root) && 0 <= sz <= MAXPAGES * PGSIZE
      requires RangeInUse(mem, kind, root, 0, Pages(sz), true) && RangeUnmapped(mem, root, Pages(sz), MAXPAGES)
      modifies this
      ensures Valid() && SpaceFreed(old(kind), kind, root) && OthersStand(old(mem), old(kind), mem, kind, root)
      ensures InUseKept(old(mem), old(kind), mem, kind)
    {
      if sz > 0 {
        Uvmunmap(root, 0, Pages(sz), true);
      } else {
        DroppedNothing(mem, kind, root, 0, true);
      }
      ghost var mem1, kind1 := mem, kind;
      TakeDown(root, Pages(sz), old(mem), old(kind));
      TakenDown(old(mem), old(kind), mem1, kind1, mem, kind, root, Pages(sz));
    }

    /** The second half of uvmfree. */
    method TakeDown(root: int, ghost hi: int, ghost mem0: seq<Page>, ghost kind0: seq<Kind>)
      requires Valid() && Tree(mem0, kind0, {}) && IsRoot(kind0, root) && 0 <= hi <= MAXPAGES
      requires RangeUnmapped(mem0, root, hi, MAXPAGES) && Dropped(mem0, kind0, mem, kind, root, 0, hi, true)
      modifies this
      ensures Valid() && TreeGone(old(mem), old(kind), mem, kind, root)
    {
      RootStays(mem0, kind0, mem, kind, root, 0, hi, true, root);
      StaysUnmapped(mem0, kind0, mem, root, hi);
      BareWhenUnmapped(mem, kind, root);
      Freewalk(root, {});
      assert LinkOk(old(mem), old(kind), root);
      assert {} + {SlotOf(old(kind), root)} == {(NONE, old(kind)[root].idx)};
      NoSlot(mem, kind, old(kind)[root].idx);
    }
  }
}
