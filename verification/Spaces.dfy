/**
 The address spaces of all processes over one page pool: what allocproc, growproc, fork and
 freeproc of kernel/proc.c and exec of kernel/exec.c do with kernel/vm.c, for any run of such calls.
 */
module Spaces {
  import opened Paging
  import opened Vm

  /** p->pagetable and p->sz. */
  datatype Proc = Proc(root: int, sz: int)

  datatype World = World(mem: seq<Page>, kind: seq<Kind>, head: int, free: seq<int>, procs: seq<Proc>)

  /**
   fork is a Spawn, a Copy, and an Exit of the child when the copy has failed. exec builds a new space, by a
   Spawn, an Alloc for each segment and one for the stack, and a Clear of the page below the stack, and
   ends with an Exit of the old space, or of the new one when it has failed. Touch stands for whatever
   process i stores in its pages between calls, and the kernel with copyout and loadseg.
   */
  datatype Op =
    | Spawn
    | Grow(i: int, n: int)
    | Alloc(i: int, to: int, x: bool, w: bool)
    | Clear(i: int, n: int)
    | Copy(i: int, child: int)
    | Touch(i: int)
    | Exit(i: int)

  // ------------------------------------------------------------------ one address space

  /** Pages below PGROUNDUP(sz) are mapped to data of the space's own, and no others are mapped. */
  ghost predicate Space(mem: seq<Page>, kind: seq<Kind>, root: int, sz: int) {
    && IsRoot(kind, root) && 0 <= sz <= MAXPAGES * PGSIZE
    && RangeInUse(mem, kind, root, 0, Pages(sz), true) && RangeUnmapped(mem, root, Pages(sz), MAXPAGES)
  }

  lemma PagesMonotone(a: int, b: int)
    requires 0 <= a <= b
    ensures 0 <= Pages(a) <= Pages(b)
  {
  }

  /** Growing root's space, or failing to, keeps every space; its own has the new size. */
  lemma GrownSpace(mem0: seq<Page>, kind0: seq<Kind>, mem: seq<Page>, kind: seq<Kind>, root: int, lo: int, hi: int,
                   r: int, sz: int, now: int)
    requires Space(mem0, kind0, r, sz) && Alloced(mem0, kind0, mem, kind, root, lo, hi) && 0 <= lo <= hi
    requires (now == sz && (r != root || lo == hi))
      || (r == root && lo == Pages(sz) && hi == Pages(now) && sz <= now <= MAXPAGES * PGSIZE)
    ensures Space(mem, kind, r, now)
  {
    forall n | 0 <= n < Pages(now)
      ensures InUse(mem, kind, r, n, true)
    {
      if n < Pages(sz) {
        assert InUse(mem0, kind0, r, n, true);
        assert Map(mem, r, PathOf(n)) == Map(mem0, r, PathOf(n));
      } else {
        assert Took(mem, kind0, kind, root, n);
      }
    }
    forall n | Pages(now) <= n < MAXPAGES && 0 <= n
      ensures Map(mem, r, PathOf(n)) == ZERO
    {
      assert Map(mem, r, PathOf(n)) == Map(mem0, r, PathOf(n));
    }
  }

  /** The pages unmapped from root's space are not those of page n of this or another space. */
  lemma DataStays(mem0: seq<Page>, kind0: seq<Kind>, mem: seq<Page>, kind: seq<Kind>, root: int, lo: int, hi: int,
                  r: int, n: int)
    requires Tree(mem0, kind0, {}) && IsRoot(kind0, root) && IsRoot(kind0, r) && InUse(mem0, kind0, r, n, true)
    requires Dropped(mem0, kind0, mem, kind, root, lo, hi, true) && 0 <= lo && (r == root ==> !(lo <= n < hi))
    ensures InUse(mem, kind, r, n, true)
  {
    var q := Map(mem0, r, PathOf(n)).ppn;
    assert Map(mem, r, PathOf(n)) == Map(mem0, r, PathOf(n));
    if MappedIn(mem0, root, lo, hi, q) {
      var m :| lo <= m < hi && 0 <= m < MAXPAGES && Map(mem0, root, PathOf(m)).v && Map(mem0, root, PathOf(m)).ppn == q;
      DataMappedOnce(mem0, kind0, root, PathOf(m), r, PathOf(n));
      PathJoin(m);
      PathJoin(n);
    }
  }

  /** Shrinking root's space keeps every space; its own has the new size. */
  lemma ShrunkSpace(mem0: seq<Page>, kind0: seq<Kind>, mem: seq<Page>, kind: seq<Kind>, root: int, from: int, to: int,
                    r: int, sz: int, now: int)
    requires Tree(mem0, kind0, {}) && IsRoot(kind0, root) && Space(mem0, kind0, r, sz) && 0 <= to <= from
    requires Dropped(mem0, kind0, mem, kind, root, Pages(to), Pages(from), true)
    requires if r == root then sz == from && now == to else now == sz
    ensures Space(mem, kind, r, now)
  {
    PagesMonotone(to, from);
    forall n | 0 <= n < Pages(now)
      ensures InUse(mem, kind, r, n, true)
    {
      assert InUse(mem0, kind0, r, n, true);
      DataStays(mem0, kind0, mem, kind, root, Pages(to), Pages(from), r, n);
    }
    forall n | Pages(now) <= n < MAXPAGES && 0 <= n
      ensures Map(mem, r, PathOf(n)) == ZERO
    {
      if r != root || n >= Pages(from) {
        assert Map(mem, r, PathOf(n)) == Map(mem0, r, PathOf(n));
      }
    }
  }

  /** Freeing root's space keeps the others. */
  lemma FreedSpace(mem0: seq<Page>, kind0: seq<Kind>, mem: seq<Page>, kind: seq<Kind>, root: int, r: int, sz: int)
    requires Tree(mem0, kind0, {}) && IsRoot(kind0, root) && Space(mem0, kind0, r, sz) && r != root
    requires SpaceFreed(kind0, kind, root) && OthersStand(mem0, kind0, mem, kind, root)
    ensures Space(mem, kind, r, sz)
  {
    assert Stands(mem0, mem, kind, r, 0);
    forall n | 0 <= n < Pages(sz)
      ensures InUse(mem, kind, r, n, true)
    {
      assert InUse(mem0, kind0, r, n, true) && Stands(mem0, mem, kind, r, n);
      MappedIsOwn(mem0, kind0, r, n);
    }
    forall n | Pages(sz) <= n < MAXPAGES && 0 <= n
      ensures Map(mem, r, PathOf(n)) == ZERO
    {
      assert Stands(mem0, mem, kind, r, n);
    }
  }

  /** uvmcreate's page: an empty tree, everything else as before. */
  ghost predicate Created(mem0: seq<Page>, kind0: seq<Kind>, mem: seq<Page>, kind: seq<Kind>, root: int) {
    && |mem| == |mem0| == |kind0| && IsPage(kind0, root) && kind0[root].Free?
       && kind == kind0[root := Table(root, 2, NONE, 0)]
    && (forall q :: IsPage(kind, q) && q != root ==> mem[q] == mem0[q])
    && (forall n :: 0 <= n < MAXPAGES ==> Map(mem, root, PathOf(n)) == ZERO)
  }

  lemma CreatedSpace(mem0: seq<Page>, kind0: seq<Kind>, mem: seq<Page>, kind: seq<Kind>, root: int, r: int, sz: int)
    requires Tree(mem0, kind0, {}) && Shape(mem, kind) && Space(mem0, kind0, r, sz)
      && Created(mem0, kind0, mem, kind, root)
    ensures r != root && Space(mem, kind, r, sz)
  {
    forall n | 0 <= n < MAXPAGES
      ensures Map(mem, r, PathOf(n)) == Map(mem0, r, PathOf(n))
    {
      OnPath(mem0, kind0, r, PathOf(n));
    }
    forall n | 0 <= n < Pages(sz)
      ensures InUse(mem, kind, r, n, true)
    {
      assert InUse(mem0, kind0, r, n, true);
    }
  }

  // ------------------------------------------------------------------ all of them

  predicate InTable(w: World, i: int) {
    0 <= i < |w.procs|
  }

  ghost predicate Sound(w: World) {
    Tree(w.mem, w.kind, {}) && FreeOk(w.mem, w.kind, w.head, w.free)
  }

  /** Page q belongs to some process's space. */
  ghost predicate Owned(w: World, q: int)
    requires IsPage(w.kind, q)
  {
    (w.kind[q].Table? || w.kind[q].Data?) && exists i :: InTable(w, i) && w.procs[i].root == w.kind[q].root
  }

  /** No page is lost: it is on the free list, in a process's space, or none of kalloc's. */
  ghost predicate Accounted(w: World) {
    forall q :: IsPage(w.kind, q) ==> w.kind[q].Free? || w.kind[q].Other? || Owned(w, q)
  }

  ghost predicate SpaceAt(w: World, i: int)
    requires InTable(w, i)
  {
    Space(w.mem, w.kind, w.procs[i].root, w.procs[i].sz)
  }

  ghost predicate Apart(w: World) {
    forall i, j :: 0 <= i < j < |w.procs| ==> w.procs[i].root != w.procs[j].root
  }

  ghost predicate Inv(w: World) {
    && Sound(w) && (forall i :: InTable(w, i) ==> SpaceAt(w, i)) && Apart(w) && Accounted(w)
  }

  /** sz + n in 64 bits, for a negative n. */
  function Less(sz: int, n: int): int {
    if sz + n < 0 then sz + n + 0x1_0000_0000_0000_0000 else sz + n
  }

  /** The size growproc(n) aims at; a process that gives back more than it has keeps what it has. */
  function Target(sz: int, n: int): (to: int)
    requires 0 <= sz <= MAXPAGES * PGSIZE && -0x8000_0000 <= n
    ensures to == if sz + n < 0 then sz else sz + n
  {
    if n >= 0 then sz + n
    else if Less(sz, n) < sz then Less(sz, n)
    else sz
  }

  ghost predicate Enabled(w: World, op: Op) {
    match op
    case Spawn => true
    case Grow(i, n) => InTable(w, i) && 0 <= w.procs[i].sz <= MAXPAGES * PGSIZE - n && -0x8000_0000 <= n < 0x8000_0000
                       && w.procs[i].sz <= MAXPAGES * PGSIZE
    case Alloc(i, to, _, _) => InTable(w, i) && 0 <= to <= MAXPAGES * PGSIZE
    case Clear(i, n) => InTable(w, i) && 0 <= n < Pages(w.procs[i].sz)
    case Copy(i, child) => InTable(w, i) && InTable(w, child) && i != child && w.procs[child].sz == 0
    case Touch(i) => InTable(w, i)
    case Exit(i) => InTable(w, i)
  }

  function Resized(w: World, i: int, sz: int): seq<Proc>
    requires InTable(w, i)
  {
    w.procs[i := w.procs[i].(sz := sz)]
  }

  function Without(procs: seq<Proc>, i: int): seq<Proc>
    requires 0 <= i < |procs|
  {
    procs[..i] + procs[i + 1..]
  }

  /** Process i's space grows to sz, or memory runs out and its flat map stays. */
  ghost predicate Grew(w: World, v: World, i: int, sz: int, ok: bool)
    requires InTable(w, i)
  {
    var p := w.procs[i];
    && v.procs == (if ok then Resized(w, i, sz) else w.procs)
    && Alloced(w.mem, w.kind, v.mem, v.kind, p.root, Pages(p.sz), Pages(if ok then sz else p.sz))
  }

  /** Process i's space shrinks to sz. */
  ghost predicate Shrank(w: World, v: World, i: int, sz: int)
    requires InTable(w, i)
  {
    var p := w.procs[i];
    v.procs == Resized(w, i, sz) && Dropped(w.mem, w.kind, v.mem, v.kind, p.root, Pages(sz), Pages(p.sz), true)
  }

  ghost predicate GrewOrNot(w: World, v: World, i: int, sz: int)
    requires InTable(w, i)
  {
    Grew(w, v, i, sz, true) || Grew(w, v, i, sz, false)
  }

  /** Pages lo..hi of root's space hold zeros, and the user may read them, and execute or write them as given. */
  ghost predicate Zeroed(mem: seq<Page>, root: int, lo: int, hi: int, x: bool, w: bool) {
    forall n :: lo <= n < hi ==> NewPage(mem, root, n, ZERO.(r := true, w := w, x := x, u := true), Filled(ZERO))
  }

  /** The first hi pages of child's space hold what those of parent's held, and allow what those allowed. */
  ghost predicate CopyOf(mem0: seq<Page>, parent: int, mem: seq<Page>, child: int, hi: int) {
    forall n :: 0 <= n < hi && n < MAXPAGES ==>
      NewPage(mem, child, n, Map(mem0, parent, PathOf(n)), PageAt(mem0, parent, n))
  }

  /** uvmalloc of the pages up to size `to`, which are zeroed, unless memory runs out. */
  ghost predicate Extended(w: World, v: World, i: int, to: int, x: bool, wr: bool)
    requires InTable(w, i)
  {
    GrewOrNot(w, v, i, to)
    && (v.procs != w.procs ==> Zeroed(v.mem, w.procs[i].root, Pages(w.procs[i].sz), Pages(to), x, wr))
  }

  /** growproc aiming at the size `to`. */
  ghost predicate Sized(w: World, v: World, i: int, to: int)
    requires InTable(w, i)
  {
    if to > w.procs[i].sz then Extended(w, v, i, to, false, true)
    else if to < w.procs[i].sz then Shrank(w, v, i, to)
    else v == w
  }

  /** A new process has an empty space. */
  ghost predicate Spawned(w: World, v: World, root: int) {
    Created(w.mem, w.kind, v.mem, v.kind, root) && v.procs == w.procs + [Proc(root, 0)]
  }

  /** Process i's space is gone, and nothing else. */
  ghost predicate Exited(w: World, v: World, i: int)
    requires InTable(w, i)
  {
    && v.procs == Without(w.procs, i) && SpaceFreed(w.kind, v.kind, w.procs[i].root)
    && OthersStand(w.mem, w.kind, v.mem, v.kind, w.procs[i].root) && InUseKept(w.mem, w.kind, v.mem, v.kind)
  }

  /** Only data pages of the space under root change, and only what they hold. */
  ghost predicate Touched(w: World, v: World, root: int) {
    && v == w.(mem := v.mem) && |v.mem| == |w.mem| == |w.kind|
    && forall q :: IsPage(w.kind, q) && !(w.kind[q].Data? && w.kind[q].root == root) ==> v.mem[q] == w.mem[q]
  }

  /** The user may no longer use page n of the space under root. */
  ghost predicate Closed(w: World, v: World, root: int, n: int) {
    v == w.(mem := v.mem) && Cleared(w.mem, w.kind, v.mem, root, n)
  }

  /** What a call makes of the world, with and without memory to spare. */
  ghost predicate Effect(w: World, op: Op, v: World)
    requires Enabled(w, op)
  {
    && Sound(v)
    && match op
       case Spawn => v == w || exists root :: Spawned(w, v, root)
       case Grow(i, n) => Sized(w, v, i, Target(w.procs[i].sz, n))
       case Alloc(i, to, x, wr) => if to < w.procs[i].sz then v == w else Extended(w, v, i, to, x, wr)
       case Clear(i, n) => Closed(w, v, w.procs[i].root, n)
       case Copy(i, child) =>
         GrewOrNot(w, v, child, w.procs[i].sz)
         && (v.procs != w.procs ==>
               CopyOf(w.mem, w.procs[i].root, v.mem, w.procs[child].root, Pages(w.procs[i].sz)))
       case Touch(i) => Touched(w, v, w.procs[i].root)
       case Exit(i) => Exited(w, v, i)
  }

  lemma GrewKeepsInv(w: World, v: World, i: int, sz: int, ok: bool)
    requires Inv(w) && Sound(v) && InTable(w, i) && w.procs[i].sz <= sz <= MAXPAGES * PGSIZE && Grew(w, v, i, sz, ok)
    ensures Inv(v)
  {
    var p := w.procs[i];
    assert SpaceAt(w, i);
    PagesMonotone(p.sz, sz);
    forall j | InTable(v, j)
      ensures SpaceAt(v, j)
    {
      assert SpaceAt(w, j);
      GrownSpace(w.mem, w.kind, v.mem, v.kind, p.root, Pages(p.sz), Pages(if ok then sz else p.sz),
                 w.procs[j].root, w.procs[j].sz, v.procs[j].sz);
    }
    forall q | IsPage(v.kind, q) && !v.kind[q].Free? && !v.kind[q].Other?
      ensures Owned(v, q)
    {
      OwnedStays(w, v, i, q);
    }
  }

  lemma OwnedStays(w: World, v: World, i: int, q: int)
    requires Accounted(w) && InTable(w, i) && |v.procs| == |w.procs| && |v.kind| == |w.kind| && IsPage(w.kind, q)
    requires forall j :: InTable(w, j) ==> v.procs[j].root == w.procs[j].root
    requires SameUse(w.kind[q], v.kind[q]) || ((v.kind[q].Table? || v.kind[q].Data?)
      && v.kind[q].root == w.procs[i].root)
    requires !v.kind[q].Free? && !v.kind[q].Other?
    ensures Owned(v, q)
  {
    if SameUse(w.kind[q], v.kind[q]) {
      assert Owned(w, q);
      var j :| InTable(w, j) && w.procs[j].root == w.kind[q].root;
      assert InTable(v, j) && v.procs[j].root == v.kind[q].root;
    } else {
      assert InTable(v, i) && v.procs[i].root == v.kind[q].root;
    }
  }

  lemma ShrankKeepsInv(w: World, v: World, i: int, sz: int)
    requires Inv(w) && Sound(v) && InTable(w, i) && 0 <= sz <= w.procs[i].sz && Shrank(w, v, i, sz)
    ensures Inv(v)
  {
    var p := w.procs[i];
    assert SpaceAt(w, i);
    forall j | InTable(v, j)
      ensures SpaceAt(v, j)
    {
      assert SpaceAt(w, j);
      ShrunkSpace(w.mem, w.kind, v.mem, v.kind, p.root, p.sz, sz, w.procs[j].root, w.procs[j].sz, v.procs[j].sz);
    }
    forall q | IsPage(v.kind, q) && !v.kind[q].Free? && !v.kind[q].Other?
      ensures Owned(v, q)
    {
      OwnedStays(w, v, i, q);
    }
  }

  lemma SpawnedKeepsInv(w: World, v: World, root: int)
    requires Inv(w) && Sound(v) && Spawned(w, v, root)
    ensures Inv(v)
  {
    forall j | InTable(v, j)
      ensures SpaceAt(v, j) && (j < |w.procs| ==> v.procs[j].root != root)
    {
      if j < |w.procs| {
        assert SpaceAt(w, j);
        CreatedSpace(w.mem, w.kind, v.mem, v.kind, root, w.procs[j].root, w.procs[j].sz);
      }
    }
    forall q | IsPage(v.kind, q) && !v.kind[q].Free? && !v.kind[q].Other?
      ensures Owned(v, q)
    {
      if q == root {
        assert InTable(v, |w.procs|) && v.procs[|w.procs|].root == root;
      } else {
        assert Owned(w, q);
        var j :| InTable(w, j) && w.procs[j].root == w.kind[q].root;
        assert InTable(v, j) && v.procs[j].root == v.kind[q].root;
      }
    }
  }

  lemma ExitedSpace(w: World, v: World, i: int, j: int)
    requires Inv(w) && InTable(w, i) && Exited(w, v, i) && InTable(v, j)
    ensures SpaceAt(v, j)
  {
    var k := if j < i then j else j + 1;
    assert SpaceAt(w, i) && SpaceAt(w, k);
    assert v.procs[j] == w.procs[k] && w.procs[k].root != w.procs[i].root;
    FreedSpace(w.mem, w.kind, v.mem, v.kind, w.procs[i].root, w.procs[k].root, w.procs[k].sz);
  }

  lemma ExitedOwned(w: World, v: World, i: int, q: int)
    requires Accounted(w) && InTable(w, i) && Exited(w, v, i) && IsPage(v.kind, q) && !v.kind[q].Free?
      && !v.kind[q].Other?
    ensures Owned(v, q)
  {
    assert Owned(w, q);
    var k :| InTable(w, k) && w.procs[k].root == w.kind[q].root;
    var j := if k < i then k else k - 1;
    assert InTable(v, j) && v.procs[j] == w.procs[k];
  }

  lemma ExitedKeepsInv(w: World, v: World, i: int)
    requires Inv(w) && Sound(v) && InTable(w, i) && Exited(w, v, i)
    ensures Inv(v)
  {
    forall j | InTable(v, j)
      ensures SpaceAt(v, j)
    {
      ExitedSpace(w, v, i, j);
    }
    forall q | IsPage(v.kind, q) && !v.kind[q].Free? && !v.kind[q].Other?
      ensures Owned(v, q)
    {
      ExitedOwned(w, v, i, q);
    }
    ExitedApart(w, v, i);
  }

  lemma ExitedApart(w: World, v: World, i: int)
    requires Apart(w) && InTable(w, i) && v.procs == Without(w.procs, i)
    ensures Apart(v)
  {
    forall j, k | 0 <= j < k < |v.procs|
      ensures v.procs[j].root != v.procs[k].root
    {
      assert v.procs[j] == w.procs[if j < i then j else j + 1] && v.procs[k] == w.procs[if k < i then k else k + 1];
    }
  }

  /** Translations do not depend on what data pages hold. */
  lemma TouchedMap(w: World, v: World, root: int, r: int, n: int)
    requires Sound(w) && Sound(v) && Touched(w, v, root) && IsRoot(w.kind, r) && 0 <= n < MAXPAGES
    ensures Map(v.mem, r, PathOf(n)) == Map(w.mem, r, PathOf(n))
  {
    LeafFrame(w.mem, w.kind, v.mem, v.kind, r, PathOf(n));
  }

  /** Pages are mapped where they were, whatever the user may do with them. */
  ghost predicate MappedAlike(w: World, v: World) {
    && v == w.(mem := v.mem)
    && forall r, n :: IsRoot(w.kind, r) && 0 <= n < MAXPAGES ==>
         Map(v.mem, r, PathOf(n)) == Map(w.mem, r, PathOf(n)).(u := Map(v.mem, r, PathOf(n)).u)
  }

  lemma MappedAlikeSpace(w: World, v: World, root: int, sz: int)
    requires MappedAlike(w, v) && Space(w.mem, w.kind, root, sz)
    requires forall n :: 0 <= n < MAXPAGES && n >= Pages(sz) ==> !Map(v.mem, root, PathOf(n)).u
    ensures Space(v.mem, v.kind, root, sz)
  {
    forall n | 0 <= n < Pages(sz)
      ensures InUse(v.mem, v.kind, root, n, true)
    {
      assert InUse(w.mem, w.kind, root, n, true);
    }
    forall n | Pages(sz) <= n < MAXPAGES && 0 <= n
      ensures Map(v.mem, root, PathOf(n)) == ZERO
    {
      assert Map(w.mem, root, PathOf(n)) == ZERO;
    }
  }

  lemma MappedAlikeKeepsInv(w: World, v: World)
    requires Inv(w) && Sound(v) && MappedAlike(w, v)
    requires forall i :: InTable(w, i) ==> SpaceAt(v, i)
    ensures Inv(v)
  {
    forall q | IsPage(v.kind, q) && !v.kind[q].Free? && !v.kind[q].Other?
      ensures Owned(v, q)
    {
      assert Owned(w, q);
      var j :| InTable(w, j) && w.procs[j].root == w.kind[q].root;
      assert InTable(v, j) && v.procs[j].root == v.kind[q].root;
    }
  }

  lemma TouchedKeepsInv(w: World, v: World, root: int)
    requires Inv(w) && Sound(v) && Touched(w, v, root)
    ensures Inv(v)
  {
    forall r, n | IsRoot(w.kind, r) && 0 <= n < MAXPAGES
      ensures Map(v.mem, r, PathOf(n)) == Map(w.mem, r, PathOf(n))
    {
      TouchedMap(w, v, root, r, n);
    }
    forall i | InTable(w, i)
      ensures SpaceAt(v, i)
    {
      assert SpaceAt(w, i);
      MappedAlikeSpace(w, v, w.procs[i].root, w.procs[i].sz);
    }
    MappedAlikeKeepsInv(w, v);
  }

  lemma ClosedKeepsInv(w: World, v: World, i: int, n: int)
    requires Inv(w) && Sound(v) && InTable(w, i) && 0 <= n < Pages(w.procs[i].sz) && Closed(w, v, w.procs[i].root, n)
    ensures Inv(v)
  {
    forall j | InTable(w, j)
      ensures SpaceAt(v, j)
    {
      assert SpaceAt(w, j);
      MappedAlikeSpace(w, v, w.procs[j].root, w.procs[j].sz);
    }
    MappedAlikeKeepsInv(w, v);
  }

  /** Every call keeps the spaces and loses no page, whether or not memory runs out in the middle. */
  lemma StepKeepsInv(w: World, op: Op, v: World)
    requires Inv(w) && Enabled(w, op) && Effect(w, op, v)
    ensures Inv(v)
  {
    match op
    case Spawn =>
      if v != w {
        var root :| Spawned(w, v, root);
        SpawnedKeepsInv(w, v, root);
      }
    case Grow(i, n) => SizedKeepsInv(w, v, i, Target(w.procs[i].sz, n));
    case Alloc(i, to, _, _) =>
      if to >= w.procs[i].sz {
        GrewOrNotKeepsInv(w, v, i, to);
      }
    case Clear(i, n) => ClosedKeepsInv(w, v, i, n);
    case Copy(i, child) =>
      SizeInRange(w, i);
      GrewOrNotKeepsInv(w, v, child, w.procs[i].sz);
    case Touch(i) => TouchedKeepsInv(w, v, w.procs[i].root);
    case Exit(i) => ExitedKeepsInv(w, v, i);
  }

  lemma SizeInRange(w: World, i: int)
    requires Inv(w) && InTable(w, i)
    ensures 0 <= w.procs[i].sz <= MAXPAGES * PGSIZE
  {
    assert SpaceAt(w, i);
  }

  lemma GrewOrNotKeepsInv(w: World, v: World, i: int, sz: int)
    requires Inv(w) && Sound(v) && InTable(w, i) && w.procs[i].sz <= sz <= MAXPAGES * PGSIZE && GrewOrNot(w, v, i, sz)
    ensures Inv(v)
  {
    if Grew(w, v, i, sz, true) {
      GrewKeepsInv(w, v, i, sz, true);
    } else {
      GrewKeepsInv(w, v, i, sz, false);
    }
  }

  lemma SizedKeepsInv(w: World, v: World, i: int, to: int)
    requires Inv(w) && Sound(v) && InTable(w, i) && 0 <= to <= MAXPAGES * PGSIZE && Sized(w, v, i, to)
    ensures Inv(v)
  {
    SizeInRange(w, i);
    if to > w.procs[i].sz {
      GrewOrNotKeepsInv(w, v, i, to);
    } else if to < w.procs[i].sz {
      ShrankKeepsInv(w, v, i, to);
    }
  }

  // ------------------------------------------------------------------ what a process sees

  /** The process whose page table is root finds on page n what it found, with the same entry. */
  ghost predicate SameView(mem0: seq<Page>, mem: seq<Page>, root: int, n: int) {
    0 <= n < MAXPAGES && Map(mem, root, PathOf(n)) == Map(mem0, root, PathOf(n))
    && PageAt(mem, root, n) == PageAt(mem0, root, n)
  }

  lemma AllocedView(mem0: seq<Page>, kind0: seq<Kind>, mem: seq<Page>, kind: seq<Kind>, root: int, lo: int, hi: int,
                    r: int, n: int)
    requires IsRoot(kind0, r) && InUse(mem0, kind0, r, n, true) && Alloced(mem0, kind0, mem, kind, root, lo, hi)
    requires r == root ==> n < lo
    ensures SameView(mem0, mem, r, n)
  {
    assert Map(mem, r, PathOf(n)) == Map(mem0, r, PathOf(n));
  }

  lemma DroppedView(mem0: seq<Page>, kind0: seq<Kind>, mem: seq<Page>, kind: seq<Kind>, root: int, lo: int, hi: int,
                    r: int, n: int)
    requires Tree(mem0, kind0, {}) && IsRoot(kind0, root) && IsRoot(kind0, r) && InUse(mem0, kind0, r, n, true)
    requires Dropped(mem0, kind0, mem, kind, root, lo, hi, true) && 0 <= lo && (r == root ==> n < lo)
    ensures SameView(mem0, mem, r, n)
  {
    DataStays(mem0, kind0, mem, kind, root, lo, hi, r, n);
    assert Map(mem, r, PathOf(n)) == Map(mem0, r, PathOf(n));
  }

  lemma FreedView(mem0: seq<Page>, kind0: seq<Kind>, mem: seq<Page>, kind: seq<Kind>, root: int, r: int, n: int)
    requires Tree(mem0, kind0, {}) && IsRoot(kind0, r) && InUse(mem0, kind0, r, n, true) && r != root
    requires SpaceFreed(kind0, kind, root) && OthersStand(mem0, kind0, mem, kind, root)
    requires InUseKept(mem0, kind0, mem, kind)
    ensures SameView(mem0, mem, r, n)
  {
    assert Stands(mem0, mem, kind, r, n);
    MappedIsOwn(mem0, kind0, r, n);
  }

  lemma CreatedView(mem0: seq<Page>, kind0: seq<Kind>, mem: seq<Page>, kind: seq<Kind>, root: int, r: int, n: int)
    requires Tree(mem0, kind0, {}) && IsRoot(kind0, r) && InUse(mem0, kind0, r, n, true)
    requires Created(mem0, kind0, mem, kind, root)
    ensures SameView(mem0, mem, r, n)
  {
    OnPath(mem0, kind0, r, PathOf(n));
  }

  /** Process j itself gives page n back, by growproc or freeproc, closes it, or stores something in its pages. */
  predicate OwnDoing(w: World, op: Op, v: World, j: int, n: int)
    requires InTable(w, j)
  {
    match op
    case Grow(i, k) => i == j && InTable(v, j) && n >= Pages(v.procs[j].sz)
    case Clear(i, k) => i == j && k == n
    case Touch(i) => i == j
    case Exit(i) => i == j
    case _ => false
  }

  /** Nothing but its own stores and exec changes what a process has on a page that it keeps, however calls end. */
  lemma ViewKept(w: World, op: Op, v: World, j: int, n: int)
    requires Inv(w) && Enabled(w, op) && Effect(w, op, v) && InTable(w, j) && 0 <= n < Pages(w.procs[j].sz)
    requires !OwnDoing(w, op, v, j, n)
    ensures SameView(w.mem, v.mem, w.procs[j].root, n)
  {
    var r := w.procs[j].root;
    assert SpaceAt(w, j);
    assert InUse(w.mem, w.kind, r, n, true);
    match op
    case Spawn =>
      if v != w {
        var root :| Spawned(w, v, root);
        CreatedView(w.mem, w.kind, v.mem, v.kind, root, r, n);
      }
    case Grow(i, k) => SizedView(w, v, i, Target(w.procs[i].sz, k), j, n);
    case Alloc(i, to, _, _) =>
      if to >= w.procs[i].sz {
        GrewView(w, v, i, to, j, n);
      }
    case Clear(i, k) =>
      ClosedView(w, v, w.procs[i].root, k, r, n);
    case Copy(i, child) =>
      SizeInRange(w, i);
      GrewView(w, v, child, w.procs[i].sz, j, n);
    case Touch(i) =>
      TouchedView(w, v, w.procs[i].root, r, n);
    case Exit(i) =>
      assert SpaceAt(w, i);
      assert w.procs[j].root != w.procs[i].root;
      FreedView(w.mem, w.kind, v.mem, v.kind, w.procs[i].root, r, n);
  }

  lemma ClosedView(w: World, v: World, root: int, k: int, r: int, n: int)
    requires Sound(w) && Closed(w, v, root, k) && IsRoot(w.kind, r) && (r != root || n != k)
    requires InUse(w.mem, w.kind, r, n, true)
    ensures SameView(w.mem, v.mem, r, n)
  {
    MappedIsOwn(w.mem, w.kind, r, n);
  }

  lemma TouchedView(w: World, v: World, root: int, r: int, n: int)
    requires Sound(w) && Sound(v) && Touched(w, v, root) && IsRoot(w.kind, r) && r != root
    requires InUse(w.mem, w.kind, r, n, true)
    ensures SameView(w.mem, v.mem, r, n)
  {
    TouchedMap(w, v, root, r, n);
    MappedIsOwn(w.mem, w.kind, r, n);
  }

  lemma GrewView(w: World, v: World, i: int, sz: int, j: int, n: int)
    requires Inv(w) && InTable(w, i) && InTable(w, j) && w.procs[i].sz <= sz && GrewOrNot(w, v, i, sz)
    requires 0 <= n < Pages(w.procs[j].sz) && InUse(w.mem, w.kind, w.procs[j].root, n, true)
    ensures SameView(w.mem, v.mem, w.procs[j].root, n)
  {
    assert SpaceAt(w, i) && SpaceAt(w, j);
    var p := w.procs[i];
    if Grew(w, v, i, sz, true) {
      AllocedView(w.mem, w.kind, v.mem, v.kind, p.root, Pages(p.sz), Pages(sz), w.procs[j].root, n);
    } else {
      AllocedView(w.mem, w.kind, v.mem, v.kind, p.root, Pages(p.sz), Pages(p.sz), w.procs[j].root, n);
    }
  }

  lemma SizedView(w: World, v: World, i: int, to: int, j: int, n: int)
    requires Inv(w) && InTable(w, i) && InTable(w, j) && 0 <= to && Sized(w, v, i, to)
    requires 0 <= n < Pages(w.procs[j].sz) && InUse(w.mem, w.kind, w.procs[j].root, n, true)
    requires i == j && InTable(v, j) ==> n < Pages(v.procs[j].sz)
    ensures SameView(w.mem, v.mem, w.procs[j].root, n)
  {
    var p := w.procs[i];
    assert SpaceAt(w, i) && SpaceAt(w, j);
    if to > p.sz {
      GrewView(w, v, i, to, j, n);
    } else if to < p.sz {
      PagesMonotone(0, to);
      DroppedView(w.mem, w.kind, v.mem, v.kind, p.root, Pages(to), Pages(p.sz), w.procs[j].root, n);
    }
  }

  /** The first count processes see what they saw. */
  ghost predicate ViewsKept(w: World, v: World, count: int) {
    forall j, n :: 0 <= j < count && InTable(w, j) && 0 <= n < Pages(w.procs[j].sz) ==>
      SameView(w.mem, v.mem, w.procs[j].root, n)
  }

  /** A call that gives nothing back keeps all views, and freeproc those of the processes in front. */
  lemma StepKeepsViews(w: World, op: Op, v: World, count: int)
    requires Inv(w) && Enabled(w, op) && Effect(w, op, v)
    requires op.Spawn? || op.Alloc? || op.Copy? || (op.Exit? && count <= op.i)
    ensures ViewsKept(w, v, count)
  {
    forall j, n | 0 <= j < count && InTable(w, j) && 0 <= n < Pages(w.procs[j].sz)
      ensures SameView(w.mem, v.mem, w.procs[j].root, n)
    {
      ViewKept(w, op, v, j, n);
    }
  }

  lemma ViewsJoin(w: World, u: World, v: World, count: int)
    requires ViewsKept(w, u, count) && ViewsKept(u, v, count)
    requires forall j :: 0 <= j < count && InTable(w, j) ==> InTable(u, j) && u.procs[j] == w.procs[j]
    ensures ViewsKept(w, v, count)
  {
    forall j, n | 0 <= j < count && InTable(w, j) && 0 <= n < Pages(w.procs[j].sz)
      ensures SameView(w.mem, v.mem, w.procs[j].root, n)
    {
      assert SameView(w.mem, u.mem, w.procs[j].root, n) && SameView(u.mem, v.mem, u.procs[j].root, n);
    }
  }

  /** A copy of what process i has now is a copy of what it had before the child was made. */
  lemma CopyOfFirst(w: World, u: World, v: World, i: int, child: int)
    requires InTable(w, i) && InTable(u, i) && u.procs[i] == w.procs[i] && ViewsKept(w, u, |w.procs|)
    requires CopyOf(u.mem, u.procs[i].root, v.mem, child, Pages(u.procs[i].sz))
    ensures CopyOf(w.mem, w.procs[i].root, v.mem, child, Pages(w.procs[i].sz))
  {
    forall n | 0 <= n < Pages(w.procs[i].sz) && n < MAXPAGES
      ensures NewPage(v.mem, child, n, Map(w.mem, w.procs[i].root, PathOf(n)), PageAt(w.mem, w.procs[i].root, n))
    {
      assert SameView(w.mem, u.mem, w.procs[i].root, n);
    }
  }

  // ------------------------------------------------------------------ runs

  /** The worlds between the calls. */
  ghost predicate Runs(w: World, ops: seq<Op>, between: seq<World>, v: World)
    decreases |ops|
  {
    && |between| == |ops|
    && if ops == [] then w == v
       else Enabled(w, ops[0]) && Effect(w, ops[0], between[0]) && Runs(between[0], ops[1..], between[1..], v)
  }

  lemma {:induction false} RunKeepsInv(w: World, ops: seq<Op>, between: seq<World>, v: World)
    requires Inv(w) && Runs(w, ops, between, v)
    ensures Inv(v) && |v.kind| == |w.kind|
    ensures forall q :: IsPage(w.kind, q) ==> (v.kind[q].Other? <==> w.kind[q].Other?)
    decreases |ops|
  {
    if ops != [] {
      StepKeepsInv(w, ops[0], between[0]);
      StepKeepsOthers(w, ops[0], between[0]);
      RunKeepsInv(between[0], ops[1..], between[1..], v);
    }
  }

  /** Pages that are none of kalloc's are none afterwards. */
  ghost predicate OthersSame(w: World, v: World) {
    |v.kind| == |w.kind| && forall q :: IsPage(w.kind, q) ==> (v.kind[q].Other? <==> w.kind[q].Other?)
  }

  lemma GrewOthers(w: World, v: World, i: int, sz: int)
    requires InTable(w, i) && GrewOrNot(w, v, i, sz)
    ensures OthersSame(w, v)
  {
  }

  lemma StepKeepsOthers(w: World, op: Op, v: World)
    requires Inv(w) && Enabled(w, op) && Effect(w, op, v)
    ensures OthersSame(w, v)
  {
    match op
    case Grow(i, n) => SizedOthers(w, v, i, Target(w.procs[i].sz, n));
    case Alloc(i, to, _, _) =>
      if to >= w.procs[i].sz {
        GrewOthers(w, v, i, to);
      }
    case Copy(i, child) => GrewOthers(w, v, child, w.procs[i].sz);
    case _ =>
  }

  lemma SizedOthers(w: World, v: World, i: int, to: int)
    requires InTable(w, i) && Sized(w, v, i, to)
    ensures OthersSame(w, v)
  {
    if to > w.procs[i].sz {
      GrewOthers(w, v, i, to);
    }
  }

  /**
   After any run of spawns, grows, shrinks, copies, stores, execs and exits, with memory running out wherever it
   does: every space that is left meets what uvmfree asks for, so that freewalk meets no leaf, and
   once every process has exited exactly the pages that were free before are free again, each on
   the free list once.
   */
  lemma EveryPageComesBack(w: World, ops: seq<Op>, between: seq<World>, v: World)
    requires Inv(w) && w.procs == [] && Runs(w, ops, between, v)
    ensures forall i :: InTable(v, i) ==> Space(v.mem, v.kind, v.procs[i].root, v.procs[i].sz)
    ensures v.procs == [] ==> forall q :: q in v.free <==> q in w.free
    ensures forall j, k :: 0 <= j < k < |v.free| ==> v.free[j] != v.free[k]
  {
    RunKeepsInv(w, ops, between, v);
    forall i | InTable(v, i)
      ensures Space(v.mem, v.kind, v.procs[i].root, v.procs[i].sz)
    {
      assert SpaceAt(v, i);
    }
    OnFreeList(w);
    OnFreeList(v);
    if v.procs == [] {
      forall q
        ensures q in v.free <==> q in w.free
      {
        assert IsPage(w.kind, q) ==>
          (v.kind[q].Free? <==> !v.kind[q].Other?) && (w.kind[q].Free? <==> !w.kind[q].Other?);
      }
    }
  }

  /** The free list has exactly the free pages, once each. */
  lemma OnFreeList(w: World)
    requires Sound(w)
    ensures forall q :: q in w.free <==> IsPage(w.kind, q) && w.kind[q].Free?
    ensures forall j, k :: 0 <= j < k < |w.free| ==> w.free[j] != w.free[k]
  {
  }

  /** The call changes the size of the space under root, what its pages hold or permit, or takes it away. */
  predicate Acts(w: World, op: Op, root: int)
    requires Enabled(w, op)
  {
    match op
    case Spawn => false
    case Grow(i, _) => w.procs[i].root == root
    case Alloc(i, _, _, _) => w.procs[i].root == root
    case Clear(i, _) => w.procs[i].root == root
    case Copy(_, child) => w.procs[child].root == root
    case Touch(i) => w.procs[i].root == root
    case Exit(i) => w.procs[i].root == root
  }

  /** No call of the run acts on root's space. */
  ghost predicate Beside(w: World, ops: seq<Op>, between: seq<World>, root: int)
    decreases |ops|
  {
    |between| == |ops|
    && (ops == [] || (Enabled(w, ops[0]) && !Acts(w, ops[0], root) && Beside(between[0], ops[1..], between[1..], root)))
  }

  /** Isolation: whatever the others do, and wherever memory runs out, a process keeps what it has on every page. */
  lemma {:induction false} RunKeepsView(w: World, ops: seq<Op>, between: seq<World>, v: World, p: Proc, n: int)
    requires Inv(w) && Runs(w, ops, between, v) && Beside(w, ops, between, p.root)
    requires p in w.procs && 0 <= n < Pages(p.sz)
    ensures p in v.procs && SameView(w.mem, v.mem, p.root, n)
    decreases |ops|
  {
    var j :| InTable(w, j) && w.procs[j] == p;
    if ops == [] {
      assert SpaceAt(w, j);
      assert InUse(w.mem, w.kind, p.root, n, true);
    } else {
      var u := between[0];
      StepKeepsInv(w, ops[0], u);
      BesideKeeps(w, ops[0], u, j);
      ViewKept(w, ops[0], u, j, n);
      RunKeepsView(u, ops[1..], between[1..], v, p, n);
    }
  }

  lemma BesideKeeps(w: World, op: Op, v: World, j: int)
    requires Enabled(w, op) && Effect(w, op, v) && InTable(w, j) && !Acts(w, op, w.procs[j].root)
    ensures w.procs[j] in v.procs
    ensures (op.Grow? || op.Clear? || op.Touch? || op.Exit?) ==> op.i != j
  {
    if op.Exit? {
      assert v.procs[if j < op.i then j else j - 1] == w.procs[j];
    } else if InTable(v, j) {
      assert v.procs[j] == w.procs[j];
    }
  }

  // ------------------------------------------------------------------ the calls

  class Processes {
    const m: Machine
    var procs: seq<Proc>

    ghost function Now(): World
      reads this, m
    {
      World(m.mem, m.kind, m.head, m.free, procs)
    }

    ghost predicate Valid()
      reads this, m
    {
      Inv(Now())
    }

    /** After kinit: no process, all of kalloc's pages free. */
    constructor (first: int, contents: seq<Page>)
      requires 1 <= first <= |contents| && forall q :: 0 <= q < |contents| ==> |contents[q]| == ENTRIES
      ensures Valid() && fresh(m) && procs == []
      ensures forall q :: IsPage(m.kind, q) ==> if q < first then m.kind[q].Other? else m.kind[q].Free?
    {
      m := new Machine(first, contents);
      procs := [];
    }

    /** The page table of allocproc. */
    method Spawn() returns (ok: bool)
      requires Valid()
      modifies this, m
      ensures Valid() && Effect(old(Now()), Op.Spawn, Now())
      ensures ok ==> |procs| == |old(procs)| + 1 && procs == old(procs) + [Proc(procs[|old(procs)|].root, 0)]
      ensures !ok ==> Now() == old(Now()) && old(m.free) == []
      ensures |m.free| >= |old(m.free)| - 1
    {
      ghost var w := Now();
      var root := m.Uvmcreate();
      ok := root != NONE;
      if ok {
        procs := procs + [Proc(root, 0)];
        assert Spawned(w, Now(), root);
      }
      StepKeepsInv(w, Op.Spawn, Now());
    }

    /** growproc, up to the size of an address space; with three pages free for each one asked for it does not fail. */
    method Growproc(i: int, n: int) returns (r: int)
      requires Valid() && Enabled(Now(), Grow(i, n))
      modifies this, m
      ensures Valid() && Effect(old(Now()), Grow(i, n), Now())
      ensures r == 0 || (r == -1 && n > 0 && procs == old(procs))
      ensures r == -1 ==> |old(m.free)| < 3 * (Pages(old(procs)[i].sz + n) - Pages(old(procs)[i].sz))
      ensures r == 0 ==> procs == old(procs)[i := old(procs)[i].(sz := Target(old(procs)[i].sz, n))]
      ensures r == 0 && n > 0 ==>
        Zeroed(m.mem, procs[i].root, Pages(old(procs)[i].sz), Pages(old(procs)[i].sz + n), false, true)
      ensures forall j, k :: 0 <= j < |procs| && 0 <= k < Pages(procs[j].sz) && k < Pages(old(procs)[j].sz) ==>
        SameView(old(m.mem), m.mem, procs[j].root, k)
    {
      ghost var w := Now();
      r := Resize(i, n);
      StepKeepsInv(w, Grow(i, n), Now());
      ResizedViews(w, Now(), i, n);
    }

    method Resize(i: int, n: int) returns (r: int)
      requires Valid() && Enabled(Now(), Grow(i, n))
      modifies this, m
      ensures Sound(Now()) && Sized(old(Now()), Now(), i, Target(old(procs)[i].sz, n))
      ensures r == 0 || (r == -1 && n > 0 && procs == old(procs))
      ensures r == -1 ==> |old(m.free)| < 3 * (Pages(old(procs)[i].sz + n) - Pages(old(procs)[i].sz))
      ensures r == 0 ==> procs == old(procs)[i := old(procs)[i].(sz := Target(old(procs)[i].sz, n))]
    {
      ghost var goal := Target(procs[i].sz, n);
      r := 0;
      if n > 0 {
        r := Extend(i, procs[i].sz + n, goal);
      } else if n < 0 {
        Reduce(i, Less(procs[i].sz, n), goal);
      }
    }

    /** growproc for a positive n. */
    method Extend(i: int, to: int, ghost goal: int) returns (r: int)
      requires Valid() && 0 <= i < |procs| && 0 <= procs[i].sz < to <= MAXPAGES * PGSIZE && goal == to
      modifies this, m
      ensures Sound(Now()) && Sized(old(Now()), Now(), i, goal)
      ensures if r == 0 then procs == old(procs)[i := old(procs)[i].(sz := to)] else r == -1 && procs == old(procs)
      ensures r == -1 ==> |old(m.free)| < 3 * (Pages(to) - Pages(old(procs)[i].sz))
    {
      ghost var w := Now();
      var p := procs[i];
      assert SpaceAt(Now(), i);
      var sz, ok := m.Uvmalloc(p.root, p.sz, to, ZERO.(w := true));
      if sz == 0 {
        assert Grew(w, Now(), i, to, false);
        return -1;
      }
      procs := procs[i := p.(sz := sz)];
      assert Grew(w, Now(), i, to, true);
      r := 0;
    }

    /** growproc for a negative n. */
    method Reduce(i: int, to: int, ghost goal: int)
      requires Valid() && 0 <= i < |procs| && 0 <= to && goal == (if to < procs[i].sz then to else procs[i].sz)
      modifies this, m
      ensures Sound(Now()) && Sized(old(Now()), Now(), i, goal)
      ensures procs == old(procs)[i := old(procs)[i].(sz := goal)]
    {
      var p := procs[i];
      assert SpaceAt(Now(), i);
      if to < p.sz {
        ReduceMay(Now(), i, to);
      }
      var sz := m.Uvmdealloc(p.root, p.sz, to);
      procs := procs[i := p.(sz := sz)];
    }

    /** The uvmalloc of exec: 0, and a larger space with zeroed pages, or -1. */
    method Allocproc(i: int, to: int, x: bool, w: bool) returns (r: int)
      requires Valid() && Enabled(Now(), Alloc(i, to, x, w))
      modifies this, m
      ensures Valid() && Effect(old(Now()), Alloc(i, to, x, w), Now())
      ensures r == 0 || (r == -1 && procs == old(procs))
      ensures r == 0 ==>
        procs == old(procs)[i := old(procs)[i].(sz := if to < old(procs)[i].sz then old(procs)[i].sz else to)]
      ensures r == -1 ==> to == 0 || |old(m.free)| < 3 * (Pages(to) - Pages(old(procs)[i].sz))
    {
      ghost var u := Now();
      var p := procs[i];
      assert SpaceAt(u, i);
      var sz, ok := m.Uvmalloc(p.root, p.sz, to, ZERO.(x := x, w := w));
      if sz == 0 {
        assert to >= p.sz ==> Grew(u, Now(), i, to, false);
        r := -1;
      } else {
        procs := procs[i := p.(sz := sz)];
        assert to >= p.sz ==> Grew(u, Now(), i, to, true);
        r := 0;
      }
      StepKeepsInv(u, Alloc(i, to, x, w), Now());
    }

    /** The uvmclear of exec. */
    method Clearpage(i: int, n: int)
      requires Valid() && Enabled(Now(), Clear(i, n))
      modifies this, m
      ensures Valid() && Effect(old(Now()), Clear(i, n), Now()) && procs == old(procs)
    {
      ghost var u := Now();
      assert SpaceAt(u, i);
      assert InUse(u.mem, u.kind, procs[i].root, n, true);
      m.Uvmclear(procs[i].root, n);
      StepKeepsInv(u, Clear(i, n), Now());
    }

    /** The uvmcopy of fork: the child's pages hold what the parent's hold, with the same permissions. */
    method Copyproc(i: int, child: int) returns (r: int)
      requires Valid() && Enabled(Now(), Copy(i, child))
      modifies this, m
      ensures Valid() && Effect(old(Now()), Copy(i, child), Now())
      ensures r == 0 ==> procs == old(procs)[child := old(procs)[child].(sz := old(procs)[i].sz)]
      ensures r == 0 ==>
        CopyOf(old(m.mem), old(procs)[i].root, m.mem, old(procs)[child].root, Pages(old(procs)[i].sz))
      ensures r != 0 ==> procs == old(procs) && |old(m.free)| < 3 * Pages(old(procs)[i].sz)
    {
      ghost var w := Now();
      var p, c := procs[i], procs[child];
      assert SpaceAt(w, i) && SpaceAt(w, child);
      CopyMay(w, i, child);
      r := m.Uvmcopy(p.root, c.root, p.sz);
      if r == 0 {
        procs := procs[child := c.(sz := p.sz)];
      }
      StepKeepsInv(w, Copy(i, child), Now());
    }

    /** freeproc's proc_freepagetable. */
    method Freeproc(i: int)
      requires Valid() && 0 <= i < |procs|
      modifies this, m
      ensures Valid() && Effect(old(Now()), Exit(i), Now()) && procs == Without(old(procs), i)
    {
      ghost var w := Now();
      assert SpaceAt(w, i);
      m.Uvmfree(procs[i].root, procs[i].sz);
      procs := Without(procs, i);
      StepKeepsInv(w, Exit(i), Now());
    }

    /**
     fork: a child as large as the parent, whose pages hold what the parent's held, or on failure the
     processes as they were. It does not fail when more than three pages are free for each one of the
     parent. What the processes there were have in memory stays.
     */
    method Fork(i: int) returns (r: int)
      requires Valid() && 0 <= i < |procs|
      modifies this, m
      ensures Valid() && (r == 0 || r == -1)
      ensures r == -1 ==> procs == old(procs) && |old(m.free)| <= 3 * Pages(old(procs)[i].sz)
      ensures r == 0 ==> |procs| == |old(procs)| + 1
      ensures r == 0 ==> procs == old(procs) + [Proc(procs[|old(procs)|].root, old(procs)[i].sz)]
      ensures r == 0 ==>
        CopyOf(old(m.mem), old(procs)[i].root, m.mem, procs[|old(procs)|].root, Pages(old(procs)[i].sz))
      ensures ViewsKept(old(Now()), Now(), |old(procs)|)
    {
      ghost var w := Now();
      assert SpaceAt(w, i);
      var child := |procs|;
      var ok := Spawn();
      StepKeepsViews(w, Op.Spawn, Now(), child);
      if !ok {
        return -1;
      }
      r := CopyOrFree(i, child, w);
    }

    /** The rest of fork; w is how it began. */
    method CopyOrFree(i: int, child: int, ghost w: World) returns (r: int)
      requires Valid() && child == |procs| - 1 == |w.procs| && 0 <= i < child && procs[..child] == w.procs
      requires procs[child].sz == 0 && ViewsKept(w, Now(), child)
      modifies this, m
      ensures Valid() && (r == 0 || r == -1)
      ensures r == -1 ==> procs == w.procs && |old(m.free)| < 3 * Pages(w.procs[i].sz)
      ensures r == 0 ==> procs == old(procs)[child := old(procs)[child].(sz := w.procs[i].sz)]
      ensures r == 0 ==> CopyOf(w.mem, w.procs[i].root, m.mem, procs[child].root, Pages(w.procs[i].sz))
      ensures ViewsKept(w, Now(), child)
    {
      ghost var u := Now();
      r := Copyproc(i, child);
      StepKeepsViews(u, Copy(i, child), Now(), child);
      ViewsJoin(w, u, Now(), child);
      if r == 0 {
        CopyOfFirst(w, u, Now(), i, procs[child].root);
      } else {
        DropChild(child, w);
        r := -1;
      }
    }

    method DropChild(child: int, ghost w: World)
      requires Valid() && child == |procs| - 1 == |w.procs| && procs[..child] == w.procs && ViewsKept(w, Now(), child)
      modifies this, m
      ensures Valid() && procs == w.procs && ViewsKept(w, Now(), child)
    {
      ghost var u := Now();
      Freeproc(child);
      StepKeepsViews(u, Exit(child), Now(), child);
      ViewsJoin(w, u, Now(), child);
    }
  }

  lemma ResizedViews(w: World, v: World, i: int, k: int)
    requires Inv(w) && Enabled(w, Grow(i, k)) && Effect(w, Grow(i, k), v)
    ensures |v.procs| == |w.procs|
    ensures forall j, n :: 0 <= j < |v.procs| && 0 <= n < Pages(v.procs[j].sz) && n < Pages(w.procs[j].sz) ==>
      SameView(w.mem, v.mem, v.procs[j].root, n)
  {
    forall j, n | 0 <= j < |v.procs| && 0 <= n < Pages(v.procs[j].sz) && n < Pages(w.procs[j].sz)
      ensures SameView(w.mem, v.mem, v.procs[j].root, n)
    {
      ViewKept(w, Grow(i, k), v, j, n);
    }
  }

  lemma ReduceMay(w: World, i: int, to: int)
    requires Inv(w) && InTable(w, i) && 0 <= to < w.procs[i].sz
    ensures RangeInUse(w.mem, w.kind, w.procs[i].root, Pages(to), Pages(w.procs[i].sz), true)
  {
    var p := w.procs[i];
    assert SpaceAt(w, i);
    PagesMonotone(to, p.sz);
    forall k | Pages(to) <= k < Pages(p.sz)
      ensures InUse(w.mem, w.kind, p.root, k, true)
    {
      assert InUse(w.mem, w.kind, p.root, k, true);
    }
  }

  lemma CopyMay(w: World, i: int, child: int)
    requires Inv(w) && Enabled(w, Copy(i, child))
    ensures w.procs[i].root != w.procs[child].root
    ensures RangeInUse(w.mem, w.kind, w.procs[i].root, 0, Pages(w.procs[i].sz), false)
    ensures RangeUnmapped(w.mem, w.procs[child].root, 0, Pages(w.procs[i].sz))
  {
    assert SpaceAt(w, i) && SpaceAt(w, child);
    forall n | 0 <= n < Pages(w.procs[i].sz)
      ensures InUse(w.mem, w.kind, w.procs[i].root, n, false)
    {
      assert InUse(w.mem, w.kind, w.procs[i].root, n, true);
    }
  }
}
