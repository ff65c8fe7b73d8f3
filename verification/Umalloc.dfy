/**
 The Kernighan and Ritchie allocator of user/umalloc.c.

 Addresses and sizes count units of one Header (16 bytes); address 0 is the null pointer. The
 maps `ptr` and `size` hold the two fields of the headers that have been written. Ghost state
 names what the code only implies: the set of free blocks, the set of allocated blocks, and the
 block that every unit belongs to.
 */
module Umalloc {
  import opened Params

  type Field = seq<int>

  const HEADER_BYTES := 16
  const MIN_UNITS := 4096

  ghost predicate Within(addresses: set<int>, f: Field) {
    forall a :: a in addresses ==> 0 <= a < |f|
  }

  /** Free blocks in address order never overlap; only a block of slack may touch the next one. */
  ghost predicate Ordered(free: set<int>, size: Field, base: int, slack: set<int>) {
    && base in free && base > 0 && Within(free, size) && size[base] == 0
    && (forall a :: a in free && a != base ==> base < a && size[a] >= 1)
    && (forall a, b :: a in free && b in free && a < b ==>
          a + size[a] <= b && (a + size[a] == b ==> a in slack))
  }

  /** Every pointer leads to the next free block, and the highest block points back to base. */
  ghost predicate Linked(free: set<int>, ptr: Field, base: int) {
    && base in free && Within(free, ptr)
    && (forall a :: a in free ==> base <= a)
    && (forall a {:trigger ptr[a]} :: a in free ==> ptr[a] in free && (ptr[a] > a || ptr[a] == base))
    && (forall a, b {:trigger ptr[a], b in free} :: a in free && b in free && a < b ==> a < ptr[a] <= b)
  }

  ghost predicate InBlock(size: Field, a: int, u: int) {
    0 <= a < |size| && a <= u < a + size[a]
  }

  /**
   The blocks partition the units obtained from sbrk: cover names u's block, and is 0 for a
   unit that does not come from sbrk.
   */
  ghost predicate CoverOk(blocks: set<int>, size: Field, cover: Field) {
    && |cover| == |size| && Within(blocks, size) && 0 !in blocks
    && (forall a :: a in blocks ==> size[a] >= 1 && a + size[a] <= |cover|)
    && (forall u :: 0 <= u < |cover| && cover[u] != 0 ==> cover[u] in blocks && InBlock(size, cover[u], u))
    && (forall a, u :: a in blocks && InBlock(size, a, u) ==> cover[u] == a)
  }

  function Remap(cover: Field, lo: int, hi: int, a: int): (r: Field)
    ensures |r| == |cover|
    ensures forall u :: 0 <= u < |r| ==> r[u] == if lo <= u < hi then a else cover[u]
  {
    seq(|cover|, u requires 0 <= u < |cover| => if lo <= u < hi then a else cover[u])
  }

  /** Two different blocks share no unit. */
  lemma BlocksDisjoint(blocks: set<int>, size: Field, cover: Field, a: int, b: int)
    requires CoverOk(blocks, size, cover) && a in blocks && b in blocks && a != b
    ensures a + size[a] <= b || b + size[b] <= a
  {
    if a < b {
      assert InBlock(size, b, b);
    } else {
      assert InBlock(size, a, a);
    }
  }

  /** A unit comes from sbrk exactly when some block, free or allocated, contains it; only one does. */
  lemma UnitInOneBlock(blocks: set<int>, size: Field, cover: Field, u: int)
    requires CoverOk(blocks, size, cover) && 0 <= u < |cover|
    ensures cover[u] != 0 <==> exists a :: a in blocks && InBlock(size, a, u)
    ensures forall a, b :: a in blocks && b in blocks && InBlock(size, a, u) && InBlock(size, b, u) ==> a == b
  {
    if a :| a in blocks && InBlock(size, a, u) {
      assert cover[u] == a;
    }
  }

  lemma {:induction false} Highest(s: set<int>, low: int, n: int) returns (top: int)
    requires low in s && forall a :: a in s ==> a < n
    ensures top in s && forall a :: a in s ==> a <= top
    decreases n - low
  {
    if n - 1 in s {
      top := n - 1;
    } else {
      top := Highest(s, low, n - 1);
    }
  }

  /** The list has one wrap point, at its highest block, and it leads to base. */
  lemma SingleWrap(free: set<int>, ptr: Field, base: int) returns (top: int)
    requires Linked(free, ptr, base)
    ensures top in free && ptr[top] == base
    ensures forall a :: a in free ==> a <= top && 0 <= a < |ptr| && (ptr[a] <= a <==> a == top)
  {
    top := Highest(free, base, |ptr|);
    assert ptr[top] in free;
    forall a | a in free
      ensures ptr[a] <= a <==> a == top
    {
      assert a < top ==> a < ptr[a] <= top;
    }
  }

  // ------------------------------------------------------------------ the effect of free

  /** bp may be linked in behind p, as far as the pointers go. */
  ghost predicate Between(free: set<int>, ptr: Field, base: int, p: int, bp: int) {
    && Linked(free, ptr, base) && p in free && bp !in free && base < bp < |ptr|
    && p < bp && (ptr[p] > bp || ptr[p] == base)
  }

  lemma InsertLinked(free: set<int>, ptr: Field, base: int, p: int, bp: int)
    requires Between(free, ptr, base, p, bp)
    ensures Linked(free + {bp}, ptr[bp := ptr[p]][p := bp], base)
  {
    var f, q := free + {bp}, ptr[bp := ptr[p]][p := bp];
    forall a {:trigger q[a]} | a in f
      ensures q[a] in f && (q[a] > a || q[a] == base)
    {
      InsertedAt(free, ptr, base, p, bp, a);
    }
    forall a, b {:trigger q[a], b in f} | a in f && b in f && a < b
      ensures a < q[a] <= b
    {
      InsertedBetween(free, ptr, base, p, bp, a, b);
    }
  }

  lemma InsertedAt(free: set<int>, ptr: Field, base: int, p: int, bp: int, a: int)
    requires Between(free, ptr, base, p, bp) && a in free + {bp}
    ensures 0 <= a < |ptr|
    ensures var q := ptr[bp := ptr[p]][p := bp]; q[a] in free + {bp} && (q[a] > a || q[a] == base)
  {
    assert ptr[p] in free;
  }

  lemma InsertedBetween(free: set<int>, ptr: Field, base: int, p: int, bp: int, a: int, b: int)
    requires Between(free, ptr, base, p, bp) && a in free + {bp} && b in free + {bp} && a < b
    ensures 0 <= a < |ptr|
    ensures var q := ptr[bp := ptr[p]][p := bp]; a < q[a] <= b
  {
    if a in free && b in free {
      assert a < ptr[a] <= b;
    } else if b == bp {
      assert a in free && ptr[a] in free;
    }
  }

  lemma InsertOrdered(free: set<int>, size: Field, base: int, p: int, bp: int)
    requires Ordered(free, size, base, {}) && 0 <= bp < |size| && size[bp] >= 1 && base < bp
    requires forall a :: a in free ==> a + size[a] <= bp || bp + size[bp] <= a
    requires forall a :: a in free && a + size[a] == bp ==> a == p
    ensures Ordered(free + {bp}, size, base, {p, bp})
  {
  }

  lemma MergeLinked(free: set<int>, ptr: Field, base: int, a: int)
    requires Linked(free, ptr, base) && a in free && ptr[a] > a
    ensures Linked(free - {ptr[a]}, ptr[a := ptr[ptr[a]]], base)
  {
    var c := ptr[a];
    var f, q := free - {c}, ptr[a := ptr[c]];
    assert ptr[c] in free;
    forall x | x in f
      ensures q[x] in f && (q[x] > x || q[x] == base)
    {
      assert ptr[x] in free;
    }
    forall x, y | x in f && y in f && x < y
      ensures x < q[x] <= y
    {
      assert x < ptr[x] <= y;
    }
  }

  lemma MergeOrdered(free: set<int>, size: Field, base: int, a: int, b: int, slack: set<int>)
    requires Ordered(free, size, base, slack)
    requires a in free && a != base && b in free && a + size[a] == b && b !in slack
    ensures Ordered(free - {b}, size[a := size[a] + size[b]], base, slack - {a})
  {
  }

  lemma CoverMerge(blocks: set<int>, size: Field, cover: Field, a: int, b: int)
    requires CoverOk(blocks, size, cover) && a in blocks && b in blocks && a + size[a] == b
    ensures CoverOk(blocks - {b}, size[a := size[a] + size[b]], Remap(cover, b, b + size[b], a))
  {
    var s, c := size[a := size[a] + size[b]], Remap(cover, b, b + size[b], a);
    forall x, u | x in blocks - {b} && InBlock(s, x, u)
      ensures c[u] == x
    {
      if x == a {
        assert InBlock(size, a, u) || InBlock(size, b, u);
      } else {
        assert InBlock(size, x, u);
        assert b <= u < b + size[b] ==> InBlock(size, b, u);
      }
    }
    forall u | 0 <= u < |c| && c[u] != 0
      ensures c[u] in blocks - {b} && InBlock(s, c[u], u)
    {
    }
  }

  lemma CoverSplit(blocks: set<int>, size: Field, cover: Field, p: int, k: int)
    requires CoverOk(blocks, size, cover) && p in blocks && 1 <= k < size[p]
    ensures var q := p + size[p] - k;
            q !in blocks && CoverOk(blocks + {q}, size[p := size[p] - k][q := k], Remap(cover, q, q + k, q))
  {
    var q := p + size[p] - k;
    assert InBlock(size, p, q);
    assert q in blocks ==> InBlock(size, q, q);
    var s, c := size[p := size[p] - k][q := k], Remap(cover, q, q + k, q);
    forall x, u | x in blocks + {q} && InBlock(s, x, u)
      ensures c[u] == x
    {
      if x != q {
        assert InBlock(size, x, u);
        assert q <= u < q + k ==> InBlock(size, p, u);
      }
    }
    forall u | 0 <= u < |c| && c[u] != 0
      ensures c[u] in blocks + {q} && InBlock(s, c[u], u)
    {
      assert q <= u < q + k ==> InBlock(s, q, u);
    }
  }

  /** sbrk: the memory gains a gap that belongs to someone else and a new block of nu units. */
  lemma CoverGrow(blocks: set<int>, size: Field, cover: Field, more: Field, hp: int, nu: int)
    requires CoverOk(blocks, size, cover)
    requires nu >= 1 && |size| <= hp && hp + nu == |size| + |more| && hp > 0
    requires forall i :: 0 <= i < |more| ==> more[i] == 0
    ensures CoverOk(blocks + {hp}, (size + more)[hp := nu], Remap(cover + more, hp, hp + nu, hp))
  {
    var s, c := (size + more)[hp := nu], Remap(cover + more, hp, hp + nu, hp);
    forall x, u | x in blocks + {hp} && InBlock(s, x, u)
      ensures c[u] == x
    {
      if x != hp {
        assert InBlock(size, x, u);
      }
    }
    forall u | 0 <= u < |c| && c[u] != 0
      ensures c[u] in blocks + {hp} && InBlock(s, c[u], u)
    {
      if u < |cover| {
        assert cover[u] in blocks && InBlock(size, cover[u], u);
      }
    }
  }

  /** Blocks that touch are neighbours in the list. */
  lemma TouchIsSuccessor(free: set<int>, ptr: Field, size: Field, base: int, slack: set<int>, a: int, b: int)
    requires Linked(free, ptr, base) && Ordered(free, size, base, slack)
    requires a in free && b in free && a < b && a + size[a] == b
    ensures ptr[a] == b
  {
    assert a < ptr[a] <= b;
    assert ptr[a] in free;
  }

  /** With nothing to merge at a, a needs no slack. */
  lemma DropSlack(free: set<int>, ptr: Field, size: Field, base: int, slack: set<int>, a: int)
    requires Linked(free, ptr, base) && Ordered(free, size, base, slack)
    requires a in free && a + size[a] != ptr[a]
    ensures Ordered(free, size, base, slack - {a})
  {
    forall b | b in free && a < b
      ensures a + size[a] != b
    {
      if a + size[a] == b {
        TouchIsSuccessor(free, ptr, size, base, slack, a, b);
      }
    }
  }

  /** Everything the allocator keeps, with slack as in Ordered. */
  ghost predicate HeapOk(free: set<int>, live: set<int>, ptr: Field, size: Field, cover: Field, base: int,
                         slack: set<int>) {
    && |ptr| == |size|
    && Ordered(free, size, base, slack) && Linked(free, ptr, base)
    && live !! free
    && CoverOk(live + (free - {base}), size, cover)
  }

  /** Block `a` absorbs its successor if they touch; either way it needs no slack afterwards. */
  lemma MergeList(free: set<int>, ptr: Field, size: Field, base: int, slack: set<int>, a: int)
    requires |ptr| == |size| && Ordered(free, size, base, slack) && Linked(free, ptr, base)
    requires a in free && a != base && ptr[a] in free && (a + size[a] == ptr[a] ==> ptr[a] !in slack)
    ensures Ordered(MergedFree(free, ptr, size, a), MergeSize(ptr, size, a), base, slack - {a})
    ensures Linked(MergedFree(free, ptr, size, a), MergePtr(ptr, size, a), base)
  {
    if a + size[a] == ptr[a] {
      MergeLinked(free, ptr, base, a);
      MergeOrdered(free, size, base, a, ptr[a], slack);
    } else {
      DropSlack(free, ptr, size, base, slack, a);
    }
  }

  lemma MergeCover(free: set<int>, live: set<int>, ptr: Field, size: Field, cover: Field, base: int, a: int)
    returns (cover': Field)
    requires |ptr| == |size| && live !! free && CoverOk(live + (free - {base}), size, cover)
    requires 0 <= a < |ptr| && a in free && a != base
    requires 0 <= ptr[a] < |ptr| && ptr[a] in free && (ptr[a] == base ==> a + size[a] != base)
    ensures CoverOk(live + (MergedFree(free, ptr, size, a) - {base}), MergeSize(ptr, size, a), cover')
    ensures SameArena(cover, cover')
  {
    var blocks, b := live + (free - {base}), ptr[a];
    if a + size[a] == b {
      CoverMerge(blocks, size, cover, a, b);
      MergeArena(blocks, size, cover, a, b);
      cover' := Remap(cover, b, b + size[b], a);
      assert live + (free - {b} - {base}) == blocks - {b};
    } else {
      cover' := cover;
    }
  }

  function MergedFree(free: set<int>, ptr: Field, size: Field, a: int): set<int>
    requires 0 <= a < |ptr| == |size|
  {
    if a + size[a] == ptr[a] then free - {ptr[a]} else free
  }

  function MergePtr(ptr: Field, size: Field, a: int): Field
    requires 0 <= a < |ptr| == |size| && 0 <= ptr[a] < |ptr|
  {
    if a + size[a] == ptr[a] then ptr[a := ptr[ptr[a]]] else ptr
  }

  function MergeSize(ptr: Field, size: Field, a: int): Field
    requires 0 <= a < |ptr| == |size| && 0 <= ptr[a] < |ptr|
  {
    if a + size[a] == ptr[a] then size[a := size[a] + size[ptr[a]]] else size
  }

  /** The same units come from sbrk. */
  ghost predicate SameArena(c: Field, d: Field) {
    |c| == |d| && forall u :: 0 <= u < |c| ==> (c[u] == 0 <==> d[u] == 0)
  }

  lemma MergeArena(blocks: set<int>, size: Field, cover: Field, a: int, b: int)
    requires CoverOk(blocks, size, cover) && a in blocks && b in blocks && a + size[a] == b
    ensures SameArena(cover, Remap(cover, b, b + size[b], a))
  {
    forall u | b <= u < b + size[b]
      ensures cover[u] == b
    {
      assert InBlock(size, b, u);
    }
  }

  /** What free leaves in memory, written as its assignments. */
  function FreedPtr(ptr: Field, size: Field, p: int, bp: int): Field
    requires 0 <= p < |ptr| == |size| && 0 <= bp < |ptr| && 0 <= ptr[p] < |ptr|
  {
    var q := if bp + size[bp] == ptr[p] then ptr[bp := ptr[ptr[p]]] else ptr[bp := ptr[p]];
    if p + size[p] == bp then q[p := q[bp]] else q[p := bp]
  }

  function FreedSize(ptr: Field, size: Field, p: int, bp: int): Field
    requires 0 <= p < |ptr| == |size| && 0 <= bp < |ptr| && 0 <= ptr[p] < |ptr|
  {
    var s := if bp + size[bp] == ptr[p] then size[bp := size[bp] + size[ptr[p]]] else size;
    if p + size[p] == bp then s[p := s[p] + s[bp]] else s
  }

  lemma InsertStep(free: set<int>, live: set<int>, ptr: Field, size: Field, cover: Field, base: int, p: int, bp: int)
    requires HeapOk(free, live, ptr, size, cover, base, {})
    requires bp in live && base < bp && p in free && p < bp && (ptr[p] > bp || ptr[p] == base)
    ensures bp !in free
    ensures HeapOk(free + {bp}, live - {bp}, ptr[bp := ptr[p]][p := bp], size, cover, base, {p, bp})
  {
    var blocks := live + (free - {base});
    InsertLinked(free, ptr, base, p, bp);
    forall a | a in free
      ensures a + size[a] <= bp || bp + size[bp] <= a
      ensures a + size[a] == bp ==> a == p
    {
      if a != base {
        BlocksDisjoint(blocks, size, cover, a, bp);
      }
      if a < p {
        assert a + size[a] <= p;
      } else if p < a {
        assert p < ptr[p] <= a;
      }
    }
    InsertOrdered(free, size, base, p, bp);
    assert (live - {bp}) + (free + {bp} - {base}) == blocks;
  }

  lemma FreeKeepsHeap(free: set<int>, live: set<int>, ptr: Field, size: Field, cover: Field, base: int, p: int, bp: int)
    returns (free': set<int>, cover': Field)
    requires HeapOk(free, live, ptr, size, cover, base, {})
    requires bp in live && base < bp && p in free && p < bp && (ptr[p] > bp || ptr[p] == base)
    ensures HeapOk(free', live - {bp}, FreedPtr(ptr, size, p, bp), FreedSize(ptr, size, p, bp), cover', base, {})
    ensures SameArena(cover, cover') && p in free'
  {
    InsertStep(free, live, ptr, size, cover, base, p, bp);
    var ptr0 := ptr[bp := ptr[p]][p := bp];
    free', cover' := UpperStep(free + {bp}, live - {bp}, ptr0, size, cover, base, p, bp);
    var ptr1, size1 := MergePtr(ptr0, size, bp), MergeSize(ptr0, size, bp);
    free', cover' := LowerStep(free', live - {bp}, ptr1, size1, cover', base, p, bp);
    FreedIsMerged(ptr, size, base, p, bp);
  }

  /** free's assignments amount to linking bp in and merging twice. */
  lemma FreedIsMerged(ptr: Field, size: Field, base: int, p: int, bp: int)
    requires 0 < base <= p < bp < |ptr| == |size| && 0 <= ptr[p] < |ptr| && 0 <= ptr[ptr[p]] < |ptr|
    requires ptr[p] == base || ptr[p] > bp
    requires size[bp] >= 1 && p + size[p] <= bp
    ensures var ptr0 := ptr[bp := ptr[p]][p := bp];
            var ptr1, size1 := MergePtr(ptr0, size, bp), MergeSize(ptr0, size, bp);
            && FreedPtr(ptr, size, p, bp) == MergePtr(ptr1, size1, p)
            && FreedSize(ptr, size, p, bp) == MergeSize(ptr1, size1, p)
  {
    assert ptr[p] == base ==> bp + size[bp] != ptr[p];
  }

  lemma UpperStep(free: set<int>, live: set<int>, ptr: Field, size: Field, cover: Field, base: int, p: int, bp: int)
    returns (free': set<int>, cover': Field)
    requires HeapOk(free, live, ptr, size, cover, base, {p, bp})
    requires bp in free && base < bp && p in free && p < bp && ptr[p] == bp
    ensures HeapOk(free', live, MergePtr(ptr, size, bp), MergeSize(ptr, size, bp), cover', base, {p})
    ensures SameArena(cover, cover') && p in free' && bp in free' && MergePtr(ptr, size, bp)[p] == bp
  {
    assert ptr[bp] in free && (ptr[bp] > bp || ptr[bp] == base);
    MergeList(free, ptr, size, base, {p, bp}, bp);
    cover' := MergeCover(free, live, ptr, size, cover, base, bp);
    free' := MergedFree(free, ptr, size, bp);
    assert {p, bp} - {bp} == {p};
  }

  lemma LowerStep(free: set<int>, live: set<int>, ptr: Field, size: Field, cover: Field, base: int, p: int, bp: int)
    returns (free': set<int>, cover': Field)
    requires HeapOk(free, live, ptr, size, cover, base, {p})
    requires bp in free && base < bp && p in free && p < bp && ptr[p] == bp
    ensures HeapOk(free', live, MergePtr(ptr, size, p), MergeSize(ptr, size, p), cover', base, {})
    ensures SameArena(cover, cover') && p in free'
  {
    if p == base {
      DropSlack(free, ptr, size, base, {p}, p);
      free', cover' := free, cover;
    } else {
      MergeList(free, ptr, size, base, {p}, p);
      cover' := MergeCover(free, live, ptr, size, cover, base, p);
      free' := MergedFree(free, ptr, size, p);
    }
    assert {p} - {p} == {};
  }

  /** The free block p or the one after it has at least n units. */
  ghost predicate RoomAt(ptr: Field, size: Field, p: int, n: int) {
    && 0 <= p < |ptr| == |size| && 0 <= ptr[p] < |size|
    && (size[p] >= n || size[ptr[p]] >= n)
  }

  lemma FreedRoom(free: set<int>, live: set<int>, ptr: Field, size: Field, cover: Field, base: int, p: int, bp: int)
    requires HeapOk(free, live, ptr, size, cover, base, {})
    requires bp in live && base < bp && p in free && p < bp && ptr[p] in free && (ptr[p] > bp || ptr[p] == base)
    ensures RoomAt(FreedPtr(ptr, size, p, bp), FreedSize(ptr, size, p, bp), p, size[bp])
    ensures forall a :: a in live && a != bp ==> FreedSize(ptr, size, p, bp)[a] == size[a]
  {
    assert ptr[ptr[p]] in free;
    assert size[ptr[p]] >= 0 && size[p] >= 0;
  }

  // ------------------------------------------------------------------ the effect of malloc

  /** p leaves the list as a whole; prevp is its predecessor. */
  lemma TakeWhole(free: set<int>, live: set<int>, ptr: Field, size: Field, cover: Field, base: int, prevp: int)
    requires HeapOk(free, live, ptr, size, cover, base, {})
    requires prevp in free && ptr[prevp] in free && ptr[prevp] != base
    ensures var p := ptr[prevp];
            HeapOk(free - {p}, live + {p}, ptr[prevp := ptr[p]], size, cover, base, {})
  {
    var p := ptr[prevp];
    MergeLinked(free, ptr, base, prevp);
    assert live + {p} + (free - {p} - {base}) == live + (free - {base});
  }

  /** The last k units of p become a block of their own. */
  lemma TakeTail(free: set<int>, live: set<int>, ptr: Field, size: Field, cover: Field, base: int, p: int, k: int,
                 size': Field, live': set<int>, cover': Field)
    requires HeapOk(free, live, ptr, size, cover, base, {})
    requires p in free && p != base && 1 <= k < size[p]
    requires var q := p + size[p] - k;
             && 0 <= q < |size| && size' == size[p := size[p] - k][q := k]
             && live' == live + {q} && cover' == Remap(cover, q, q + k, q)
    ensures p + size[p] - k !in live
    ensures HeapOk(free, live', ptr, size', cover', base, {})
    ensures SameArena(cover, cover')
    ensures forall a :: a in live && 0 <= a < |size| ==> size'[a] == size[a]
  {
    var q, blocks := p + size[p] - k, live + (free - {base});
    CoverSplit(blocks, size, cover, p, k);
    assert live + {q} + (free - {base}) == blocks + {q};
    TailNotFree(free, size, base, p, q);
    TailArena(blocks, size, cover, p, k);
    assert Ordered(free, size', base, {});
  }

  lemma TailNotFree(free: set<int>, size: Field, base: int, p: int, q: int)
    requires Ordered(free, size, base, {}) && p in free && p < q < p + size[p]
    ensures q !in free
  {
  }

  lemma TailArena(blocks: set<int>, size: Field, cover: Field, p: int, k: int)
    requires CoverOk(blocks, size, cover) && p in blocks && 1 <= k < size[p]
    ensures var q := p + size[p] - k; SameArena(cover, Remap(cover, q, q + k, q))
  {
    var q := p + size[p] - k;
    forall u | q <= u < q + k
      ensures cover[u] == p
    {
      assert InBlock(size, p, u);
    }
  }

  lemma OrderedAgrees(free: set<int>, size: Field, other: Field, base: int, slack: set<int>)
    requires Ordered(free, size, base, slack)
    requires |size| <= |other| && forall a :: a in free && 0 <= a < |size| ==> other[a] == size[a]
    ensures Ordered(free, other, base, slack)
  {
  }

  lemma LinkedAgrees(free: set<int>, ptr: Field, other: Field, base: int)
    requires Linked(free, ptr, base)
    requires |ptr| <= |other| && forall a :: a in free && 0 <= a < |ptr| ==> other[a] == ptr[a]
    ensures Linked(free, other, base)
  {
    assert forall a :: a in free ==> 0 <= a < |ptr|;
  }

  lemma GrowLists(free: set<int>, ptr: Field, size: Field, base: int, n: int, hp: int, nu: int)
    requires Ordered(free, size, base, {}) && Linked(free, ptr, base)
    requires n >= 0 && |size| <= hp < |size| + n
    ensures Ordered(free, (size + Zeros(n))[hp := nu], base, {})
    ensures Linked(free, ptr + Zeros(n), base)
  {
    OrderedAgrees(free, size, (size + Zeros(n))[hp := nu], base, {});
    LinkedAgrees(free, ptr, ptr + Zeros(n), base);
  }

  /** The new block that sbrk's memory becomes before it is handed to free. */
  lemma GrowStep(free: set<int>, live: set<int>, ptr: Field, size: Field, cover: Field, base: int, n: int, hp: int,
                 nu: int)
    requires HeapOk(free, live, ptr, size, cover, base, {})
    requires nu >= 1 && |size| <= hp && hp + nu == |size| + n && base < hp
    ensures hp !in live
    ensures HeapOk(free, live + {hp}, ptr + Zeros(n), (size + Zeros(n))[hp := nu],
                   Remap(cover + Zeros(n), hp, hp + nu, hp), base, {})
  {
    CoverGrow(live + (free - {base}), size, cover, Zeros(n), hp, nu);
    assert live + {hp} + (free - {base}) == live + (free - {base}) + {hp};
    GrowLists(free, ptr, size, base, n, hp, nu);
  }

  function Zeros(n: int): (z: Field)
    requires n >= 0
    ensures |z| == n && forall i :: 0 <= i < n ==> z[i] == 0
  {
    seq(n, i => 0)
  }

  // ------------------------------------------------------------------ the allocator

  function Interval(a: int, n: int): (r: set<int>)
    ensures forall u :: u in r <==> a <= u < a + n
    decreases n
  {
    if n <= 0 then {} else Interval(a, n - 1) + {a + n - 1}
  }

  /** The C conversion of an unsigned byte count to sbrk's int argument. */
  function ToInt32(x: int): int
    requires x >= 0
  {
    var low := x % UINT_LIMIT;
    if low <= INT_MAX then low else low - UINT_LIMIT
  }

  function Units(nbytes: int): int
    requires nbytes >= 0
  {
    (nbytes + HEADER_BYTES - 1) / HEADER_BYTES + 1
  }

  /** The units of a block, its header aside, hold the bytes that were asked for, and no unit is spare. */
  lemma UnitsFit(nbytes: int)
    requires nbytes >= 0
    ensures nbytes <= (Units(nbytes) - 1) * HEADER_BYTES < nbytes + HEADER_BYTES
  {
  }

  /** The units of the largest request. */
  const MAX_UNITS := 268435457
  const MAX_REQUEST := INT_MAX + 1 - 2 * HEADER_BYTES

  /** The units of a request fit in an int of bytes exactly up to MAX_REQUEST, and in 32 bits always. */
  lemma RequestIsExactIff(nbytes: int)
    requires 0 <= nbytes < UINT_LIMIT
    ensures 1 <= Units(nbytes) <= MAX_UNITS
    ensures Units(nbytes) * HEADER_BYTES <= INT_MAX <==> nbytes <= MAX_REQUEST
  {
  }

  /**
   Where the program's memory of n units ends after sbrk(bytes) with the break at p. A negative
   count takes memory away, and one that would leave less than nothing changes nothing.
   */
  function EndAfter(n: int, p: int, bytes: int): (end: int)
    requires 0 <= n <= p
    ensures 0 <= end && (bytes <= 0 ==> end <= n)
  {
    var units := bytes / HEADER_BYTES;
    if bytes > 0 then p + units
    else if p + units < 0 then n
    else if p + units < n then p + units
    else n
  }

  /** The block that morecore labels lies inside the memory sbrk has returned exactly up to INT_MAX bytes. */
  lemma BlockInsideIff(n: int, p: int, nu: int)
    requires 0 <= n <= p && 1 <= nu <= MAX_UNITS
    ensures ToInt32(nu * HEADER_BYTES) % HEADER_BYTES == 0
    ensures p + nu <= EndAfter(n, p, ToInt32(nu * HEADER_BYTES)) <==> nu * HEADER_BYTES <= INT_MAX
  {
  }

  /** The largest request makes memory end one unit behind a header that claims 268435457. */
  lemma LargestRequestOverclaims(n: int, p: int)
    requires 0 <= n <= p
    ensures Units(UINT_LIMIT - 1) == MAX_UNITS
    ensures EndAfter(n, p, ToInt32(Units(UINT_LIMIT - 1) * HEADER_BYTES)) == p + 1
  {
  }

  /** No free block has room for the request. */
  ghost predicate TooSmall(free: set<int>, size: Field, nunits: int) {
    forall a :: a in free && 0 <= a < |size| ==> size[a] < nunits
  }

  /** The units morecore asks for. */
  function AtLeast(nunits: int): int {
    if nunits < MIN_UNITS then MIN_UNITS else nunits
  }

  /** morecore asks for the units of the request, but for 4096 at least. */
  lemma AtLeastIs(nunits: int)
    ensures AtLeast(nunits) >= nunits && AtLeast(nunits) >= 4096 && AtLeast(nunits) in {nunits, 4096}
  {
  }

  class Heap {
    const base := 1
    var ptr: Field
    var size: Field
    var freep: int
    ghost var free: set<int>
    ghost var live: set<int>
    ghost var cover: Field
    ghost var arena: set<int>
    ghost var sbrks: nat

    ghost predicate Valid()
      reads this
    {
      && ArenaOk()
      && if freep == 0 then free == {} && live == {} && |ptr| == |size| > base && arena == {}
         else freep in free && HeapOk(free, live, ptr, size, cover, base, {})
    }

    ghost predicate ArenaOk()
      reads this
    {
      && |cover| == |size|
      && (forall u :: u in arena ==> 0 <= u < |cover|)
      && (forall u :: 0 <= u < |cover| ==> (u in arena <==> cover[u] != 0))
    }

    /** The program's memory before the first malloc. */
    constructor ()
      ensures Valid() && freep == 0 && live == {} && arena == {}
    {
      ptr, size, freep := [0, 0], [0, 0], 0;
      free, live, cover, arena, sbrks := {}, {}, [0, 0], {}, 0;
    }

    method Free(ap: int)
      requires Valid() && ap - 1 in live
      modifies this`ptr, this`size, this`freep, this`free, this`live, this`cover
      ensures Valid()
      ensures live == old(live) - {ap - 1}
      ensures |size| == |old(size)| && forall a :: a in live ==> size[a] == old(size)[a]
      ensures |ptr| == |size| && freep in free && RoomAt(ptr, size, freep, old(size)[ap - 1])
    {
      var bp := ap - 1;
      var p := FindPlace(bp);
      FreedRoom(free, live, ptr, size, cover, base, p, bp);
      ghost var f, c := FreeKeepsHeap(free, live, ptr, size, cover, base, p, bp);
      LinkIn(p, bp);
      free, live, cover := f, live - {bp}, c;
    }

    /** free's assignments once p is found. */
    method LinkIn(p: int, bp: int)
      requires 0 <= p < |ptr| == |size| && 0 <= bp < |ptr| && 0 <= ptr[p] < |ptr| && p != bp
      modifies this`ptr, this`size, this`freep
      ensures ptr == FreedPtr(old(ptr), old(size), p, bp) && size == FreedSize(old(ptr), old(size), p, bp)
      ensures freep == p
    {
      if bp + size[bp] == ptr[p] {
        size := size[bp := size[bp] + size[ptr[p]]];
        ptr := ptr[bp := ptr[ptr[p]]];
      } else {
        ptr := ptr[bp := ptr[p]];
      }
      if p + size[p] == bp {
        size := size[p := size[p] + size[bp]];
        ptr := ptr[p := ptr[bp]];
      } else {
        ptr := ptr[p := bp];
      }
      freep := p;
    }

    /** free's search: the last free block below bp. */
    method FindPlace(bp: int) returns (p: int)
      requires freep in free && bp !in free && bp > base
      requires |ptr| == |size| && Linked(free, ptr, base)
      ensures p in free && p < bp && (ptr[p] > bp || ptr[p] == base)
    {
      p := freep;
      while !(bp > p && bp < ptr[p])
        invariant p in free
        decreases p > bp, set a | a in free && a > p
      {
        if p >= ptr[p] && (bp > p || bp < ptr[p]) {
          break;
        }
        ghost var above, was := (set a | a in free && a > p), p;
        p := ptr[p];
        assert p > was ==> p in above;
      }
    }

    /**
     malloc. A result is the payload of a new block of exactly Units(nbytes) units, carved from
     free memory; no other block changes, and sbrk is asked at most once, and only if no free block
     is large enough. The result is 0 only if sbrk was asked and refused, so that memory is as large as
     before; when sbrk gives memory there is a block. All this holds unless the call is wild: it has
     written a header for more memory than sbrk returned. Then C promises nothing any more, and p is the
     payload of that header. A call that gets memory from sbrk is wild exactly above MAX_REQUEST bytes.
     */
    method Malloc(nbytes: int) returns (p: int, wild: bool)
      requires Valid() && 0 <= nbytes < UINT_LIMIT
      modifies this
      ensures old(sbrks) <= sbrks <= old(sbrks) + 1 && (wild ==> p != 0 && sbrks == old(sbrks) + 1)
      ensures p != 0 ==> 1 <= p && (wild <==> p - 1 + Units(nbytes) > |size|)
      ensures p != 0 && sbrks > old(sbrks) ==> (wild <==> nbytes > MAX_REQUEST)
      ensures wild ==> Overclaims(p - 1, Units(nbytes), |old(size)|)
      ensures !wild ==> Valid()
      ensures p == 0 ==>
        live == old(live) && arena == old(arena) && sbrks == old(sbrks) + 1 && |size| == |old(size)|
      ensures p != 0 && !wild && sbrks > old(sbrks) ==> |size| > |old(size)|
      ensures p != 0 && !wild ==> p - 1 !in old(live) && live == old(live) + {p - 1}
      ensures p != 0 && !wild ==> HasBlock(p, Units(nbytes))
      ensures !wild ==> |size| >= |old(size)| && forall a :: a in old(live) && 0 <= a < |old(size)| ==>
        size[a] == old(size)[a]
      ensures sbrks == old(sbrks) ==> arena == old(arena)
      ensures sbrks > old(sbrks) ==> TooSmall(old(free), old(size), Units(nbytes))
      ensures p != 0 && !wild && sbrks > old(sbrks) ==> Extended(old(arena), arena, |old(size)|, AtLeast(Units(nbytes)))
    {
      RequestIsExactIff(nbytes);
      Start();
      p, wild := Allocate(Units(nbytes));
    }

    /** malloc's first step. */
    method Start()
      requires Valid()
      modifies this`ptr, this`size, this`freep, this`free
      ensures Valid() && freep != 0 && |size| == |old(size)|
      ensures forall a :: a in live && 0 <= a < |size| ==> size[a] == old(size)[a]
      ensures forall a :: a in old(free) && 0 <= a < |size| ==> a in free && size[a] == old(size)[a]
    {
      if freep == 0 {
        Init();
      }
    }

    /** malloc for this many units. */
    method Allocate(nunits: int) returns (p: int, wild: bool)
      requires Valid() && freep != 0 && 1 <= nunits <= MAX_UNITS
      modifies this
      ensures old(sbrks) <= sbrks <= old(sbrks) + 1
      ensures wild ==> p != 0 && sbrks == old(sbrks) + 1 && Overclaims(p - 1, nunits, |old(size)|)
      ensures !wild ==> Valid()
      ensures p == 0 ==>
        live == old(live) && arena == old(arena) && sbrks == old(sbrks) + 1 && |size| == |old(size)|
      ensures p != 0 && !wild && sbrks > old(sbrks) ==> |size| > |old(size)|
      ensures p != 0 && !wild ==> p - 1 !in old(live) && live == old(live) + {p - 1}
      ensures p != 0 && !wild ==> HasBlock(p, nunits)
      ensures !wild ==> |size| >= |old(size)| && forall a :: a in old(live) && 0 <= a < |old(size)| ==>
        size[a] == old(size)[a]
      ensures sbrks == old(sbrks) ==> arena == old(arena)
      ensures sbrks > old(sbrks) ==> TooSmall(old(free), old(size), nunits)
      ensures p != 0 && !wild && sbrks > old(sbrks) ==>
        nunits * HEADER_BYTES <= INT_MAX && Extended(old(arena), arena, |old(size)|, AtLeast(nunits))
    {
      var prevp;
      prevp, wild := Search(nunits);
      if wild {
        p := prevp + 1;
      } else if prevp == 0 {
        p := 0;
      } else {
        p := TakeFit(prevp, ptr[prevp], nunits);
      }
    }

    /** The block with this payload has nunits units, all of them in memory. */
    predicate HasBlock(p: int, nunits: int)
      reads this`size
    {
      1 <= p <= |size| && size[p - 1] == nunits && p - 1 + nunits <= |size|
    }

    method TakeFit(prevp: int, cur: int, nunits: int) returns (p: int)
      requires Valid() && freep != 0 && prevp in free && 0 <= prevp < |ptr| && ptr[prevp] == cur && cur in free
      requires 0 <= cur < |size| && 1 <= nunits <= size[cur]
      modifies this`ptr, this`size, this`freep, this`free, this`live, this`cover
      ensures Valid() && p - 1 !in old(live) && live == old(live) + {p - 1}
      ensures |size| == |old(size)| && HasBlock(p, nunits)
      ensures forall a :: a in old(live) && 0 <= a < |size| ==> size[a] == old(size)[a]
    {
      p := Take(prevp, cur, nunits);
      BlockFits(live, free, size, cover, base, p - 1);
    }

    /**
     malloc's loop: the predecessor of the first block that is large enough, 0 without memory, or
     the place of the header that claims too much.
     */
    method Search(nunits: int) returns (prevp: int, wild: bool)
      requires Valid() && freep != 0 && 1 <= nunits <= MAX_UNITS
      modifies this
      ensures wild ==> Overclaims(prevp, nunits, |old(size)|) && sbrks == old(sbrks) + 1
      ensures !wild ==> Valid() && freep != 0
      ensures !wild && prevp == 0 ==> live == old(live) && arena == old(arena) && sbrks == old(sbrks) + 1
      ensures !wild && prevp == 0 ==> |size| == |old(size)| && forall a :: a in live && 0 <= a < |old(size)| ==>
        size[a] == old(size)[a]
      ensures !wild && prevp != 0 ==> 0 <= prevp < |ptr| && 0 <= ptr[prevp] < |size|
      ensures !wild && prevp != 0 ==> Scanned(prevp, ptr[prevp], nunits) && size[ptr[prevp]] >= nunits
      ensures sbrks > old(sbrks) ==> TooSmall(old(free), old(size), nunits)
      ensures !wild && prevp != 0 ==> Since(old(live), old(free), old(size), old(arena), old(sbrks), nunits)
    {
      prevp, wild := freep, false;
      var cur := ptr[prevp];
      while true
        invariant Valid() && freep != 0 && Scanned(prevp, cur, nunits) && !wild
        invariant Since(old(live), old(free), old(size), old(arena), old(sbrks), nunits)
        decreases old(sbrks) + 1 - sbrks, Todo(cur)
      {
        if size[cur] >= nunits {
          return;
        }
        prevp, wild := Onward(prevp, cur, nunits, old(live), old(free), old(size), old(arena), old(sbrks));
        if wild || prevp == 0 {
          return;
        }
        cur := ptr[prevp];
      }
    }

    /** The header at hp claims memory that sbrk, called when memory had n units, has not returned. */
    ghost predicate Overclaims(hp: int, nunits: int, n: int)
      reads this`size
    {
      && nunits * HEADER_BYTES > INT_MAX && 0 < n <= hp && hp + nunits > |size|
      && |size| == EndAfter(n, hp, ToInt32(nunits * HEADER_BYTES))
    }

    /** Where malloc's loop stands: every block it has passed since freep is too small. */
    ghost predicate Scanned(prevp: int, cur: int, nunits: int)
      reads this
    {
      && prevp in free && 0 <= prevp < |ptr| && ptr[prevp] == cur && cur in free && 0 <= cur < |size|
      && forall a :: a in free && Passed(freep, cur, a) && 0 <= a < |size| ==> size[a] < nunits
    }

    /** The free blocks the loop has not passed. */
    ghost function Todo(cur: int): set<int>
      reads this
    {
      set a | a in free && !Passed(freep, cur, a)
    }

    /** What malloc's loop may have done since the given state: at most one call of morecore. */
    ghost predicate Since(live0: set<int>, free0: set<int>, size0: Field, arena0: set<int>, sbrks0: nat, nunits: int)
      reads this
    {
      && live == live0 && |size| >= |size0|
      && (forall a :: a in live && 0 <= a < |size0| ==> size[a] == size0[a])
      && sbrks0 <= sbrks <= sbrks0 + 1
      && (sbrks == sbrks0 ==> arena == arena0 && free == free0 && size == size0)
      && (sbrks > sbrks0 ==>
            && |size| > |size0| && TooSmall(free0, size0, nunits) && nunits * HEADER_BYTES <= INT_MAX
            && (exists a :: a in free && 0 <= a < |size| && size[a] >= nunits)
            && Extended(arena0, arena, |size0|, AtLeast(nunits)))
    }

    /** The rest of malloc's loop body when the block at cur is too small. */
    method Onward(prevp: int, cur: int, nunits: int,
                  ghost live0: set<int>, ghost free0: set<int>, ghost size0: Field, ghost arena0: set<int>,
                  ghost sbrks0: nat)
      returns (next: int, wild: bool)
      requires Valid() && freep != 0 && Scanned(prevp, cur, nunits)
      requires Since(live0, free0, size0, arena0, sbrks0, nunits)
      requires size[cur] < nunits && 1 <= nunits <= MAX_UNITS
      modifies this
      ensures wild ==> Overclaims(next, nunits, |size0|) && sbrks == sbrks0 + 1
      ensures !wild ==> Valid() && freep != 0 && sbrks >= old(sbrks)
      ensures !wild && next == 0 ==> live == live0 && arena == arena0 && sbrks == sbrks0 + 1
      ensures !wild && next == 0 ==> |size| == |size0| && forall a :: a in live && 0 <= a < |size0| ==>
        size[a] == size0[a]
      ensures !wild && next != 0 ==> 0 <= next < |ptr| && Scanned(next, ptr[next], nunits)
      ensures !wild && next != 0 ==> Since(live0, free0, size0, arena0, sbrks0, nunits)
      ensures sbrks > sbrks0 ==> TooSmall(free0, size0, nunits)
      ensures !wild && next != 0 && sbrks == old(sbrks) ==> Todo(ptr[next]) < old(Todo(cur))
    {
      wild := false;
      if cur == freep {
        assert sbrks == sbrks0 by {
          NothingLeft(nunits);
        }
        next, wild := Morecore(nunits);
      } else {
        next := cur;
        Advance(free, ptr, base, freep, cur);
        assert cur in Todo(cur) && cur !in Todo(ptr[cur]);
      }
    }

    /** When the scan is back at freep and freep is too small, so is every free block. */
    lemma NothingLeft(nunits: int)
      requires freep in free && 0 <= freep < |size| && size[freep] < nunits
      requires forall a :: a in free && Passed(freep, freep, a) && 0 <= a < |size| ==> size[a] < nunits
      ensures forall a :: a in free && 0 <= a < |size| ==> size[a] < nunits
    {
      forall a | a in free && 0 <= a < |size|
        ensures size[a] < nunits
      {
        assert a == freep || Passed(freep, freep, a);
      }
    }

    /** The base block that starts the free list. */
    method Init()
      requires Valid() && freep == 0
      modifies this`ptr, this`size, this`freep, this`free
      ensures Valid() && freep == base && |size| == |old(size)|
    {
      ptr := ptr[base := base];
      freep := base;
      size := size[base := 0];
      free := {base};
      assert live + (free - {base}) == {};
    }

    /** The block cur leaves the free list, whole or by its tail. */
    method Take(prevp: int, cur: int, nunits: int) returns (p: int)
      requires Valid() && freep != 0 && prevp in free && 0 <= prevp < |ptr| && ptr[prevp] == cur && cur in free
      requires 0 <= cur < |size| && 1 <= nunits <= size[cur]
      modifies this`ptr, this`size, this`freep, this`free, this`live, this`cover
      ensures Valid() && freep == prevp && p - 1 !in old(live) && live == old(live) + {p - 1}
      ensures |size| == |old(size)| && 1 <= p <= |size| && size[p - 1] == nunits
      ensures forall a :: a in old(live) && 0 <= a < |size| ==> size[a] == old(size)[a]
    {
      if size[cur] == nunits {
        TakeWhole(free, live, ptr, size, cover, base, prevp);
        ptr := ptr[prevp := ptr[cur]];
        free, live := free - {cur}, live + {cur};
        p := cur + 1;
        freep := prevp;
      } else {
        p := TakeLast(cur, nunits);
        freep := prevp;
      }
    }

    /** The tail case of Take. */
    method TakeLast(cur: int, nunits: int) returns (p: int)
      requires Valid() && freep != 0 && cur in free && cur != base
      requires 0 <= cur < |size| && 1 <= nunits < size[cur]
      modifies this`size, this`live, this`cover
      ensures Valid() && p - 1 !in old(live) && live == old(live) + {p - 1}
      ensures |size| == |old(size)| && 1 <= p <= |size| && size[p - 1] == nunits
      ensures forall a :: a in old(live) && 0 <= a < |size| ==> size[a] == old(size)[a]
    {
      size := size[cur := size[cur] - nunits];
      var q := cur + size[cur];
      size := size[q := nunits];
      live, cover := live + {q}, Remap(cover, q, q + nunits, q);
      p := q + 1;
      TakeTail(free, old(live), ptr, old(size), old(cover), base, cur, nunits, size, live, cover);
    }

    /**
     sbrk: fails, or moves the end of the program's memory; others may have moved the break before.
     Only an extension can fail.
     */
    method Sbrk(bytes: int) returns (p: int)
      requires bytes % HEADER_BYTES == 0 && |ptr| == |size| > 0
      modifies this`ptr, this`size, this`sbrks
      ensures sbrks == old(sbrks) + 1 && |ptr| == |size|
      ensures p == 0 ==> ptr == old(ptr) && size == old(size) && bytes > 0
      ensures p != 0 ==> p >= |old(ptr)| && |size| == EndAfter(|old(size)|, p, bytes)
      ensures p != 0 && bytes > 0 ==> var n := p + bytes / HEADER_BYTES - |old(ptr)|;
                                      n >= 0 && ptr == old(ptr) + Zeros(n) && size == old(size) + Zeros(n)
    {
      sbrks := sbrks + 1;
      var enough: bool := *;
      if bytes > 0 && !enough {
        return 0;
      }
      var gap: int :| gap >= 0;
      p := |ptr| + gap;
      if bytes > 0 {
        ptr := ptr + Zeros(gap + bytes / HEADER_BYTES);
        size := size + Zeros(gap + bytes / HEADER_BYTES);
      } else {
        var end := EndAfter(|size|, p, bytes);
        ptr, size := ptr[..end], size[..end];
      }
    }

    /** morecore: the new memory becomes a block and is freed into the list. */
    method Morecore(nunits: int) returns (p: int, wild: bool)
      requires Valid() && freep != 0 && 1 <= nunits <= MAX_UNITS
      modifies this`ptr, this`size, this`freep, this`free, this`cover, this`arena, this`sbrks, this`live
      ensures sbrks == old(sbrks) + 1
      ensures wild ==> Overclaims(p, nunits, |old(size)|)
      ensures !wild ==> Valid() && freep != 0 && live == old(live)
      ensures !wild ==> |size| >= |old(size)| && forall a :: a in live && 0 <= a < |old(size)| ==>
        size[a] == old(size)[a]
      ensures p == 0 ==>
        ptr == old(ptr) && size == old(size) && freep == old(freep) && free == old(free) && arena == old(arena)
      ensures !wild && p != 0 ==> p == freep && RoomAt(ptr, size, freep, nunits) && nunits * HEADER_BYTES <= INT_MAX
      ensures !wild && p != 0 ==> Extended(old(arena), arena, |old(size)|, AtLeast(nunits)) && |size| > |old(size)|
    {
      p, wild := NewBlock(AtLeast(nunits));
      if !wild && p != 0 {
        p := FreeNew(p, nunits, old(live));
      }
    }

    /** The call of free in morecore. */
    method FreeNew(hp: int, nunits: int, ghost live0: set<int>) returns (p: int)
      requires Valid() && hp !in live0 && live == live0 + {hp} && 0 <= hp < |size| && size[hp] >= nunits
      modifies this`ptr, this`size, this`freep, this`free, this`live, this`cover
      ensures Valid() && live == live0 && freep != 0 && p == freep && RoomAt(ptr, size, p, nunits)
      ensures |size| == |old(size)| && forall a :: a in live ==> 0 <= a < |size| && size[a] == old(size)[a]
    {
      BlockFits(live, free, size, cover, base, hp);
      Free(hp + 1);
      p := freep;
    }

    /** The call of sbrk in morecore, and the header it writes, which is wild if it claims more than sbrk returned. */
    method NewBlock(nu: int) returns (hp: int, wild: bool)
      requires Valid() && freep != 0 && 1 <= nu <= MAX_UNITS
      modifies this`ptr, this`size, this`cover, this`arena, this`sbrks, this`live
      ensures sbrks == old(sbrks) + 1
      ensures hp != 0 ==> (wild <==> nu * HEADER_BYTES > INT_MAX) && (wild <==> hp + nu > |size|)
      ensures wild ==> hp != 0 && Overclaims(hp, nu, |old(size)|)
      ensures !wild ==> Valid()
      ensures !wild ==> |size| >= |old(size)| && forall a :: 0 <= a < |old(size)| ==> size[a] == old(size)[a]
      ensures hp == 0 ==> ptr == old(ptr) && size == old(size) && live == old(live) && arena == old(arena)
      ensures hp != 0 && !wild ==> hp !in old(live) && live == old(live) + {hp} && 0 <= hp < |size| && size[hp] == nu
      ensures hp != 0 && !wild ==> Extended(old(arena), arena, |old(size)|, nu) && |size| > |old(size)|
    {
      ghost var ptr0, size0 := ptr, size;
      BlockInsideIff(0, 0, nu);
      hp := Sbrk(ToInt32(nu * HEADER_BYTES));
      wild := false;
      if hp != 0 {
        BlockInsideIff(|size0|, hp, nu);
        if hp + nu <= |size| {
          Adopt(hp, nu, ptr0, size0);
        } else {
          wild := true;
          if hp < |size| {
            size := size[hp := nu];
          }
        }
      }
    }

    /** The header written into sbrk's memory makes it a block in use. */
    method Adopt(hp: int, nu: int, ghost ptr0: Field, ghost size0: Field)
      requires freep in free && freep != 0 && HeapOk(free, live, ptr0, size0, cover, base, {})
      requires 1 <= nu && base < |size0| <= hp && hp + nu == |size| && |cover| == |size0|
      requires forall u :: u in arena ==> 0 <= u < |cover|
      requires forall u :: 0 <= u < |cover| ==> (u in arena <==> cover[u] != 0)
      requires ptr == ptr0 + Zeros(|size| - |size0|) && size == size0 + Zeros(|size| - |size0|)
      modifies this`size, this`cover, this`arena, this`live
      ensures Valid() && hp !in old(live) && live == old(live) + {hp} && size == old(size)[hp := nu]
      ensures Extended(old(arena), arena, |size0|, nu)
    {
      ghost var n := |size| - |size0|;
      ghost var live0, cover0 := live, cover;
      size := size[hp := nu];
      Register(|size0|, n, hp, nu);
      GrowStep(free, live0, ptr0, size0, cover0, base, n, hp, nu);
    }

    /** Ghost bookkeeping for sbrk's memory. */
    ghost method Register(n0: int, n: int, hp: int, nu: int)
      requires |cover| == n0 <= hp && |size| == hp + nu == n0 + n && nu >= 1 && hp > 0
      requires forall u :: u in arena ==> 0 <= u < |cover|
      requires forall u :: 0 <= u < |cover| ==> (u in arena <==> cover[u] != 0)
      modifies this`cover, this`arena, this`live
      ensures live == old(live) + {hp}
      ensures cover == Remap(old(cover) + Zeros(n), hp, hp + nu, hp)
      ensures ArenaOk() && Extended(old(arena), arena, n0, nu)
    {
      live := live + {hp};
      cover := Remap(cover + Zeros(n), hp, hp + nu, hp);
      arena := arena + Interval(hp, nu);
      assert arena == old(arena) + Interval(hp, nu);
    }
  }

  /** A block lies inside memory. */
  lemma BlockFits(live: set<int>, free: set<int>, size: Field, cover: Field, base: int, a: int)
    requires CoverOk(live + (free - {base}), size, cover) && a in live
    ensures 0 <= a < |size| && a + size[a] <= |size|
  {
  }

  /**
   The first malloc of a program, for as many bytes as malloc can be asked for: the heap is lost
   unless sbrk fails.
   */
  method LargestRequest() returns (h: Heap, p: int, wild: bool)
    ensures p != 0 ==> wild && |h.size| == p && p - 1 + MAX_UNITS > |h.size|
  {
    h := new Heap();
    p, wild := h.Malloc(UINT_LIMIT - 1);
    if wild {
      LargestRequestOverclaims(2, p - 1);
    }
  }

  /** a lies behind start and before cur on the way round the list. */
  predicate Passed(start: int, cur: int, a: int) {
    if cur > start then start < a < cur else a > start || a < cur
  }

  lemma Advance(free: set<int>, ptr: Field, base: int, start: int, cur: int)
    requires Linked(free, ptr, base) && start in free && cur in free && cur != start
    ensures forall a :: a in free && Passed(start, ptr[cur], a) ==> a == cur || Passed(start, cur, a)
    ensures Passed(start, ptr[cur], cur) && !Passed(start, cur, cur)
    ensures forall a :: a in free && Passed(start, cur, a) ==> Passed(start, ptr[cur], a)
  {
    assert ptr[cur] in free;
    forall a | a in free && Passed(start, ptr[cur], a) && a > cur
      ensures Passed(start, cur, a)
    {
      assert cur < ptr[cur] <= a;
    }
  }

  /** One run of nu new units at or above n was added to the arena. */
  ghost predicate Extended(before: set<int>, after: set<int>, n: int, nu: int) {
    exists hp :: n <= hp && after == before + Interval(hp, nu)
  }
}
