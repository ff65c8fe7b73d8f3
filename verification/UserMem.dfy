/**
 copyout, copyin and copyinstr of kernel/vm.c: bytes between the kernel and the memory of a process.

 A page holds 512 words, and a word eight bytes, the lowest first.
 */
module UserMem {
  import opened ByteSeq
  import opened Paging
  import opened Spaces
  import opened Vm

  const WORD := 8

  // ------------------------------------------------------------------ the bytes of a word

  /** Byte k of a word. */
  function ByteOf(w: int, k: int): (b: int)
    requires 0 <= k
    ensures 0 <= b < 256
    decreases k
  {
    if k == 0 then w % 256 else ByteOf(w / 256, k - 1)
  }

  /** That is bits 8 * k to 8 * k + 7 of it. */
  lemma ByteOfIs(w: int, k: int)
    requires 0 <= k < WORD
    ensures ByteOf(w, k) ==
      [w, w / 0x100, w / 0x1_0000, w / 0x100_0000, w / 0x1_0000_0000, w / 0x100_0000_0000, w / 0x1_0000_0000_0000,
       w / 0x100_0000_0000_0000][k] % 256
  {
    var w1 := w / 256;
    var w2 := w1 / 256;
    var w3 := w2 / 256;
    var w4 := w3 / 256;
    var w5 := w4 / 256;
    var w6 := w5 / 256;
    var w7 := w6 / 256;
    assert w2 == w / 0x1_0000 && w3 == w / 0x100_0000 && w4 == w / 0x1_0000_0000 && w5 == w / 0x100_0000_0000;
    assert w6 == w / 0x1_0000_0000_0000 && w7 == w / 0x100_0000_0000_0000;
    ByteShift(w, k);
    ByteShift(w1, k - 1);
    ByteShift(w2, k - 2);
    ByteShift(w3, k - 3);
    ByteShift(w4, k - 4);
    ByteShift(w5, k - 5);
    ByteShift(w6, k - 6);
    ByteShift(w7, k - 7);
  }

  lemma ByteShift(w: int, k: int)
    ensures k > 0 ==> ByteOf(w, k) == ByteOf(w / 256, k - 1)
    ensures k == 0 ==> ByteOf(w, k) == w % 256
  {
  }

  predicate AreBytes(s: Bytes) {
    forall k :: 0 <= k < |s| ==> 0 <= s[k] < 256
  }

  function FromBytes(s: Bytes): (w: int)
    requires AreBytes(s)
    ensures 0 <= w
  {
    if s == [] then 0 else s[0] + 256 * FromBytes(s[1..])
  }

  lemma {:induction false} BytesBack(s: Bytes, k: int)
    requires AreBytes(s) && 0 <= k < |s|
    ensures ByteOf(FromBytes(s), k) == s[k]
    decreases |s|
  {
    var high := FromBytes(s[1..]);
    assert (s[0] + 256 * high) / 256 == high && (s[0] + 256 * high) % 256 == s[0];
    if k > 0 {
      BytesBack(s[1..], k - 1);
    }
  }

  /** A word seen as an entry. */
  function Entry(w: int): Pte {
    Pte(w / 1024, w % 2 == 1, w / 2 % 2 == 1, w / 4 % 2 == 1, w / 8 % 2 == 1, w / 16 % 2 == 1, w / 32 % 32)
  }

  lemma EntryWord(w: int)
    ensures Word(Entry(w)) == w
  {
    var e := Entry(w);
    LastBit(w, w / 2);
    LastBit(w / 2, w / 4);
    LastBit(w / 4, w / 8);
    LastBit(w / 8, w / 16);
    LastBit(w / 16, w / 32);
    var a5 := e.rest + 32 * e.ppn;
    assert a5 == w / 32;
  }

  lemma LastBit(w: int, high: int)
    requires high == w / 2
    ensures w == Bit(w % 2 == 1) + 2 * high
  {
  }

  // ------------------------------------------------------------------ the bytes of a page

  function PageByte(page: Page, k: int): int
    requires |page| == ENTRIES && 0 <= k < PGSIZE
  {
    ByteOf(Word(page[k / WORD]), k % WORD)
  }

  function PageBytes(page: Page): (r: Bytes)
    requires |page| == ENTRIES
    ensures |r| == PGSIZE && AreBytes(r)
    ensures forall k :: 0 <= k < PGSIZE ==> r[k] == PageByte(page, k)
  {
    seq(PGSIZE, k requires 0 <= k < PGSIZE => PageByte(page, k))
  }

  /** The page that holds these bytes. */
  function PageOf(s: Bytes): (r: Page)
    requires |s| == PGSIZE && AreBytes(s)
    ensures |r| == ENTRIES
    ensures forall k :: 0 <= k < PGSIZE ==> PageByte(r, k) == s[k]
  {
    var r := seq(ENTRIES, i requires 0 <= i < ENTRIES => Entry(FromBytes(s[i * WORD..i * WORD + WORD])));
    assert forall k :: 0 <= k < PGSIZE ==> PageByte(r, k) == s[k] by {
      forall k | 0 <= k < PGSIZE
        ensures PageByte(r, k) == s[k]
      {
        var i := k / WORD;
        var word := s[i * WORD..i * WORD + WORD];
        EntryWord(FromBytes(word));
        BytesBack(word, k % WORD);
      }
    }
    r
  }

  /** memmove of data to the bytes of a page from off on. */
  function Stored(page: Page, off: int, data: Bytes): (r: Page)
    requires |page| == ENTRIES && 0 <= off && off + |data| <= PGSIZE && AreBytes(data)
    ensures |r| == ENTRIES
    ensures forall k :: 0 <= k < PGSIZE ==>
      PageByte(r, k) == if off <= k < off + |data| then data[k - off] else PageByte(page, k)
  {
    PageOf(Poke(PageBytes(page), off, data))
  }

  // ------------------------------------------------------------------ what a process has at an address

  /** walkaddr finds a page for this address. */
  predicate Open(mem: seq<Page>, root: int, va: int) {
    0 <= va < MAXPAGES * PGSIZE && OpenPage(mem, root, va / PGSIZE)
  }

  predicate OpenPage(mem: seq<Page>, root: int, n: int) {
    0 <= n < MAXPAGES && Map(mem, root, PathOf(n)).v && Map(mem, root, PathOf(n)).u && Map(mem, root, PathOf(n)).ppn > 0
  }

  /** The byte at a virtual address. */
  function ByteAt(mem: seq<Page>, root: int, va: int): int {
    if 0 <= va < MAXPAGES * PGSIZE then Held(mem, Map(mem, root, PathOf(va / PGSIZE)).ppn, va % PGSIZE) else 0
  }

  function Held(mem: seq<Page>, q: int, k: int): int
    requires 0 <= k < PGSIZE
  {
    if 0 <= q < |mem| && |mem[q]| == ENTRIES then PageByte(mem[q], k) else 0
  }

  /** The t bytes from va on, of len, before the first address without a page for the user. */
  ghost predicate Reached(mem: seq<Page>, root: int, va: int, len: int, t: int) {
    0 <= t <= len && OpenRun(mem, root, va, t) && (t < len ==> !Open(mem, root, va + t))
  }

  /** The t bytes from va on are on pages for the user. */
  ghost predicate OpenRun(mem: seq<Page>, root: int, va: int, t: int) {
    forall a :: va <= a < va + t ==> Open(mem, root, a)
  }

  /** What a process of size sz has in memory, up to the end of its last page. */
  function Memory(mem: seq<Page>, root: int, sz: int): (r: Bytes)
    requires 0 <= sz
    ensures |r| == Pages(sz) * PGSIZE && forall a :: 0 <= a < |r| ==> r[a] == ByteAt(mem, root, a)
  {
    seq(Pages(sz) * PGSIZE, a => ByteAt(mem, root, a))
  }

  /** was, with data over it from va on, where there must be room for it if it is not empty. */
  predicate Put(was: Bytes, now: Bytes, va: int, data: Bytes) {
    if data == [] then now == was else 0 <= va && va + |data| <= |was| && now == Poke(was, va, data)
  }

  lemma PutJoin(s0: Bytes, s1: Bytes, s2: Bytes, va: int, a: Bytes, b: Bytes)
    requires Put(s0, s1, va, a) && Put(s1, s2, va + |a|, b)
    ensures Put(s0, s2, va, a + b)
  {
    if b == [] {
      assert a + b == a;
    } else if a == [] {
      assert a + b == b;
    } else {
      assert s2 == Poke(s0, va, a + b);
    }
  }

  function MemoryOf(w: World, i: int): Bytes
    requires InTable(w, i)
  {
    if w.procs[i].sz < 0 then [] else Memory(w.mem, w.procs[i].root, w.procs[i].sz)
  }

  /** The page of an open address is data of the space's own. */
  lemma OpenIsOwn(w: World, i: int, n: int)
    requires Inv(w) && InTable(w, i) && OpenPage(w.mem, w.procs[i].root, n)
    ensures 0 <= n < Pages(w.procs[i].sz) && |w.mem| == |w.kind|
    ensures var q := Map(w.mem, w.procs[i].root, PathOf(n)).ppn;
      IsPage(w.kind, q) && w.kind[q].Data? && w.kind[q].root == w.procs[i].root && |w.mem[q]| == ENTRIES
  {
    var p := w.procs[i];
    assert SpaceAt(w, i);
    if n >= Pages(p.sz) {
      assert false;
    }
    assert InUse(w.mem, w.kind, p.root, n, true);
    MappedIsOwn(w.mem, w.kind, p.root, n);
  }

  /** Changing a data page of process i's. */
  lemma StorePage(w: World, v: World, i: int, q: int, page: Page)
    requires Inv(w) && InTable(w, i) && IsPage(w.kind, q) && |page| == ENTRIES && |w.mem| == |w.kind|
    requires w.kind[q].Data? && w.kind[q].root == w.procs[i].root && v == w.(mem := w.mem[q := page])
    ensures Sound(v) && Touched(w, v, w.procs[i].root) && Inv(v)
  {
    TreeFrame(w.mem, w.kind, v.mem, v.kind, {});
    FreeFrame(w.mem, w.kind, w.head, w.free, v.mem, v.kind);
    TouchedKeepsInv(w, v, w.procs[i].root);
  }

  /** The store that a memmove to an open address is. */
  predicate StoredAt(mem: seq<Page>, mem': seq<Page>, root: int, va: int, data: Bytes)
    requires Open(mem, root, va) && AreBytes(data) && va % PGSIZE + |data| <= PGSIZE
  {
    var q := Map(mem, root, PathOf(va / PGSIZE)).ppn;
    0 <= q < |mem| && |mem[q]| == ENTRIES && mem' == mem[q := Stored(mem[q], va % PGSIZE, data)]
  }

  /** Which bytes of a page a store at va changes. */
  lemma OffsetsOf(a: int, va: int, len: int)
    requires 0 <= a && 0 <= va && 0 <= len && va % PGSIZE + len <= PGSIZE
    ensures va <= a < va + len <==> a / PGSIZE == va / PGSIZE && va % PGSIZE <= a % PGSIZE < va % PGSIZE + len
    ensures a / PGSIZE == va / PGSIZE ==> a - va == a % PGSIZE - va % PGSIZE
  {
  }

  /** The byte of address a, on physical page r, after a store at va, on physical page q. */
  lemma StoredByte(mem: seq<Page>, q: int, r: int, va: int, data: Bytes, a: int)
    requires 0 <= q < |mem| && |mem[q]| == ENTRIES && AreBytes(data) && 0 <= va && 0 <= a
    requires va % PGSIZE + |data| <= PGSIZE && (r == q <==> a / PGSIZE == va / PGSIZE)
    ensures Held(mem[q := Stored(mem[q], va % PGSIZE, data)], r, a % PGSIZE)
            == if va <= a < va + |data| then data[a - va] else Held(mem, r, a % PGSIZE)
  {
    OffsetsOf(a, va, |data|);
  }

  /** From w to v there is one store, within one page of process i's. */
  ghost predicate StoreOf(w: World, v: World, i: int, va: int, data: Bytes) {
    && Inv(w) && Sound(v) && InTable(w, i) && Open(w.mem, w.procs[i].root, va) && AreBytes(data)
    && va % PGSIZE + |data| <= PGSIZE && Touched(w, v, w.procs[i].root)
    && StoredAt(w.mem, v.mem, w.procs[i].root, va, data)
  }

  /** It changes these bytes of its memory and no others. */
  lemma StoreBytes(w: World, v: World, i: int, va: int, data: Bytes)
    requires StoreOf(w, v, i, va, data)
    ensures Put(MemoryOf(w, i), MemoryOf(v, i), va, data)
  {
    var was, now := MemoryOf(w, i), MemoryOf(v, i);
    StoreFits(w, v, i, va, data);
    forall a | 0 <= a < |now|
      ensures now[a] == if va <= a < va + |data| then data[a - va] else was[a]
    {
      StoreAt(w, v, i, va, data, a);
    }
    PutIs(was, now, va, data);
  }

  lemma StoreFits(w: World, v: World, i: int, va: int, data: Bytes)
    requires StoreOf(w, v, i, va, data)
    ensures InTable(w, i) && InTable(v, i)
    ensures 0 <= va && va + |data| <= |MemoryOf(w, i)| == |MemoryOf(v, i)|
  {
    SizeInRange(w, i);
    OpenIsOwn(w, i, va / PGSIZE);
    EndOnPage(va, |data|, Pages(w.procs[i].sz));
  }

  lemma StoreAt(w: World, v: World, i: int, va: int, data: Bytes, a: int)
    requires StoreOf(w, v, i, va, data) && InTable(v, i) && 0 <= a < |MemoryOf(v, i)| == |MemoryOf(w, i)|
    ensures MemoryOf(v, i)[a] == if va <= a < va + |data| then data[a - va] else MemoryOf(w, i)[a]
  {
    SizeInRange(w, i);
    StoreByte(w, v, i, va, data, a);
  }

  lemma PutIs(was: Bytes, now: Bytes, va: int, data: Bytes)
    requires 0 <= va && |now| == |was| && va + |data| <= |was|
    requires forall a :: 0 <= a < |now| ==> now[a] == if va <= a < va + |data| then data[a - va] else was[a]
    ensures Put(was, now, va, data)
  {
  }

  lemma EndOnPage(va: int, len: int, pages: int)
    requires va / PGSIZE < pages && va % PGSIZE + len <= PGSIZE
    ensures va + len <= pages * PGSIZE
  {
  }

  lemma StoreByte(w: World, v: World, i: int, va: int, data: Bytes, a: int)
    requires StoreOf(w, v, i, va, data)
    requires 0 <= a < MAXPAGES * PGSIZE && 0 <= a / PGSIZE < Pages(w.procs[i].sz)
    ensures ByteAt(v.mem, w.procs[i].root, a)
            == if va <= a < va + |data| then data[a - va] else ByteAt(w.mem, w.procs[i].root, a)
  {
    var root, n, m := w.procs[i].root, a / PGSIZE, va / PGSIZE;
    PagesApart(w, i, n, m);
    TouchedMap(w, v, root, root, n);
    StoredByte(w.mem, Map(w.mem, root, PathOf(m)).ppn, Map(w.mem, root, PathOf(n)).ppn, va, data, a);
  }

  /** Two pages of a space are different memory. */
  lemma PagesApart(w: World, i: int, n: int, m: int)
    requires Inv(w) && InTable(w, i) && 0 <= n < Pages(w.procs[i].sz) && OpenPage(w.mem, w.procs[i].root, m)
    ensures IsRoot(w.kind, w.procs[i].root) && 0 <= n < MAXPAGES
    ensures Map(w.mem, w.procs[i].root, PathOf(n)).ppn == Map(w.mem, w.procs[i].root, PathOf(m)).ppn <==> n == m
  {
    var root := w.procs[i].root;
    assert SpaceAt(w, i);
    assert InUse(w.mem, w.kind, root, n, true);
    if Map(w.mem, root, PathOf(n)).ppn == Map(w.mem, root, PathOf(m)).ppn {
      DataMappedOnce(w.mem, w.kind, root, PathOf(n), root, PathOf(m));
      PathJoin(n);
      PathJoin(m);
    }
  }

  // ------------------------------------------------------------------ copyout

  /** data has gone to process i's memory from va on, and nowhere else. */
  ghost predicate Copied(w: World, v: World, i: int, va: int, data: Bytes)
    requires InTable(w, i)
  {
    && Touched(w, v, w.procs[i].root)
    && Put(MemoryOf(w, i), MemoryOf(v, i), va, data)
  }

  lemma CopiedJoin(w: World, u: World, v: World, i: int, va: int, a: Bytes, b: Bytes)
    requires InTable(w, i) && Copied(w, u, i, va, a) && Copied(u, v, i, va + |a|, b)
    ensures Copied(w, v, i, va, a + b)
  {
    PutJoin(MemoryOf(w, i), MemoryOf(u, i), MemoryOf(v, i), va, a, b);
  }

  /** Storing bytes opens and closes nothing. */
  lemma OpenStays(w: World, v: World, i: int, a: int)
    requires Inv(w) && Inv(v) && InTable(w, i) && Touched(w, v, w.procs[i].root)
    ensures Open(v.mem, w.procs[i].root, a) <==> Open(w.mem, w.procs[i].root, a)
  {
    if 0 <= a < MAXPAGES * PGSIZE {
      assert SpaceAt(w, i);
      TouchedMap(w, v, w.procs[i].root, w.procs[i].root, a / PGSIZE);
    }
  }

  /** Addresses of one page are open together. */
  lemma OpenTogether(mem: seq<Page>, root: int, a: int, b: int)
    requires 0 <= a && a / PGSIZE == b / PGSIZE
    ensures Open(mem, root, a) <==> Open(mem, root, b)
  {
  }

  /** The next n bytes are on the page of the next one. */
  lemma OpenFurther(mem: seq<Page>, root: int, va: int, t: int, n: int)
    requires 0 <= va && 0 <= t && OpenRun(mem, root, va, t) && Open(mem, root, va + t)
    requires 0 <= n && (va + t) % PGSIZE + n <= PGSIZE
    ensures OpenRun(mem, root, va, t + n)
  {
    forall a | va + t <= a < va + t + n
      ensures Open(mem, root, a)
    {
      OpenTogether(mem, root, va + t, a);
    }
  }

  /** walkaddr for the page of va; not positive when there is none for the user. */
  method Lookup(ps: Processes, i: int, va: int, ghost w: World) returns (q: int)
    requires ps.Valid() && InTable(w, i) && Inv(w) && Touched(w, ps.Now(), w.procs[i].root) && 0 <= va
    modifies ps.m
    ensures ps.Valid() && ps.Now() == old(ps.Now())
    ensures q > 0 <==> Open(w.mem, w.procs[i].root, va)
    ensures q > 0 ==> Open(ps.m.mem, ps.procs[i].root, va)
    ensures q > 0 ==> q == Map(ps.m.mem, ps.procs[i].root, PathOf(va / PGSIZE)).ppn
  {
    ghost var u := ps.Now();
    assert SpaceAt(u, i);
    OpenStays(w, u, i, va);
    q := ps.m.Walkaddr(ps.procs[i].root, va / PGSIZE);
    assert ps.Now() == u;
  }

  /** The memmove of copyout. */
  method MoveOut(ps: Processes, i: int, va: int, q: int, data: Bytes)
    requires ps.Valid() && InTable(ps.Now(), i) && AreBytes(data) && va % PGSIZE + |data| <= PGSIZE
    requires Open(ps.m.mem, ps.procs[i].root, va) && q == Map(ps.m.mem, ps.procs[i].root, PathOf(va / PGSIZE)).ppn
    modifies ps.m
    ensures ps.Valid() && Copied(old(ps.Now()), ps.Now(), i, va, data)
  {
    ghost var w := ps.Now();
    OpenIsOwn(w, i, va / PGSIZE);
    var page := Stored(ps.m.mem[q], va % PGSIZE, data);
    ps.m.mem := ps.m.mem[q := page];
    StorePage(w, ps.Now(), i, q, page);
    StoreBytes(w, ps.Now(), i, va, data);
  }

  /** Where the page behind that of va starts. */
  function NextPage(va: int): (r: int)
    ensures r == va + (PGSIZE - va % PGSIZE)
  {
    va / PGSIZE * PGSIZE + PGSIZE
  }

  /** How much of len bytes the page of va takes. */
  function Portion(va: int, len: int): (n: int)
    requires 0 < len
    ensures 0 < n <= len && va % PGSIZE + n <= PGSIZE && (n < len ==> NextPage(va) == va + n)
  {
    if PGSIZE - va % PGSIZE > len then len else PGSIZE - va % PGSIZE
  }

  /** copyout of src by process i has copied its first done bytes. */
  ghost predicate OutSoFar(w: World, v: World, i: int, va: int, src: Bytes, done: int) {
    && 0 <= done <= |src| && InTable(w, i)
    && Copied(w, v, i, va, src[..done]) && OpenRun(w.mem, w.procs[i].root, va, done)
  }

  lemma OutStarts(w: World, i: int, va: int, src: Bytes)
    requires Inv(w) && InTable(w, i)
    ensures OutSoFar(w, w, i, va, src, 0)
  {
  }

  lemma TakeJoin(s: Bytes, k: int, n: int)
    requires 0 <= k && 0 <= n && k + n <= |s|
    ensures s[..k] + s[k..k + n] == s[..k + n]
  {
  }

  lemma OutFurther(w: World, u: World, v: World, i: int, va: int, src: Bytes, done: int, n: int)
    requires OutSoFar(w, u, i, va, src, done) && 0 <= n <= |src| - done
    requires Copied(u, v, i, va + done, src[done..done + n]) && OpenRun(w.mem, w.procs[i].root, va, done + n)
    ensures OutSoFar(w, v, i, va, src, done + n)
  {
    var a, b := src[..done], src[done..done + n];
    TakeJoin(src, done, n);
    CopiedJoin(w, u, v, i, va, a, b);
  }

  /** A turn of the loop of copyout: what the page of va takes, if it is open, and where the next one starts. */
  method OutTurn(ps: Processes, i: int, va: int, src: Bytes, done: int, ghost w: World, ghost dstva: int)
    returns (n: int, next: int)
    requires ps.Valid() && AreBytes(src) && 0 <= dstva && OutSoFar(w, ps.Now(), i, dstva, src, done)
    requires Inv(w) && done < |src| && va == dstva + done
    modifies ps.m
    ensures ps.Valid() && 0 <= n <= |src| - done && OutSoFar(w, ps.Now(), i, dstva, src, done + n)
    ensures n == 0 ==> !Open(w.mem, w.procs[i].root, va)
    ensures 0 < n < |src| - done ==> next == va + n
  {
    var q := Lookup(ps, i, va, w);
    if q <= 0 {
      return 0, va;
    }
    n, next := Portion(va, |src| - done), NextPage(va);
    MoveFurther(ps, i, va, q, src, done, n, w, dstva);
  }

  /** The memmove of copyout among the earlier ones. */
  method MoveFurther(ps: Processes, i: int, va: int, q: int, src: Bytes, done: int, n: int, ghost w: World,
                     ghost dstva: int)
    requires ps.Valid() && AreBytes(src) && 0 <= dstva && OutSoFar(w, ps.Now(), i, dstva, src, done)
    requires va == dstva + done && 0 <= n <= |src| - done && va % PGSIZE + n <= PGSIZE
    requires Open(w.mem, w.procs[i].root, va) && Open(ps.m.mem, ps.procs[i].root, va)
    requires q == Map(ps.m.mem, ps.procs[i].root, PathOf(va / PGSIZE)).ppn
    modifies ps.m
    ensures ps.Valid() && OutSoFar(w, ps.Now(), i, dstva, src, done + n)
  {
    ghost var u := ps.Now();
    OpenFurther(w.mem, w.procs[i].root, dstva, done, n);
    MoveOut(ps, i, va, q, src[done..done + n]);
    OutFurther(w, u, ps.Now(), i, dstva, src, done, n);
  }

  lemma OutEnds(w: World, v: World, i: int, va: int, src: Bytes, done: int)
    requires Sound(v) && OutSoFar(w, v, i, va, src, done) && (done < |src| ==> !Open(w.mem, w.procs[i].root, va + done))
    ensures Enabled(w, Touch(i)) && Effect(w, Touch(i), v)
    ensures Reached(w.mem, w.procs[i].root, va, |src|, done)
    ensures Put(MemoryOf(w, i), MemoryOf(v, i), va, src[..done])
  {
  }

  /**
   copyout: t bytes, up to the first address that is not mapped for the user, go to the memory of the
   process; it succeeds if and only if these are all. PTE_W is not looked at.
   */
  method Copyout(ps: Processes, i: int, dstva: int, src: Bytes) returns (r: int, ghost t: int)
    requires ps.Valid() && InTable(ps.Now(), i) && 0 <= dstva && AreBytes(src)
    modifies ps.m
    ensures ps.Valid() && Effect(old(ps.Now()), Touch(i), ps.Now())
    ensures Reached(old(ps.m.mem), ps.procs[i].root, dstva, |src|, t)
    ensures r == if t == |src| then 0 else -1
    ensures Put(MemoryOf(old(ps.Now()), i), MemoryOf(ps.Now(), i), dstva, src[..t])
  {
    ghost var w := ps.Now();
    var all;
    all, t := OutLoop(ps, i, dstva, src);
    OutEnds(w, ps.Now(), i, dstva, src, t);
    r := if all then 0 else -1;
  }

  /** The loop of copyout. */
  method OutLoop(ps: Processes, i: int, dstva: int, src: Bytes) returns (all: bool, ghost t: int)
    requires ps.Valid() && InTable(ps.Now(), i) && 0 <= dstva && AreBytes(src)
    modifies ps.m
    ensures ps.Valid() && OutSoFar(old(ps.Now()), ps.Now(), i, dstva, src, t) && (all <==> t == |src|)
    ensures t < |src| ==> !Open(old(ps.m.mem), ps.procs[i].root, dstva + t)
  {
    ghost var w := ps.Now();
    var va, done := dstva, 0;
    OutStarts(w, i, dstva, src);
    while done < |src|
      invariant 0 <= done <= |src| && (done < |src| ==> va == dstva + done)
      invariant ps.Valid() && OutSoFar(w, ps.Now(), i, dstva, src, done)
      decreases |src| - done
    {
      var n;
      n, va := OutTurn(ps, i, va, src, done, w, dstva);
      if n == 0 {
        return false, done;
      }
      done := done + n;
    }
    return true, done;
  }

  // ------------------------------------------------------------------ copyin

  /** The n bytes of the buffer from `at` on are those at va of root's memory, and the others as before. */
  ghost predicate Fetched(mem: seq<Page>, root: int, va: int, was: Bytes, now: Bytes, at: int, n: int) {
    && 0 <= at && 0 <= n && at + n <= |was| == |now|
    && forall k :: 0 <= k < |now| ==> now[k] == if at <= k < at + n then ByteAt(mem, root, va + (k - at)) else was[k]
  }

  lemma FetchedJoin(mem: seq<Page>, root: int, va: int, s0: Bytes, s1: Bytes, s2: Bytes, t: int, n: int)
    requires Fetched(mem, root, va, s0, s1, 0, t) && Fetched(mem, root, va + t, s1, s2, t, n)
    ensures Fetched(mem, root, va, s0, s2, 0, t + n)
  {
  }

  /** The bytes of a page from off on. */
  function Loaded(mem: seq<Page>, q: int, off: int, n: int): (r: Bytes)
    requires 0 <= q < |mem| && |mem[q]| == ENTRIES && 0 <= off && 0 <= n && off + n <= PGSIZE
    ensures |r| == n && forall k :: 0 <= k < n ==> r[k] == PageByte(mem[q], off + k)
  {
    PageBytes(mem[q])[off..off + n]
  }

  /** Bytes behind va on its page are those of the addresses behind it. */
  lemma LoadedAt(mem: seq<Page>, root: int, va: int, n: int)
    requires Open(mem, root, va) && 0 <= n && va % PGSIZE + n <= PGSIZE
    requires var q := Map(mem, root, PathOf(va / PGSIZE)).ppn; 0 <= q < |mem| && |mem[q]| == ENTRIES
    ensures forall k :: 0 <= k < n ==>
      ByteAt(mem, root, va + k) == Loaded(mem, Map(mem, root, PathOf(va / PGSIZE)).ppn, va % PGSIZE, n)[k]
  {
    forall k | 0 <= k < n
      ensures ByteAt(mem, root, va + k) == Loaded(mem, Map(mem, root, PathOf(va / PGSIZE)).ppn, va % PGSIZE, n)[k]
    {
      OffsetsOf(va + k, va, n);
    }
  }

  /** The memmove of copyin, to the buffer at `at`. */
  method MoveIn(ps: Processes, i: int, dst: array<int>, at: int, va: int, q: int, n: int)
    requires ps.Valid() && InTable(ps.Now(), i) && 0 <= at && 0 <= n && at + n <= dst.Length
    requires va % PGSIZE + n <= PGSIZE && Open(ps.m.mem, ps.procs[i].root, va)
    requires q == Map(ps.m.mem, ps.procs[i].root, PathOf(va / PGSIZE)).ppn
    modifies dst
    ensures Fetched(ps.m.mem, ps.procs[i].root, va, old(dst[..]), dst[..], at, n)
  {
    OpenIsOwn(ps.Now(), i, va / PGSIZE);
    LoadedAt(ps.m.mem, ps.procs[i].root, va, n);
    var data := Loaded(ps.m.mem, q, va % PGSIZE, n);
    forall k | at <= k < at + n {
      dst[k] := data[k - at];
    }
  }

  /** A turn of the loop of copyin: the bytes of va's page, none if it is not open, and where the next one starts. */
  method InTurn(ps: Processes, i: int, dst: array<int>, at: int, va: int, len: int) returns (n: int, next: int)
    requires ps.Valid() && InTable(ps.Now(), i) && 0 <= va && 0 < len && 0 <= at && at + len <= dst.Length
    modifies dst, ps.m
    ensures ps.Now() == old(ps.Now()) && 0 <= n <= len && (0 < n < len ==> next == va + n)
    ensures n == 0 ==> !Open(ps.m.mem, ps.procs[i].root, va)
    ensures OpenRun(ps.m.mem, ps.procs[i].root, va, n)
    ensures Fetched(ps.m.mem, ps.procs[i].root, va, old(dst[..]), dst[..], at, n)
  {
    var q := Lookup(ps, i, va, ps.Now());
    if q <= 0 {
      return 0, va;
    }
    n, next := Portion(va, len), NextPage(va);
    MoveIn(ps, i, dst, at, va, q, n);
    OpenFurther(ps.m.mem, ps.procs[i].root, va, 0, n);
  }

  /**
   copyin: t bytes, up to the first address that is not mapped for the user, come to the buffer; it
   succeeds if and only if these are all. No page changes.
   */
  method Copyin(ps: Processes, i: int, dst: array<int>, srcva: int, len: int) returns (r: int, ghost t: int)
    requires ps.Valid() && InTable(ps.Now(), i) && 0 <= srcva && 0 <= len <= dst.Length
    modifies dst, ps.m
    ensures ps.Now() == old(ps.Now())
    ensures Reached(ps.m.mem, ps.procs[i].root, srcva, len, t)
    ensures r == if t == len then 0 else -1
    ensures Fetched(ps.m.mem, ps.procs[i].root, srcva, old(dst[..]), dst[..], 0, t)
  {
    ghost var w := ps.Now();
    var va, done := srcva, 0;
    while done < len
      invariant 0 <= done <= len && (done < len ==> va == srcva + done)
      invariant ps.Now() == w && OpenRun(w.mem, w.procs[i].root, srcva, done)
      invariant Fetched(w.mem, w.procs[i].root, srcva, old(dst[..]), dst[..], 0, done)
      decreases len - done
    {
      var n;
      ghost var was := dst[..];
      n, va := InTurn(ps, i, dst, done, va, len - done);
      if n == 0 {
        return -1, done;
      }
      FetchedJoin(w.mem, w.procs[i].root, srcva, old(dst[..]), was, dst[..], done, n);
      done := done + n;
    }
    return 0, done;
  }

  // ------------------------------------------------------------------ copyinstr

  ghost predicate NoNul(mem: seq<Page>, root: int, va: int, t: int) {
    forall a :: va <= a < va + t ==> ByteAt(mem, root, a) != 0
  }

  /** At va there is a string of t bytes, its NUL included, and at most max, on pages for the user. */
  ghost predicate IsString(mem: seq<Page>, root: int, va: int, max: int, t: int) {
    0 < t <= max && OpenRun(mem, root, va, t) && NoNul(mem, root, va, t - 1) && ByteAt(mem, root, va + t - 1) == 0
  }

  /** The inner loop of copyinstr: n bytes of one page, up to a NUL. */
  method MoveString(ps: Processes, i: int, dst: array<int>, at: int, va: int, q: int, n: int)
    returns (moved: int, gotNull: bool)
    requires ps.Valid() && InTable(ps.Now(), i) && 0 <= at && 0 < n && at + n <= dst.Length
    requires va % PGSIZE + n <= PGSIZE && Open(ps.m.mem, ps.procs[i].root, va)
    requires q == Map(ps.m.mem, ps.procs[i].root, PathOf(va / PGSIZE)).ppn
    modifies dst
    ensures 0 <= moved <= n && (if gotNull then 0 < moved else moved == n)
    ensures NoNul(ps.m.mem, ps.procs[i].root, va, if gotNull then moved - 1 else moved)
    ensures gotNull ==> ByteAt(ps.m.mem, ps.procs[i].root, va + moved - 1) == 0
    ensures Fetched(ps.m.mem, ps.procs[i].root, va, old(dst[..]), dst[..], at, moved)
  {
    OpenIsOwn(ps.Now(), i, va / PGSIZE);
    LoadedAt(ps.m.mem, ps.procs[i].root, va, n);
    var data := Loaded(ps.m.mem, q, va % PGSIZE, n);
    moved, gotNull := ScanPage(dst, at, data);
    forall a | va <= a < va + moved
      ensures ByteAt(ps.m.mem, ps.procs[i].root, a) == data[a - va]
    {
      assert ByteAt(ps.m.mem, ps.procs[i].root, va + (a - va)) == data[a - va];
    }
  }

  method ScanPage(dst: array<int>, at: int, data: Bytes) returns (moved: int, gotNull: bool)
    requires 0 < |data| && 0 <= at && at + |data| <= dst.Length
    modifies dst
    ensures 0 <= moved <= |data| && (if gotNull then 0 < moved && data[moved - 1] == 0 else moved == |data|)
    ensures forall k :: 0 <= k < (if gotNull then moved - 1 else moved) ==> data[k] != 0
    ensures forall k :: 0 <= k < dst.Length ==> dst[k] == if at <= k < at + moved then data[k - at] else old(dst[k])
  {
    moved, gotNull := 0, false;
    while moved < |data|
      invariant 0 <= moved <= |data| && !gotNull && forall k :: 0 <= k < moved ==> data[k] != 0
      invariant forall k :: 0 <= k < dst.Length ==>
        dst[k] == if at <= k < at + moved then data[k - at] else old(dst[k])
    {
      dst[at + moved] := data[moved];
      moved := moved + 1;
      if data[moved - 1] == 0 {
        gotNull := true;
        break;
      }
    }
  }

  /** A turn of the outer loop of copyinstr. */
  method StringTurn(ps: Processes, i: int, dst: array<int>, at: int, va: int, max: int)
    returns (n: int, gotNull: bool, next: int)
    requires ps.Valid() && InTable(ps.Now(), i) && 0 <= va && 0 < max && 0 <= at && at + max <= dst.Length
    modifies dst, ps.m
    ensures ps.Now() == old(ps.Now()) && 0 <= n <= max && (0 < n < max && !gotNull ==> next == va + n)
    ensures n == 0 ==> !Open(ps.m.mem, ps.procs[i].root, va) && !gotNull
    ensures OpenRun(ps.m.mem, ps.procs[i].root, va, n)
    ensures NoNul(ps.m.mem, ps.procs[i].root, va, if gotNull then n - 1 else n)
    ensures gotNull ==> ByteAt(ps.m.mem, ps.procs[i].root, va + n - 1) == 0
    ensures Fetched(ps.m.mem, ps.procs[i].root, va, old(dst[..]), dst[..], at, n)
  {
    var q := Lookup(ps, i, va, ps.Now());
    if q <= 0 {
      return 0, false, va;
    }
    var most := Portion(va, max);
    next := NextPage(va);
    n, gotNull := MoveString(ps, i, dst, at, va, q, most);
    OpenFurther(ps.m.mem, ps.procs[i].root, va, 0, n);
  }

  /**
   copyinstr: it succeeds if and only if a string of at most max bytes lies at srcva, and then that
   string is in the buffer with its NUL; otherwise the bytes up to the first address that is not
   mapped for the user, or max, are.
   */
  method Copyinstr(ps: Processes, i: int, dst: array<int>, srcva: int, max: int) returns (r: int, ghost t: int)
    requires ps.Valid() && InTable(ps.Now(), i) && 0 <= srcva && 0 <= max <= dst.Length
    modifies dst, ps.m
    ensures ps.Now() == old(ps.Now()) && (r == 0 || r == -1)
    ensures r == 0 <==> exists n :: IsString(ps.m.mem, ps.procs[i].root, srcva, max, n)
    ensures r == 0 ==> IsString(ps.m.mem, ps.procs[i].root, srcva, max, t)
    ensures r == -1 ==> Reached(ps.m.mem, ps.procs[i].root, srcva, max, t)
    ensures Fetched(ps.m.mem, ps.procs[i].root, srcva, old(dst[..]), dst[..], 0, t)
  {
    var gotNull;
    gotNull, t := StringLoop(ps, i, dst, srcva, max);
    if gotNull {
      return 0, t;
    }
    NoStringHere(ps.m.mem, ps.procs[i].root, srcva, max, t);
    return -1, t;
  }

  /** The outer loop of copyinstr. */
  method StringLoop(ps: Processes, i: int, dst: array<int>, srcva: int, max: int)
    returns (gotNull: bool, ghost done: int)
    requires ps.Valid() && InTable(ps.Now(), i) && 0 <= srcva && 0 <= max <= dst.Length
    modifies dst, ps.m
    ensures ps.Now() == old(ps.Now())
    ensures StringSoFar(ps.m.mem, ps.procs[i].root, srcva, max, done, gotNull)
    ensures !gotNull && done < max ==> !Open(ps.m.mem, ps.procs[i].root, srcva + done)
    ensures Fetched(ps.m.mem, ps.procs[i].root, srcva, old(dst[..]), dst[..], 0, done)
  {
    ghost var w := ps.Now();
    var va, at := srcva, 0;
    gotNull := false;
    StringStarts(w.mem, w.procs[i].root, srcva, max);
    while !gotNull && at < max
      invariant 0 <= at <= max && (!gotNull && at < max ==> va == srcva + at) && ps.Now() == w
      invariant StringSoFar(w.mem, w.procs[i].root, srcva, max, at, gotNull)
      invariant Fetched(w.mem, w.procs[i].root, srcva, old(dst[..]), dst[..], 0, at)
      decreases max - at
    {
      var n;
      n, gotNull, va := StringOn(ps, i, dst, at, va, max, srcva, old(dst[..]), w);
      if n == 0 {
        return false, at;
      }
      at := at + n;
    }
    return gotNull, at;
  }

  /** A turn of the outer loop among the earlier ones. */
  method StringOn(ps: Processes, i: int, dst: array<int>, at: int, va: int, max: int, ghost srcva: int,
                  ghost was: Bytes, ghost w: World) returns (n: int, gotNull: bool, next: int)
    requires ps.Valid() && ps.Now() == w && InTable(w, i) && 0 <= va && 0 <= at < max <= dst.Length
    requires va == srcva + at && StringSoFar(w.mem, w.procs[i].root, srcva, max, at, false)
    requires Fetched(w.mem, w.procs[i].root, srcva, was, dst[..], 0, at)
    modifies dst, ps.m
    ensures ps.Now() == w && 0 <= n <= max - at
    ensures !gotNull && 0 < n < max - at ==> next == va + n
    ensures n == 0 ==> !gotNull && !Open(w.mem, w.procs[i].root, va)
    ensures StringSoFar(w.mem, w.procs[i].root, srcva, max, at + n, gotNull)
    ensures Fetched(w.mem, w.procs[i].root, srcva, was, dst[..], 0, at + n)
  {
    ghost var bytes := dst[..];
    n, gotNull, next := StringTurn(ps, i, dst, at, va, max - at);
    FetchedJoin(w.mem, w.procs[i].root, srcva, was, bytes, dst[..], at, n);
    StringFurther(w.mem, w.procs[i].root, srcva, max, at, n, gotNull);
  }

  /** t bytes have been copied, and the last of them is NUL or none is. */
  ghost predicate StringSoFar(mem: seq<Page>, root: int, va: int, max: int, t: int, nul: bool) {
    0 <= t <= max && OpenRun(mem, root, va, t)
    && if nul then IsString(mem, root, va, max, t) else NoNul(mem, root, va, t)
  }

  lemma StringStarts(mem: seq<Page>, root: int, va: int, max: int)
    requires 0 <= max
    ensures StringSoFar(mem, root, va, max, 0, false)
  {
  }

  lemma StringFurther(mem: seq<Page>, root: int, va: int, max: int, done: int, n: int, nul: bool)
    requires 0 <= done && 0 <= n && done + n <= max && (nul ==> 0 < n) && StringSoFar(mem, root, va, max, done, false)
    requires OpenRun(mem, root, va + done, n) && NoNul(mem, root, va + done, if nul then n - 1 else n)
    requires nul ==> ByteAt(mem, root, va + done + n - 1) == 0
    ensures StringSoFar(mem, root, va, max, done + n, nul)
  {
  }

  lemma NoStringHere(mem: seq<Page>, root: int, va: int, max: int, t: int)
    requires Reached(mem, root, va, max, t) && NoNul(mem, root, va, t)
    ensures !exists n :: IsString(mem, root, va, max, n)
  {
    forall n
      ensures !IsString(mem, root, va, max, n)
    {
      if 0 < n <= t {
        assert ByteAt(mem, root, va + n - 1) != 0;
      }
    }
  }

  // ------------------------------------------------------------------ after any run

  /** The pages of process j that are not for the user are those in the set. */
  ghost predicate ClosedAre(w: World, j: int, s: set<int>)
    requires InTable(w, j)
  {
    forall n :: n in s <==> 0 <= n < Pages(w.procs[j].sz) && n < MAXPAGES && !ForUser(w, j, n)
  }

  predicate ForUser(w: World, j: int, n: int)
    requires InTable(w, j) && 0 <= n < MAXPAGES
  {
    Map(w.mem, w.procs[j].root, PathOf(n)).u
  }

  ghost predicate AllClosed(w: World, closed: seq<set<int>>) {
    |closed| == |w.procs| && forall j :: InTable(w, j) ==> ClosedAre(w, j, closed[j])
  }

  function Below(s: set<int>, pages: int): set<int> {
    set n | n in s && n < pages
  }

  /**
   Which pages are closed after a call: exec closes one, fork hands the parent's on, pages given back are
   forgotten, and no other page is.
   */
  function ClosedAfter(w: World, op: Op, v: World, closed: seq<set<int>>): (r: seq<set<int>>)
    requires Enabled(w, op) && |closed| == |w.procs|
  {
    match op
    case Spawn => if v.procs == w.procs then closed else closed + [{}]
    case Grow(i, n) => closed[i := Below(closed[i], Pages(Target(w.procs[i].sz, n)))]
    case Clear(i, n) => closed[i := closed[i] + {n}]
    case Copy(i, child) => if v.procs == w.procs then closed else closed[child := closed[i]]
    case Exit(i) => closed[..i] + closed[i + 1..]
    case _ => closed
  }

  /** And after a run. */
  ghost function ClosedBy(w: World, ops: seq<Op>, between: seq<World>, v: World, closed: seq<set<int>>): seq<set<int>>
    requires Runs(w, ops, between, v) && |closed| == |w.procs|
    decreases |ops|
  {
    if ops == [] then closed
    else
      var next := ClosedAfter(w, ops[0], between[0], closed);
      if |next| != |between[0].procs| then [] else ClosedBy(between[0], ops[1..], between[1..], v, next)
  }

  /** In every run exactly those pages are closed to the user. */
  lemma {:induction false} RunKeepsUser(w: World, ops: seq<Op>, between: seq<World>, v: World, closed: seq<set<int>>)
    requires Inv(w) && AllClosed(w, closed) && Runs(w, ops, between, v)
    ensures Inv(v) && AllClosed(v, ClosedBy(w, ops, between, v, closed))
    decreases |ops|
  {
    if ops != [] {
      StepKeepsInv(w, ops[0], between[0]);
      StepKeepsUser(w, ops[0], between[0], closed);
      RunKeepsUser(between[0], ops[1..], between[1..], v, ClosedAfter(w, ops[0], between[0], closed));
    }
  }

  lemma StepKeepsUser(w: World, op: Op, v: World, closed: seq<set<int>>)
    requires Inv(w) && AllClosed(w, closed) && Enabled(w, op) && Effect(w, op, v)
    ensures AllClosed(v, ClosedAfter(w, op, v, closed))
  {
    ProcsAfter(w, op, v, closed);
    forall j | InTable(v, j)
      ensures ClosedAre(v, j, ClosedAfter(w, op, v, closed)[j])
    {
      ProcAfter(w, op, v, closed, j);
    }
  }

  lemma ProcsAfter(w: World, op: Op, v: World, closed: seq<set<int>>)
    requires |closed| == |w.procs| && Enabled(w, op) && Effect(w, op, v)
    ensures |ClosedAfter(w, op, v, closed)| == |v.procs|
  {
  }

  /** Process j of v is process k of w, its old pages permit what they did, and its new ones are for the user. */
  lemma SameProc(w: World, v: World, k: int, j: int, s: set<int>)
    requires InTable(w, k) && InTable(v, j) && ClosedAre(w, k, s)
    requires forall n :: 0 <= n < Pages(v.procs[j].sz) && n < MAXPAGES ==>
      (ForUser(v, j, n) <==> n >= Pages(w.procs[k].sz) || ForUser(w, k, n))
    ensures ClosedAre(v, j, Below(s, Pages(v.procs[j].sz)))
  {
  }

  lemma AllBelow(w: World, j: int, s: set<int>, pages: int)
    requires InTable(w, j) && ClosedAre(w, j, s) && Pages(w.procs[j].sz) <= pages
    ensures Below(s, pages) == s
  {
  }

  lemma ProcAfter(w: World, op: Op, v: World, closed: seq<set<int>>, j: int)
    requires Inv(w) && AllClosed(w, closed) && Enabled(w, op) && Effect(w, op, v) && InTable(v, j)
    requires |ClosedAfter(w, op, v, closed)| == |v.procs|
    ensures ClosedAre(v, j, ClosedAfter(w, op, v, closed)[j])
  {
    match op
    case Exit(i) => LeftAfter(w, op, v, closed, j);
    case Clear(i, n) => ClearAfter(w, op, v, closed, j);
    case Touch(i) => TouchAfter(w, op, v, closed, j);
    case Copy(i, child) =>
      if j == child && v.procs != w.procs {
        ChildAfter(w, op, v, closed);
      } else {
        GrownAfter(w, op, v, closed, j);
      }
    case _ =>
      if InTable(w, j) {
        GrownAfter(w, op, v, closed, j);
      }
  }

  lemma SameRoot(w: World, op: Op, v: World, j: int)
    requires Enabled(w, op) && Effect(w, op, v) && !op.Exit? && InTable(w, j)
    ensures InTable(v, j) && v.procs[j].root == w.procs[j].root
  {
  }

  lemma LeftAfter(w: World, op: Op, v: World, closed: seq<set<int>>, j: int)
    requires Inv(w) && AllClosed(w, closed) && Enabled(w, op) && Effect(w, op, v) && op.Exit? && InTable(v, j)
    ensures |ClosedAfter(w, op, v, closed)| == |v.procs| && ClosedAre(v, j, ClosedAfter(w, op, v, closed)[j])
  {
    var k := if op.i <= j then j + 1 else j;
    Left(w.procs, v.procs, op.i, j, k);
    Left(closed, ClosedAfter(w, op, v, closed), op.i, j, k);
    LeftSame(w, op, v, closed[k], j, k);
  }

  lemma Left<T>(s: seq<T>, left: seq<T>, i: int, j: int, k: int)
    requires 0 <= i < |s| && left == s[..i] + s[i + 1..] && 0 <= j < |left| && k == if i <= j then j + 1 else j
    ensures |left| == |s| - 1 && 0 <= k < |s| && k != i && left[j] == s[k]
  {
  }

  lemma LeftSame(w: World, op: Op, v: World, s: set<int>, j: int, k: int)
    requires Inv(w) && Enabled(w, op) && Effect(w, op, v) && op.Exit? && InTable(v, j) && InTable(w, k) && k != op.i
    requires v.procs[j] == w.procs[k] && ClosedAre(w, k, s)
    ensures ClosedAre(v, j, s)
  {
    forall n | 0 <= n < Pages(v.procs[j].sz) && n < MAXPAGES
      ensures ForUser(v, j, n) <==> ForUser(w, k, n)
    {
      ViewKept(w, op, v, k, n);
    }
  }

  lemma ClearAfter(w: World, op: Op, v: World, closed: seq<set<int>>, j: int)
    requires Inv(w) && AllClosed(w, closed) && Enabled(w, op) && Effect(w, op, v) && op.Clear? && InTable(v, j)
    ensures ClosedAre(v, j, ClosedAfter(w, op, v, closed)[j])
  {
    assert SpaceAt(w, j);
    SizeInRange(w, op.i);
    forall n | 0 <= n < MAXPAGES
      ensures ForUser(v, j, n) <==> ForUser(w, j, n) && !(j == op.i && n == op.n)
    {
    }
  }

  lemma TouchAfter(w: World, op: Op, v: World, closed: seq<set<int>>, j: int)
    requires Inv(w) && AllClosed(w, closed) && Enabled(w, op) && Effect(w, op, v) && op.Touch? && InTable(v, j)
    ensures ClosedAre(v, j, ClosedAfter(w, op, v, closed)[j])
  {
    assert SpaceAt(w, j);
    forall n | 0 <= n < MAXPAGES
      ensures ForUser(v, j, n) <==> ForUser(w, j, n)
    {
      TouchedMap(w, v, w.procs[op.i].root, w.procs[j].root, n);
    }
  }

  /** fork copies PTE_U with the rest of the entry. */
  lemma ChildAfter(w: World, op: Op, v: World, closed: seq<set<int>>)
    requires Inv(w) && AllClosed(w, closed) && Enabled(w, op) && Effect(w, op, v) && op.Copy? && v.procs != w.procs
    ensures InTable(v, op.child) && ClosedAre(v, op.child, closed[op.i])
  {
    SizeInRange(w, op.i);
    forall n | 0 <= n < Pages(v.procs[op.child].sz) && n < MAXPAGES
      ensures ForUser(v, op.child, n) <==> n >= Pages(w.procs[op.i].sz) || ForUser(w, op.i, n)
    {
      assert NewPage(v.mem, w.procs[op.child].root, n, Map(w.mem, w.procs[op.i].root, PathOf(n)),
                     PageAt(w.mem, w.procs[op.i].root, n));
    }
    SameProc(w, v, op.i, op.child, closed[op.i]);
    AllBelow(w, op.i, closed[op.i], Pages(v.procs[op.child].sz));
  }

  predicate Resizes(op: Op) {
    op.Spawn? || op.Grow? || op.Alloc? || op.Copy?
  }

  lemma GrownAfter(w: World, op: Op, v: World, closed: seq<set<int>>, j: int)
    requires Inv(w) && AllClosed(w, closed) && Enabled(w, op) && Effect(w, op, v) && Resizes(op) && InTable(w, j)
    requires op.Copy? && op.child == j ==> v.procs == w.procs
    ensures InTable(v, j) && |ClosedAfter(w, op, v, closed)| >= |closed|
    ensures ClosedAre(v, j, ClosedAfter(w, op, v, closed)[j])
  {
    SameRoot(w, op, v, j);
    forall n | 0 <= n < Pages(v.procs[j].sz) && n < MAXPAGES
      ensures ForUser(v, j, n) <==> n >= Pages(w.procs[j].sz) || ForUser(w, j, n)
    {
      if n < Pages(w.procs[j].sz) {
        ViewKept(w, op, v, j, n);
      } else {
        FreshUser(w, op, v, j, n);
      }
    }
    SameProc(w, v, j, j, closed[j]);
    BelowSame(w, op, v, closed, j);
  }

  lemma BelowSame(w: World, op: Op, v: World, closed: seq<set<int>>, j: int)
    requires Inv(w) && AllClosed(w, closed) && Enabled(w, op) && Effect(w, op, v) && Resizes(op) && InTable(w, j)
    requires InTable(v, j) && (op.Copy? && op.child == j ==> v.procs == w.procs)
    ensures |ClosedAfter(w, op, v, closed)| >= |closed|
    ensures ClosedAfter(w, op, v, closed)[j] == Below(closed[j], Pages(v.procs[j].sz))
  {
    SizeInRange(w, j);
    if Pages(w.procs[j].sz) <= Pages(v.procs[j].sz) {
      AllBelow(w, j, closed[j], Pages(v.procs[j].sz));
    }
    if op.Grow? && op.i == j {
      TargetBelow(w, v, j, op.n, closed[j]);
    }
  }

  lemma TargetBelow(w: World, v: World, j: int, n: int, s: set<int>)
    requires Inv(w) && InTable(w, j) && Enabled(w, Grow(j, n)) && ClosedAre(w, j, s)
    requires InTable(v, j) && Sized(w, v, j, Target(w.procs[j].sz, n))
    ensures Below(s, Pages(Target(w.procs[j].sz, n))) == Below(s, Pages(v.procs[j].sz))
  {
    var sz, to := w.procs[j].sz, Target(w.procs[j].sz, n);
    SizeInRange(w, j);
    if to > sz {
      PagesMonotone(sz, to);
      AllBelow(w, j, s, Pages(to));
      AllBelow(w, j, s, Pages(v.procs[j].sz));
    }
  }

  /** Pages that growproc and exec add. */
  lemma FreshUser(w: World, op: Op, v: World, j: int, n: int)
    requires Inv(w) && Enabled(w, op) && Effect(w, op, v) && Resizes(op) && InTable(w, j) && InTable(v, j)
    requires Pages(w.procs[j].sz) <= n < Pages(v.procs[j].sz) && 0 <= n < MAXPAGES
    requires op.Copy? && op.child == j ==> v.procs == w.procs
    ensures ForUser(v, j, n)
  {
    SizeInRange(w, j);
    if op.Grow? {
      PagesMonotone(0, Target(w.procs[op.i].sz, op.n));
      assert NewPage(v.mem, w.procs[j].root, n, ZERO.(r := true, w := true, u := true), Filled(ZERO));
    } else {
      assert NewPage(v.mem, w.procs[j].root, n, ZERO.(r := true, w := op.w, x := op.x, u := true), Filled(ZERO));
    }
  }

  /** The addresses copyout and copyin accept are those of the process's pages that are not closed. */
  lemma OpenIff(w: World, i: int, va: int, s: set<int>)
    requires Inv(w) && InTable(w, i) && ClosedAre(w, i, s)
    ensures Open(w.mem, w.procs[i].root, va) <==> 0 <= va < |MemoryOf(w, i)| && va / PGSIZE !in s
  {
    SizeInRange(w, i);
    if Open(w.mem, w.procs[i].root, va) {
      OpenIsOwn(w, i, va / PGSIZE);
    }
    if 0 <= va < |MemoryOf(w, i)| {
      assert SpaceAt(w, i);
      assert InUse(w.mem, w.kind, w.procs[i].root, va / PGSIZE, true);
    }
  }

  /** Some of the len bytes from va on are on a page of the set. */
  predicate Meets(va: int, len: int, s: set<int>) {
    exists n :: n in s && va < (n + 1) * PGSIZE && n * PGSIZE < va + len
  }

  lemma ReachedIff(w: World, i: int, va: int, len: int, t: int, s: set<int>)
    requires Inv(w) && InTable(w, i) && ClosedAre(w, i, s) && 0 <= va && 0 < len
    requires Reached(w.mem, w.procs[i].root, va, len, t)
    ensures t == len <==> va + len <= |MemoryOf(w, i)| && !Meets(va, len, s)
  {
    if t < len {
      OpenIff(w, i, va + t, s);
      if va + t < |MemoryOf(w, i)| {
        MeetsAt(va, len, s, va + t);
      }
    } else {
      OpenIff(w, i, va + len - 1, s);
      if Meets(va, len, s) {
        var n :| n in s && va < (n + 1) * PGSIZE && n * PGSIZE < va + len;
        var a := if va < n * PGSIZE then n * PGSIZE else va;
        assert a / PGSIZE == n;
        OpenIff(w, i, a, s);
      }
    }
  }

  lemma MeetsAt(va: int, len: int, s: set<int>, a: int)
    requires 0 <= va <= a < va + len && a / PGSIZE in s
    ensures Meets(va, len, s)
  {
    var n := a / PGSIZE;
    assert n * PGSIZE <= a < (n + 1) * PGSIZE;
  }

  /**
   After any run they do all of len bytes if and only if these end within the process's last page and none
   of them is on a page that exec has closed, in this process or in one that it was forked from.
   */
  lemma AllReachedIff(w: World, ops: seq<Op>, between: seq<World>, v: World, i: int, va: int, len: int, t: int)
    requires Inv(w) && w.procs == [] && Runs(w, ops, between, v) && InTable(v, i) && 0 <= va && 0 < len
    requires Reached(v.mem, v.procs[i].root, va, len, t)
    ensures var closed := ClosedBy(w, ops, between, v, []);
      && |closed| == |v.procs|
      && (t == len <==> va + len <= |MemoryOf(v, i)| && !Meets(va, len, closed[i]))
  {
    RunKeepsUser(w, ops, between, v, []);
    ReachedIff(v, i, va, len, t, ClosedBy(w, ops, between, v, [])[i]);
  }

  /** copyin of what copyout has put there gives it back. */
  lemma ReadBack(w: World, v: World, i: int, va: int, data: Bytes, was: Bytes, now: Bytes)
    requires Inv(w) && InTable(w, i) && v.procs == w.procs && Put(MemoryOf(w, i), MemoryOf(v, i), va, data)
    requires Fetched(v.mem, v.procs[i].root, va, was, now, 0, |data|)
    ensures now[..|data|] == data
  {
    SizeInRange(w, i);
    forall k | 0 <= k < |data|
      ensures now[k] == data[k]
    {
      assert MemoryOf(v, i)[va + k] == data[k];
    }
  }

  /** The memory of a child is that of its parent. */
  lemma ChildMemory(w: World, v: World, i: int, child: int)
    requires Inv(w) && InTable(w, i) && InTable(v, child) && v.procs[child].sz == w.procs[i].sz && Inv(v)
    requires CopyOf(w.mem, w.procs[i].root, v.mem, v.procs[child].root, Pages(w.procs[i].sz))
    ensures MemoryOf(v, child) == MemoryOf(w, i)
  {
    SizeInRange(w, i);
    var a, b := MemoryOf(w, i), MemoryOf(v, child);
    forall k | 0 <= k < |a|
      ensures b[k] == a[k]
    {
      var n := k / PGSIZE;
      assert SpaceAt(w, i);
      assert InUse(w.mem, w.kind, w.procs[i].root, n, true);
      assert NewPage(v.mem, v.procs[child].root, n, Map(w.mem, w.procs[i].root, PathOf(n)),
                     PageAt(w.mem, w.procs[i].root, n));
    }
  }

  /** The pages that growproc and exec add to a process's memory are zero. */
  lemma GrownMemory(w: World, i: int, lo: int, va: int, x: bool, wr: bool)
    requires Inv(w) && InTable(w, i) && Zeroed(w.mem, w.procs[i].root, Pages(lo), Pages(w.procs[i].sz), x, wr)
    requires 0 <= Pages(lo) * PGSIZE <= va < |MemoryOf(w, i)|
    ensures MemoryOf(w, i)[va] == 0
  {
    SizeInRange(w, i);
    var n := va / PGSIZE;
    assert NewPage(w.mem, w.procs[i].root, n, ZERO.(r := true, w := wr, x := x, u := true), Filled(ZERO));
    ZeroBytes(va % PGSIZE % WORD);
  }

  lemma ZeroBytes(k: int)
    requires 0 <= k
    ensures ByteOf(0, k) == 0
    decreases k
  {
    if k > 0 {
      ZeroBytes(k - 1);
    }
  }
}
