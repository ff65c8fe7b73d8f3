/**
 The buffer cache of kernel/bio.c.

 Buffers are named by their index in bcache.buf, and HEAD is bcache.head; `next` and `prev` are
 the two link fields. Each method is one section that runs under bcache.lock or under a buffer's
 sleep-lock, so a run of any processes is a sequence of calls. There is one device, as in fs.c.
 */
module Bio {
  import opened Params

  const HEAD := NBUF
  const NONE := -1

  predicate IsBuf(b: int) {
    0 <= b < NBUF
  }

  // ------------------------------------------------------------------ the list

  /** The k-th buffer of the list; HEAD before the first and after the last. */
  function Nth(order: seq<int>, k: int): int {
    if 0 <= k < |order| then order[k] else HEAD
  }

  /** next and prev make one doubly linked circle through HEAD and the buffers of order. */
  ghost predicate ListOk(next: seq<int>, prev: seq<int>, order: seq<int>) {
    && |next| == |prev| == NBUF + 1
    && (forall k :: 0 <= k < |order| ==> IsBuf(order[k]))
    && (forall j, k :: 0 <= j < k < |order| ==> order[j] != order[k])
    && (forall j, k :: -1 <= j < k <= |order| && k == j + 1 ==> LinkOk(next, prev, Nth(order, j), Nth(order, k)))
  }

  predicate LinkOk(next: seq<int>, prev: seq<int>, b: int, c: int) {
    && 0 <= b <= NBUF && 0 <= c <= NBUF && |next| == |prev| == NBUF + 1
    && next[b] == c && prev[c] == b
  }

  function Without(order: seq<int>, k: int): (r: seq<int>)
    requires 0 <= k < |order|
    ensures |r| == |order| - 1
    ensures forall i :: 0 <= i < |r| ==> r[i] == order[if i < k then i else i + 1]
  {
    order[..k] + order[k + 1..]
  }

  lemma ListEnds(next: seq<int>, prev: seq<int>, order: seq<int>)
    requires ListOk(next, prev, order)
    ensures next[HEAD] == Nth(order, 0) && prev[HEAD] == Nth(order, |order| - 1)
    ensures order == [] ==> next[HEAD] == HEAD && prev[HEAD] == HEAD
  {
    assert LinkOk(next, prev, Nth(order, -1), Nth(order, 0));
    assert LinkOk(next, prev, Nth(order, |order| - 1), Nth(order, |order|));
  }

  lemma ListStep(next: seq<int>, prev: seq<int>, order: seq<int>, k: int)
    requires ListOk(next, prev, order) && 0 <= k < |order|
    ensures next[order[k]] == Nth(order, k + 1) && prev[order[k]] == Nth(order, k - 1)
  {
    assert LinkOk(next, prev, Nth(order, k), Nth(order, k + 1));
    assert LinkOk(next, prev, Nth(order, k - 1), Nth(order, k));
  }

  /** Unlinking the k-th buffer. */
  lemma ListRemove(next: seq<int>, prev: seq<int>, order: seq<int>, k: int)
    requires ListOk(next, prev, order) && 0 <= k < |order|
    ensures 0 <= next[order[k]] <= NBUF && 0 <= prev[order[k]] <= NBUF
    ensures var b := order[k]; ListOk(next[prev[b] := next[b]], prev[next[b] := prev[b]], Without(order, k))
  {
    var b, rest := order[k], Without(order, k);
    ListStep(next, prev, order, k);
    var next', prev' := next[prev[b] := next[b]], prev[next[b] := prev[b]];
    forall i, j | -1 <= i < j <= |rest| && j == i + 1
      ensures LinkOk(next', prev', Nth(rest, i), Nth(rest, j))
    {
      RemovedLink(next, prev, order, k, i);
    }
  }

  lemma RemovedLink(next: seq<int>, prev: seq<int>, order: seq<int>, k: int, i: int)
    requires ListOk(next, prev, order) && 0 <= k < |order| && -1 <= i < |order| - 1
    ensures 0 <= next[order[k]] <= NBUF && 0 <= prev[order[k]] <= NBUF
    ensures var b, rest := order[k], Without(order, k);
      LinkOk(next[prev[b] := next[b]], prev[next[b] := prev[b]], Nth(rest, i), Nth(rest, i + 1))
  {
    var rest := Without(order, k);
    ListStep(next, prev, order, k);
    var a, c := Nth(order, k - 1), Nth(order, k + 1);
    assert Nth(rest, i) == Nth(order, if i < k then i else i + 1);
    assert Nth(rest, i + 1) == Nth(order, if i + 1 < k then i + 1 else i + 2);
    if i < k - 1 {
      assert LinkOk(next, prev, Nth(order, i), Nth(order, i + 1));
      Apart(order, i, k - 1);
      Apart(order, i + 1, k + 1);
    } else if i > k - 1 {
      assert LinkOk(next, prev, Nth(order, i + 1), Nth(order, i + 2));
      Apart(order, i + 1, k - 1);
      Apart(order, i + 2, k + 1);
    }
  }

  /** Different places of the circle hold different elements. */
  lemma Apart(order: seq<int>, i: int, j: int)
    requires forall k :: 0 <= k < |order| ==> IsBuf(order[k])
    requires forall i', j' :: 0 <= i' < j' < |order| ==> order[i'] != order[j']
    requires -1 <= i <= |order| && -1 <= j <= |order| && i != j && !(i == -1 && j == |order|)
      && !(j == -1 && i == |order|)
    ensures Nth(order, i) != Nth(order, j)
  {
  }

  /** Linking b in behind HEAD. */
  lemma ListInsert(next: seq<int>, prev: seq<int>, order: seq<int>, b: int)
    requires ListOk(next, prev, order) && IsBuf(b) && b !in order
    ensures 0 <= next[HEAD] <= NBUF
    ensures ListOk(next[b := next[HEAD]][HEAD := b], prev[b := HEAD][next[HEAD] := b], [b] + order)
  {
    ListEnds(next, prev, order);
    var more := [b] + order;
    var next', prev' := next[b := next[HEAD]][HEAD := b], prev[b := HEAD][next[HEAD] := b];
    forall i, j | -1 <= i < j <= |more| && j == i + 1
      ensures LinkOk(next', prev', Nth(more, i), Nth(more, j))
    {
      InsertedLink(next, prev, order, b, i);
    }
  }

  lemma InsertedLink(next: seq<int>, prev: seq<int>, order: seq<int>, b: int, i: int)
    requires ListOk(next, prev, order) && IsBuf(b) && b !in order && -1 <= i <= |order|
    ensures 0 <= next[HEAD] <= NBUF
    ensures LinkOk(next[b := next[HEAD]][HEAD := b], prev[b := HEAD][next[HEAD] := b], Nth([b] + order, i),
      Nth([b] + order, i + 1))
  {
    ListEnds(next, prev, order);
    assert i >= 1 ==> Nth([b] + order, i) == Nth(order, i - 1);
    assert i >= 0 ==> Nth([b] + order, i + 1) == Nth(order, i);
    if i >= 1 {
      assert LinkOk(next, prev, Nth(order, i - 1), Nth(order, i));
      Apart(order, i, 0);
    }
  }

  /** Every buffer is in the list, at its position. */
  ghost predicate Sited(order: seq<int>, pos: seq<int>) {
    |order| == |pos| == NBUF && forall b :: IsBuf(b) ==> 0 <= pos[b] < NBUF && order[pos[b]] == b
  }

  /** The list is sorted by when its buffers were last put in front, latest first. */
  ghost predicate Sorted(order: seq<int>, stamp: seq<int>, clock: int) {
    && |stamp| == NBUF
    && (forall k :: 0 <= k < |order| ==> IsBuf(order[k]) && stamp[order[k]] < clock)
    && (forall j, k :: 0 <= j < k < |order| ==> stamp[order[j]] > stamp[order[k]])
  }

  /** Positions after the k-th buffer has moved to the front. */
  function Moved(pos: seq<int>, k: int): (r: seq<int>)
    requires |pos| == NBUF
    ensures |r| == NBUF && forall b :: IsBuf(b) ==>
      r[b] == if pos[b] == k then 0 else if pos[b] < k then pos[b] + 1 else pos[b]
  {
    seq(NBUF, b requires 0 <= b < NBUF => if pos[b] == k then 0 else if pos[b] < k then pos[b] + 1 else pos[b])
  }

  lemma MovedSited(order: seq<int>, pos: seq<int>, b: int)
    requires Sited(order, pos) && IsBuf(b)
    ensures Sited([b] + Without(order, pos[b]), Moved(pos, pos[b]))
  {
    var k, rest := pos[b], Without(order, pos[b]);
    forall c | IsBuf(c)
      ensures 0 <= Moved(pos, k)[c] < NBUF && ([b] + rest)[Moved(pos, k)[c]] == c
    {
      if pos[c] == k {
        assert c == b;
      } else {
        assert rest[Moved(pos, k)[c] - 1] == c;
      }
    }
  }

  lemma MovedSorted(order: seq<int>, stamp: seq<int>, clock: int, k: int)
    requires Sorted(order, stamp, clock) && 0 <= k < |order|
    requires forall i, j :: 0 <= i < j < |order| ==> order[i] != order[j]
    ensures order[k] !in Without(order, k)
    ensures Sorted([order[k]] + Without(order, k), stamp[order[k] := clock], clock + 1)
  {
    var b, rest, later := order[k], Without(order, k), stamp[order[k] := clock];
    assert forall i :: 0 <= i < |rest| ==> IsBuf(rest[i]) && rest[i] != b && later[rest[i]] == stamp[rest[i]] < clock;
    assert forall i, j :: 0 <= i < j < |rest| ==> later[rest[i]] > later[rest[j]];
    assert forall i :: 1 <= i < |[b] + rest| ==> ([b] + rest)[i] == rest[i - 1];
  }

  function Repeat<T>(n: nat, x: T): (r: seq<T>)
    ensures |r| == n && forall i :: 0 <= i < n ==> r[i] == x
  {
    seq(n, _ => x)
  }

  /** binit puts buffer b in front at time b. */
  function Ages(): (r: seq<int>)
    ensures |r| == NBUF && forall b :: IsBuf(b) ==> r[b] == b
  {
    seq(NBUF, b => b)
  }

  function Places(): (r: seq<int>)
    ensures |r| == NBUF && forall b :: IsBuf(b) ==> r[b] == NBUF - 1 - b
  {
    seq(NBUF, b => NBUF - 1 - b)
  }

  /** binit's loop leaves the last buffer in front. */
  lemma BinitOrder(order: seq<int>, pos: seq<int>, stamp: seq<int>)
    requires |order| == NBUF && pos == Places() && stamp == Ages()
    requires forall k :: 0 <= k < NBUF ==> order[k] == NBUF - 1 - k
    ensures Sited(order, pos) && Sorted(order, stamp, NBUF)
  {
  }

  type Content = seq<int>

  /** The block buffer b holds, if it holds one. */
  ghost predicate Holds(dev: seq<int>, blockno: seq<int>, home: seq<int>) {
    && |dev| == |blockno| == NBUF
    && (forall b :: IsBuf(b) ==>
         dev[b] == 0 || (dev[b] == ROOTDEV && 0 <= blockno[b] < |home| && home[blockno[b]] == b))
    && (forall k :: 0 <= k < |home| ==>
         home[k] == NONE || (IsBuf(home[k]) && dev[home[k]] == ROOTDEV && blockno[home[k]] == k))
  }

  /** Where blocks are cached once buffer b holds block k. */
  function Rehomed(dev: seq<int>, blockno: seq<int>, home: seq<int>, b: int, k: int): (r: seq<int>)
    requires |dev| == |blockno| == NBUF && IsBuf(b) && 0 <= k < |home| && (dev[b] != 0 ==> 0 <= blockno[b] < |home|)
    ensures |r| == |home|
    ensures forall i :: 0 <= i < |r| ==>
      r[i] == if i == k then b else if dev[b] != 0 && i == blockno[b] then NONE else home[i]
  {
    if dev[b] == 0 then home[k := b] else home[blockno[b] := NONE][k := b]
  }

  lemma RecycledHolds(dev: seq<int>, blockno: seq<int>, home: seq<int>, b: int, k: int)
    requires Holds(dev, blockno, home) && IsBuf(b) && 0 <= k < |home| && home[k] == NONE
    ensures Holds(dev[b := ROOTDEV], blockno[b := k], Rehomed(dev, blockno, home, b, k))
  {
  }

  /** At most one buffer holds a given block. */
  lemma OneBufferPerBlock(dev: seq<int>, blockno: seq<int>, home: seq<int>, b: int, c: int)
    requires Holds(dev, blockno, home) && IsBuf(b) && IsBuf(c) && dev[b] != 0 && dev[c] == dev[b]
      && blockno[b] == blockno[c]
    ensures b == c
  {
  }

  class Cache {
    var next: seq<int>
    var prev: seq<int>
    var dev: seq<int>
    var blockno: seq<int>
    var valid: seq<bool>
    var refcnt: seq<int>
    var locked: seq<bool>
    var data: seq<Content>
    var disk: seq<Content>
    ghost var order: seq<int>
    ghost var pos: seq<int>
    ghost var stamp: seq<int>
    ghost var clock: int
    ghost var home: seq<int>

    ghost predicate ListValid()
      reads this
    {
      ListOk(next, prev, order) && Sited(order, pos) && Sorted(order, stamp, clock)
    }

    ghost predicate Valid()
      reads this
    {
      && ListValid() && Holds(dev, blockno, home) && |home| == |disk|
      && |valid| == |refcnt| == |locked| == |data| == NBUF
      && forall b :: IsBuf(b) ==> BufOk(b)
    }

    ghost predicate BufOk(b: int)
      requires Holds(dev, blockno, home) && |home| == |disk| && |valid| == |refcnt| == |locked| == |data| == NBUF
        && IsBuf(b)
      reads this
    {
      && 0 <= refcnt[b] && (locked[b] ==> refcnt[b] > 0)
      && (dev[b] == 0 ==> !valid[b] && refcnt[b] == 0)
      && (refcnt[b] == 0 ==> Clean(b))
    }

    /** What the disk has is what the buffer has. */
    ghost predicate Clean(b: int)
      requires Holds(dev, blockno, home) && |home| == |disk| && |valid| == |data| == NBUF && IsBuf(b)
      reads this
    {
      valid[b] ==> dev[b] == ROOTDEV && data[b] == disk[blockno[b]]
    }

    /** The latest contents of block k: those in its buffer if it has them, else those on the disk. */
    ghost function Latest(k: int): Content
      requires Valid() && 0 <= k < |disk|
      reads this
    {
      if home[k] != NONE && valid[home[k]] then data[home[k]] else disk[k]
    }

    twostate predicate LatestKept()
      requires old(Valid()) && Valid()
      reads this
    {
      |disk| == |old(disk)| && forall k :: 0 <= k < |disk| ==> Latest(k) == old(Latest(k))
    }

    twostate predicate ListKept()
      reads this
    {
      next == old(next) && prev == old(prev) && order == old(order) && pos == old(pos) && stamp == old(stamp)
        && clock == old(clock)
    }

    /** binit. */
    constructor (contents: seq<Content>)
      ensures Valid() && disk == contents
      ensures forall k :: 0 <= k < |contents| ==> Latest(k) == contents[k]
      ensures forall b :: IsBuf(b) ==> dev[b] == 0 && refcnt[b] == 0 && !locked[b] && stamp[b] == b
    {
      dev, blockno, refcnt := Repeat(NBUF, 0), Repeat(NBUF, 0), Repeat(NBUF, 0);
      valid, locked, data := Repeat(NBUF, false), Repeat(NBUF, false), Repeat(NBUF, []);
      disk, home := contents, Repeat(|contents|, NONE);
      next, prev := Repeat(NBUF + 1, HEAD), Repeat(NBUF + 1, HEAD);
      order, stamp, clock, pos := [], Ages(), NBUF, Places();
      new;
      LinkAll();
      BinitOrder(order, pos, stamp);
    }

    /** The loop of binit. */
    method LinkAll()
      requires ListOk(next, prev, order) && order == []
      modifies this`next, this`prev, this`order
      ensures ListOk(next, prev, order) && |order| == NBUF
      ensures forall k :: 0 <= k < NBUF ==> order[k] == NBUF - 1 - k
    {
      var b := 0;
      while b < NBUF
        invariant 0 <= b <= NBUF && ListOk(next, prev, order) && |order| == b
        invariant forall k :: 0 <= k < b ==> order[k] == b - 1 - k
      {
        PushFront(b);
        b := b + 1;
      }
    }

    /** The four link writes that put b behind the head. */
    method PushFront(b: int)
      requires ListOk(next, prev, order) && IsBuf(b) && b !in order
      modifies this`next, this`prev, this`order
      ensures ListOk(next, prev, order) && order == [b] + old(order)
    {
      ListEnds(next, prev, order);
      ListInsert(next, prev, order, b);
      next := next[b := next[HEAD]];
      prev := prev[b := HEAD];
      prev := prev[next[HEAD] := b];
      next := next[HEAD := b];
      order := [b] + order;
    }

    /**
     The first section of bget. A cached block gains a reference. Otherwise the buffer that was
     put back longest ago among those without references is recycled; NONE, which is a panic,
     means that every buffer has references.
     */
    method Bget(k: int) returns (b: int)
      requires Valid() && 0 <= k < |disk|
      modifies this`dev, this`blockno, this`valid, this`refcnt, this`home
      ensures Valid() && LatestKept() && ListKept() && data == old(data) && disk == old(disk) && locked == old(locked)
      ensures b == NONE <==> old(home)[k] == NONE && forall c :: IsBuf(c) ==> old(refcnt)[c] > 0
      ensures b == NONE ==> dev == old(dev) && blockno == old(blockno) && valid == old(valid) && refcnt == old(refcnt)
      ensures b != NONE ==>
        IsBuf(b) && dev[b] == ROOTDEV && blockno[b] == k && refcnt == old(refcnt)[b := old(refcnt)[b] + 1]
      ensures b != NONE ==> dev == old(dev)[b := ROOTDEV] && blockno == old(blockno)[b := k]
      ensures b != NONE && old(home)[k] != NONE ==> b == old(home)[k] && valid == old(valid)
      ensures b != NONE && old(home)[k] == NONE ==> valid == old(valid)[b := false] && old(refcnt)[b] == 0
      ensures b != NONE && old(home)[k] == NONE ==> forall c :: IsBuf(c) && old(refcnt)[c] == 0 ==> stamp[b] <= stamp[c]
    {
      b := Find(k);
      if b != HEAD {
        refcnt := refcnt[b := refcnt[b] + 1];
        return;
      }
      b := Oldest();
      if b == HEAD {
        return NONE;
      }
      Recycle(b, k);
    }

    /** The forward scan of bget. */
    method Find(k: int) returns (b: int)
      requires Valid() && 0 <= k < |disk|
      ensures if home[k] == NONE then b == HEAD else b == home[k]
    {
      ListEnds(next, prev, order);
      b := next[HEAD];
      ghost var i := 0;
      while b != HEAD
        invariant 0 <= i <= NBUF && b == Nth(order, i)
        invariant forall j :: 0 <= j < i ==> order[j] != home[k]
        decreases NBUF - i
      {
        if dev[b] == ROOTDEV && blockno[b] == k {
          return;
        }
        ListStep(next, prev, order, i);
        b := next[b];
        i := i + 1;
      }
      forall c | IsBuf(c)
        ensures c != home[k]
      {
        assert order[pos[c]] == c;
      }
    }

    /** The backward scan of bget. */
    method Oldest() returns (b: int)
      requires Valid()
      ensures b == HEAD <==> forall c :: IsBuf(c) ==> refcnt[c] > 0
      ensures b != HEAD ==> IsBuf(b) && refcnt[b] == 0 && forall c :: IsBuf(c) && refcnt[c] == 0 ==>
        stamp[b] <= stamp[c]
    {
      ListEnds(next, prev, order);
      b := prev[HEAD];
      ghost var i := NBUF - 1;
      while b != HEAD
        invariant -1 <= i < NBUF && b == Nth(order, i)
        invariant forall j :: i < j < NBUF ==> refcnt[order[j]] > 0
        decreases i
      {
        if refcnt[b] == 0 {
          OldestOf(i);
          return;
        }
        ListStep(next, prev, order, i);
        b := prev[b];
        i := i - 1;
      }
      forall c | IsBuf(c)
        ensures refcnt[c] > 0
      {
        assert order[pos[c]] == c;
      }
    }

    lemma OldestOf(i: int)
      requires Valid() && 0 <= i < NBUF && forall j :: i < j < NBUF ==> refcnt[order[j]] > 0
      ensures forall c :: IsBuf(c) && refcnt[c] == 0 ==> stamp[order[i]] <= stamp[c]
    {
      forall c | IsBuf(c) && refcnt[c] == 0
        ensures stamp[order[i]] <= stamp[c]
      {
        assert order[pos[c]] == c;
      }
    }

    /** bget's reuse of a buffer. Its old block, which nobody holds, is on the disk as it was in the buffer. */
    method Recycle(b: int, k: int)
      requires Valid() && IsBuf(b) && refcnt[b] == 0 && 0 <= k < |disk| && home[k] == NONE
      modifies this`dev, this`blockno, this`valid, this`refcnt, this`home
      ensures Valid() && LatestKept()
      ensures dev == old(dev)[b := ROOTDEV] && blockno == old(blockno)[b := k]
      ensures valid == old(valid)[b := false] && refcnt == old(refcnt)[b := 1]
    {
      RecycledHolds(dev, blockno, home, b, k);
      home := Rehomed(dev, blockno, home, b, k);
      dev, blockno := dev[b := ROOTDEV], blockno[b := k];
      valid, refcnt := valid[b := false], refcnt[b := 1];
      assert old(BufOk(b));
      RecycleDone(b, k);
    }

    twostate lemma RecycleDone(new b: int, new k: int)
      requires old(Valid()) && ListValid() && IsBuf(b) && 0 <= k < |old(disk)| && old(home)[k] == NONE
        && old(refcnt)[b] == 0
      requires Holds(dev, blockno, home) && home == Rehomed(old(dev), old(blockno), old(home), b, k)
      requires dev == old(dev)[b := ROOTDEV] && blockno == old(blockno)[b := k] && valid == old(valid)[b := false]
      requires refcnt == old(refcnt)[b := 1] && data == old(data) && disk == old(disk) && locked == old(locked)
      ensures Valid() && LatestKept()
    {
      forall c | IsBuf(c)
        ensures BufOk(c)
      {
        assert old(BufOk(c));
      }
      forall i | 0 <= i < |disk|
        ensures Latest(i) == old(Latest(i))
      {
        assert old(BufOk(b));
      }
    }

    /** acquiresleep(&b->lock), when it is granted. */
    method Lock(b: int)
      requires Valid() && IsBuf(b) && !locked[b] && refcnt[b] > 0
      modifies this`locked
      ensures Valid() && LatestKept() && locked == old(locked)[b := true]
    {
      locked := locked[b := true];
      assert forall c :: IsBuf(c) ==> old(BufOk(c));
    }

    /** The rest of bread: the holder of the sleep-lock gets the latest contents. */
    method Fill(b: int)
      requires Valid() && IsBuf(b) && locked[b]
      modifies this`data, this`valid
      ensures Valid() && LatestKept() && valid == old(valid)[b := true]
      ensures 0 <= blockno[b] < |disk| && data[b] == Latest(blockno[b])
      ensures data == old(data)[b := data[b]]
    {
      assert BufOk(b);
      if !valid[b] {
        data := data[b := disk[blockno[b]]];
        valid := valid[b := true];
      }
      assert forall c :: IsBuf(c) ==> old(BufOk(c));
    }

    /** The holder of the sleep-lock changes b->data. */
    method Modify(b: int, content: Content)
      requires Valid() && IsBuf(b) && locked[b] && valid[b]
      modifies this`data
      ensures Valid() && 0 <= blockno[b] < |disk| && data == old(data)[b := content]
      ensures forall k :: 0 <= k < |disk| ==> Latest(k) == if k == blockno[b] then content else old(Latest(k))
    {
      assert BufOk(b);
      data := data[b := content];
      assert forall c :: IsBuf(c) ==> old(BufOk(c));
    }

    /** bwrite; its panic when the lock is not held is its precondition. */
    method Bwrite(b: int)
      requires Valid() && IsBuf(b) && locked[b] && valid[b]
      modifies this`disk
      ensures Valid() && LatestKept() && Clean(b)
      ensures 0 <= blockno[b] < |disk| && disk == old(disk)[blockno[b] := data[b]]
    {
      assert BufOk(b);
      disk := disk[blockno[b] := data[b]];
      assert forall c :: IsBuf(c) ==> old(BufOk(c));
    }

    /** The first half of brelse; its panic when the lock is not held is its precondition. */
    method Unlock(b: int)
      requires Valid() && IsBuf(b) && locked[b]
      modifies this`locked
      ensures Valid() && LatestKept() && locked == old(locked)[b := false]
    {
      locked := locked[b := false];
      assert forall c :: IsBuf(c) ==> old(BufOk(c));
    }

    /**
     The section of brelse under bcache.lock. A buffer given up by its last user, which must have
     written back or never changed it, becomes the most recently used one.
     */
    method Drop(b: int)
      requires Valid() && IsBuf(b) && refcnt[b] > 0 && (refcnt[b] == 1 ==> !locked[b] && Clean(b))
      modifies this`refcnt, this`next, this`prev, this`order, this`pos, this`stamp, this`clock
      ensures Valid() && LatestKept() && refcnt == old(refcnt)[b := old(refcnt)[b] - 1]
      ensures refcnt[b] > 0 ==> ListKept()
      ensures refcnt[b] == 0 ==> order == [b] + Without(old(order), old(pos)[b]) && stamp == old(stamp)[b := old(clock)]
    {
      refcnt := refcnt[b := refcnt[b] - 1];
      if refcnt[b] == 0 {
        MoveFront(b);
      }
      assert forall c :: IsBuf(c) ==> old(BufOk(c));
    }

    method MoveFront(b: int)
      requires ListValid() && IsBuf(b)
      modifies this`next, this`prev, this`order, this`pos, this`stamp, this`clock
      ensures ListValid() && order == [b] + Without(old(order), old(pos)[b]) && stamp == old(stamp)[b := old(clock)]
    {
      MovedSited(order, pos, b);
      MovedSorted(order, stamp, clock, pos[b]);
      Unlink(b, pos[b]);
      PushFront(b);
      stamp, clock, pos := stamp[b := clock], clock + 1, Moved(pos, pos[b]);
    }

    /** The two link writes that take b, the k-th buffer, out. */
    method Unlink(b: int, ghost k: int)
      requires ListOk(next, prev, order) && 0 <= k < |order| && order[k] == b
      modifies this`next, this`prev, this`order
      ensures ListOk(next, prev, order) && order == Without(old(order), k)
    {
      ListStep(next, prev, order, k);
      ListRemove(next, prev, order, k);
      prev := prev[next[b] := prev[b]];
      next := next[prev[b] := next[b]];
      order := Without(order, k);
    }

    /** bpin. */
    method Bpin(b: int)
      requires Valid() && IsBuf(b) && refcnt[b] > 0
      modifies this`refcnt
      ensures Valid() && LatestKept() && refcnt == old(refcnt)[b := old(refcnt)[b] + 1]
    {
      refcnt := refcnt[b := refcnt[b] + 1];
      assert forall c :: IsBuf(c) ==> old(BufOk(c));
    }

    /** bunpin. */
    method Bunpin(b: int)
      requires Valid() && IsBuf(b) && refcnt[b] > 0 && (refcnt[b] == 1 ==> !locked[b] && Clean(b))
      modifies this`refcnt
      ensures Valid() && LatestKept() && refcnt == old(refcnt)[b := old(refcnt)[b] - 1]
    {
      refcnt := refcnt[b := refcnt[b] - 1];
      assert forall c :: IsBuf(c) ==> old(BufOk(c));
    }

    /** bread after bget has found its buffer. */
    method LockAndFill(b: int)
      requires Valid() && IsBuf(b) && !locked[b] && refcnt[b] > 0
      modifies this`locked, this`data, this`valid
      ensures Valid() && LatestKept() && locked == old(locked)[b := true] && valid == old(valid)[b := true]
      ensures 0 <= blockno[b] < |disk| && data[b] == Latest(blockno[b]) && data == old(data)[b := data[b]]
    {
      Lock(b);
      Fill(b);
    }

    /** bread by a process that need not wait for the sleep-lock. */
    method Bread(k: int) returns (b: int)
      requires Valid() && 0 <= k < |disk| && (home[k] != NONE ==> !locked[home[k]])
      modifies this`dev, this`blockno, this`valid, this`refcnt, this`home, this`locked, this`data
      ensures Valid() && LatestKept()
      ensures b == NONE <==> old(home)[k] == NONE && forall c :: IsBuf(c) ==> old(refcnt)[c] > 0
      ensures b != NONE ==> IsBuf(b) && valid[b] && blockno[b] == k && data[b] == old(Latest(k))
      ensures b != NONE ==> refcnt == old(refcnt)[b := old(refcnt)[b] + 1] && locked == old(locked)[b := true]
      ensures b == NONE ==> refcnt == old(refcnt) && locked == old(locked)
      ensures forall c :: IsBuf(c) && old(refcnt)[c] > 0 && c != b ==>
        blockno[c] == old(blockno)[c] && valid[c] == old(valid)[c] && data[c] == old(data)[c]
    {
      b := Bget(k);
      if b != NONE {
        assert old(BufOk(b));
        LockAndFill(b);
      }
    }
  }
}
