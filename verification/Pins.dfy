/**
 The log over the buffer cache: log_write pins what it logs and install_trans unpins it after the
 write home (kernel/log.c over kernel/bio.c). Each method is what one process does while it holds
 the buffer's sleep-lock. `space` follows the log's admission control, a run of LogSpace.
 */
module Pins {
  import opened Params
  import opened Bio
  import LogSpace

  /** The cache and the blocks that are logged and not installed yet. */
  class PinnedCache {
    const bc: Cache
    /** log.size. */
    const size: nat
    var pins: set<int>
    ghost var space: LogSpace.State

    /** The log holds a pin on buffer b. */
    predicate InLog(b: int)
      requires IsBuf(b) && |bc.dev| == |bc.blockno| == NBUF
      reads this`pins, bc`dev, bc`blockno
    {
      bc.dev[b] == ROOTDEV && bc.blockno[b] in pins
    }

    /**
     The references on b count its holder and its pin, and what is in b is on the disk unless
     somebody holds b or the log has pinned it.
     */
    ghost predicate BufKept(b: int)
      requires bc.Valid() && IsBuf(b)
      reads this, bc
    {
      && bc.refcnt[b] >= (if bc.locked[b] then 1 else 0) + (if InLog(b) then 1 else 0)
      && (bc.locked[b] || InLog(b) || bc.Clean(b))
      && (InLog(b) ==> bc.valid[b])
    }

    /** Block k is in some buffer. */
    ghost predicate Cached(k: int)
      reads bc
    {
      0 <= k < |bc.home| && bc.home[k] != NONE
    }

    ghost predicate Valid()
      reads this, bc
    {
      BufsOk() && Follows(pins, space, size)
    }

    /** What Valid says of the buffers. */
    ghost predicate BufsOk()
      reads this, bc
    {
      bc.Valid() && (forall b :: IsBuf(b) ==> BufKept(b)) && (forall k :: k in pins ==> Cached(k))
    }

    constructor (contents: seq<Content>, nlog: nat)
      requires nlog > 0
      ensures Valid() && fresh(bc) && pins == {} && bc.disk == contents && size == nlog && space == LogSpace.INIT
      ensures forall b :: IsBuf(b) ==> bc.refcnt[b] == 0 && !bc.locked[b]
    {
      bc := new Cache(contents);
      size := nlog;
      pins, space := {}, LogSpace.INIT;
      new;
      LogSpace.Started(size);
    }

    /** The log's steps that touch no buffer: begin_op, end_op, and the end of a commit. */
    ghost method Follow(step: LogSpace.Step)
      requires Valid() && LogSpace.Enabled(space, step) && !step.Write?
      requires step.CommitClears? ==> pins == {}
      modifies this`space
      ensures Valid() && space == LogSpace.Apply(old(space), step, size)
    {
      LogSpace.ReachableStep(space, step, size);
      LogSpace.ReachableInv(space, size);
      space := LogSpace.Apply(space, step, size);
    }

    /**
     bread: NONE, which is bget's panic, exactly when the block is in no buffer and every buffer has
     references. A pinned buffer is never recycled.
     */
    method Bread(k: int) returns (b: int)
      requires Valid() && 0 <= k < |bc.disk| && (bc.home[k] != NONE ==> !bc.locked[bc.home[k]])
      modifies bc`dev, bc`blockno, bc`valid, bc`refcnt, bc`home, bc`locked, bc`data
      ensures Valid() && bc.LatestKept()
      ensures b == NONE <==> old(bc.home)[k] == NONE && forall c :: IsBuf(c) ==> old(bc.refcnt)[c] > 0
      ensures b != NONE ==> IsBuf(b) && bc.locked[b] && bc.valid[b] && bc.dev[b] == ROOTDEV && bc.blockno[b] == k
      ensures b != NONE ==> bc.data[b] == old(bc.Latest(k))
      ensures b != NONE ==> bc.refcnt == old(bc.refcnt)[b := old(bc.refcnt)[b] + 1]
      ensures b != NONE ==> bc.locked == old(bc.locked)[b := true]
      ensures b != NONE ==> bc.dev == old(bc.dev)[b := ROOTDEV] && bc.blockno == old(bc.blockno)[b := k]
      ensures b != NONE && old(bc.home)[k] == NONE ==> old(bc.refcnt)[b] == 0
      ensures b == NONE ==> bc.dev == old(bc.dev) && bc.blockno == old(bc.blockno) && bc.refcnt == old(bc.refcnt)
    {
      b := bc.Bget(k);
      if b != NONE {
        assert old(BufKept(b));
        bc.LockAndFill(b);
      }
      BreadKeeps(b);
    }

    /** A buffer whose block has changed had no references, so it was in no log; the others are as they were. */
    twostate lemma BreadKeeps(new b: int)
      requires old(Valid()) && bc.Valid() && pins == old(pins) && space == old(space) && bc.disk == old(bc.disk)
      requires forall k :: 0 <= k < |bc.disk| && old(bc.home)[k] != NONE && k in pins ==> bc.home[k] == old(bc.home)[k]
      requires forall c :: IsBuf(c) && c != b ==>
        && bc.dev[c] == old(bc.dev)[c] && bc.blockno[c] == old(bc.blockno)[c] && bc.valid[c] == old(bc.valid)[c]
        && bc.refcnt[c] == old(bc.refcnt)[c] && bc.locked[c] == old(bc.locked)[c] && bc.data[c] == old(bc.data)[c]
      requires IsBuf(b) ==> bc.valid[b] && bc.locked[b] && bc.refcnt[b] == old(bc.refcnt)[b] + 1
      requires IsBuf(b) && InLog(b) ==> old(InLog(b))
      ensures Valid()
    {
      forall c | IsBuf(c)
        ensures BufKept(c)
      {
        assert old(BufKept(c));
      }
    }

    /** A holder changes the buffer's data. */
    method Modify(b: int, content: Content)
      requires Valid() && IsBuf(b) && bc.locked[b] && bc.valid[b]
      modifies bc`data
      ensures Valid()
      ensures 0 <= bc.blockno[b] < |bc.disk| && bc.disk == old(bc.disk)
      ensures forall k :: 0 <= k < |bc.disk| ==> bc.Latest(k) == if k == bc.blockno[b] then content
        else old(bc.Latest(k))
    {
      bc.Modify(b, content);
      forall c | IsBuf(c)
        ensures BufKept(c)
      {
        assert old(BufKept(c));
      }
    }

    /**
     log_write: panics when the log is full; otherwise the first write of a block to the log pins
     its buffer, and a later one is absorbed. The log takes the step Write.
     */
    method LogWrite(b: int, ghost op: nat) returns (panicked: bool)
      requires Valid() && IsBuf(b) && bc.locked[b] && bc.valid[b] && bc.dev[b] == ROOTDEV
      requires 0 <= bc.blockno[b] && LogSpace.Enabled(space, LogSpace.Write(op, bc.blockno[b]))
      modifies this`pins, this`space, bc`refcnt
      ensures Valid() && bc.LatestKept()
      ensures space == LogSpace.Apply(old(space), LogSpace.Write(op, bc.blockno[b]), size)
      ensures panicked <==> |old(pins)| == LogSpace.Room(size)
      ensures panicked ==> pins == old(pins) && bc.refcnt == old(bc.refcnt)
      ensures !panicked ==> InLog(b) && pins == old(pins) + {bc.blockno[b]}
      ensures !panicked ==>
        bc.refcnt == if old(InLog(b)) then old(bc.refcnt) else old(bc.refcnt)[b := old(bc.refcnt)[b] + 1]
    {
      var k := bc.blockno[b];
      LogSpace.ReachableInv(space, size);
      LogSpace.ReachableFits(space, size);
      LogSpace.ReachableStep(space, LogSpace.Write(op, k), size);
      space := LogSpace.Apply(space, LogSpace.Write(op, k), size);
      panicked := |pins| >= LOGSIZE || |pins| >= size - 1;
      if !panicked {
        Pin(b);
      }
    }

    /** The pin of log_write's last lines, once the log has taken its step. */
    method Pin(b: int)
      requires BufsOk() && IsBuf(b) && bc.locked[b] && bc.valid[b] && bc.dev[b] == ROOTDEV
      requires Follows(pins + {bc.blockno[b]}, space, size)
      modifies this`pins, bc`refcnt
      ensures Valid() && bc.LatestKept() && InLog(b) && pins == old(pins) + {bc.blockno[b]}
      ensures bc.refcnt == if old(InLog(b)) then old(bc.refcnt) else old(bc.refcnt)[b := old(bc.refcnt)[b] + 1]
    {
      assert BufKept(b) && bc.BufOk(b);
      if !InLog(b) {
        bc.Bpin(b);
        pins := pins + {bc.blockno[b]};
      } else {
        assert pins + {bc.blockno[b]} == pins;
      }
      forall c | IsBuf(c)
        ensures BufKept(c)
      {
        assert old(BufKept(c));
      }
    }

    /** brelse of a buffer that its holder has logged or left as the disk has it. */
    method Brelse(b: int)
      requires Valid() && IsBuf(b) && bc.locked[b] && (InLog(b) || bc.Clean(b))
      modifies bc`locked, bc`refcnt, bc`next, bc`prev, bc`order, bc`pos, bc`stamp, bc`clock
      ensures Valid() && bc.LatestKept() && bc.refcnt == old(bc.refcnt)[b := old(bc.refcnt)[b] - 1]
      ensures bc.locked == old(bc.locked)[b := false]
    {
      assert BufKept(b);
      bc.Unlock(b);
      bc.Drop(b);
      BrelseKeeps(b);
    }

    twostate lemma BrelseKeeps(new b: int)
      requires old(Valid()) && bc.Valid() && IsBuf(b) && old(bc.locked[b] && (InLog(b) || bc.Clean(b)))
        && pins == old(pins) && space == old(space)
      requires bc.dev == old(bc.dev) && bc.blockno == old(bc.blockno) && bc.valid == old(bc.valid)
        && bc.data == old(bc.data)
      requires bc.home == old(bc.home) && bc.disk == old(bc.disk) && bc.locked == old(bc.locked)[b := false]
      requires bc.refcnt == old(bc.refcnt)[b := old(bc.refcnt)[b] - 1]
      ensures Valid()
    {
      forall c | IsBuf(c)
        ensures BufKept(c)
      {
        assert old(BufKept(c));
      }
    }

    /** install_trans for the home block in b: bwrite, bunpin, brelse. The unpinned buffer is clean. */
    method Install(b: int)
      requires Valid() && IsBuf(b) && bc.locked[b] && InLog(b) && space.committing
      modifies this`pins, bc
      ensures Valid() && pins == old(pins) - {old(bc.blockno)[b]}
      ensures bc.dev == old(bc.dev) && bc.blockno == old(bc.blockno) && bc.data == old(bc.data)
        && bc.valid == old(bc.valid)
      ensures 0 <= bc.blockno[b] < |old(bc.disk)| && bc.disk == old(bc.disk)[bc.blockno[b] := bc.data[b]] && bc.Clean(b)
    {
      Bwrite(b);
      Bunpin(b);
      Brelse(b);
    }

    method Bwrite(b: int)
      requires Valid() && IsBuf(b) && bc.locked[b] && InLog(b)
      modifies bc`disk
      ensures Valid() && bc.LatestKept() && bc.Clean(b)
      ensures 0 <= bc.blockno[b] < |old(bc.disk)| && bc.disk == old(bc.disk)[bc.blockno[b] := bc.data[b]]
    {
      assert BufKept(b) && bc.BufOk(b);
      bc.Bwrite(b);
      forall c | IsBuf(c)
        ensures BufKept(c)
      {
        assert old(BufKept(c));
      }
    }

    method Bunpin(b: int)
      requires Valid() && IsBuf(b) && bc.locked[b] && InLog(b) && bc.Clean(b) && space.committing
      modifies this`pins, bc`refcnt
      ensures Valid() && bc.LatestKept() && pins == old(pins) - {bc.blockno[b]} && !InLog(b)
    {
      assert BufKept(b);
      bc.Bunpin(b);
      pins := pins - {bc.blockno[b]};
      forall c | IsBuf(c)
        ensures BufKept(c)
      {
        assert old(BufKept(c)) && old(BufKept(b));
        assert bc.home[bc.blockno[b]] == b && (bc.dev[c] == ROOTDEV ==> bc.home[bc.blockno[c]] == c);
      }
    }

    /** Once the log is installed, what nobody holds is on the disk. */
    lemma NothingDirty(b: int)
      requires Valid() && pins == {} && IsBuf(b) && !bc.locked[b]
      ensures bc.Clean(b)
    {
      assert BufKept(b);
    }

    ghost function PinnedBufs(): (r: set<int>)
      requires bc.Valid()
      reads this, bc
    {
      set b | 0 <= b < NBUF && InLog(b)
    }

    /** The references are exactly those of the log's pins. */
    ghost predicate OnlyPins()
      requires bc.Valid()
      reads this, bc
    {
      forall b :: IsBuf(b) ==> bc.refcnt[b] == if InLog(b) then 1 else 0
    }

    /**
     When only the log's pins hold references, every buffer has one, so that bread of a block that
     is in no buffer panics, if and only if NBUF blocks are pinned.
     */
    lemma PinsFillIff()
      requires Valid() && OnlyPins()
      ensures (forall b :: IsBuf(b) ==> bc.refcnt[b] > 0) <==> |pins| == NBUF
      ensures |pins| == NBUF ==> forall b :: IsBuf(b) ==> InLog(b)
    {
      var all, pinned := Below(NBUF), PinnedBufs();
      forall b | IsBuf(b)
        ensures bc.refcnt[b] > 0 <==> b in pinned
      {
        assert BufKept(b) && bc.BufOk(b);
      }
      SameSize(pinned, pins, bc.blockno, bc.home);
      if |pins| == NBUF {
        SubsetSize(pinned, all);
      }
      assert pinned == all <==> forall b :: IsBuf(b) ==> b in pinned;
    }

    /** On a log of at most LOGSIZE blocks, such as mkfs makes, the pins always leave a buffer. */
    lemma PinsLeaveOne()
      requires Valid() && OnlyPins() && 0 < size <= LOGSIZE
      ensures exists b :: IsBuf(b) && bc.refcnt[b] == 0
    {
      LogSpace.ReachableInv(space, size);
      LogSpace.ReachableFits(space, size);
      SubsetFits(pins, space.logged);
      PinsFillIff();
    }

    ghost predicate Unlocked()
      requires bc.Valid()
      reads bc
    {
      forall b :: IsBuf(b) ==> !bc.locked[b]
    }

    /** As OnlyPins, but for one reference on b by its holder. */
    ghost predicate HeldOnly(b: int)
      requires bc.Valid() && IsBuf(b)
      reads this, bc
    {
      && bc.locked[b] && bc.refcnt[b] == (if InLog(b) then 2 else 1)
      && forall c :: IsBuf(c) && c != b ==> !bc.locked[c] && bc.refcnt[c] == if InLog(c) then 1 else 0
    }

    method ReadNext(k: int) returns (b: int)
      requires Valid() && OnlyPins() && Unlocked() && 0 <= k < |bc.disk| && k !in pins && |pins| < NBUF
      modifies bc`dev, bc`blockno, bc`valid, bc`refcnt, bc`home, bc`locked, bc`data
      ensures Valid() && IsBuf(b) && HeldOnly(b)
      ensures bc.valid[b] && bc.dev[b] == ROOTDEV && bc.blockno[b] == k
    {
      PinsFillIff();
      b := Bread(k);
      assert !old(InLog(b)) by { assert old(bc.BufOk(b)); }
    }

    /** log_write of a buffer that is held, and brelse. */
    method LogNext(b: int, k: nat, op: nat)
      requires Valid() && IsBuf(b) && HeldOnly(b) && bc.valid[b] && bc.dev[b] == ROOTDEV && bc.blockno[b] == k
      requires LogSpace.Enabled(space, LogSpace.Write(op, k)) && |pins| < LogSpace.Room(size) && !InLog(b)
      modifies this`pins, this`space, bc`refcnt, bc`locked, bc`next, bc`prev, bc`order, bc`pos, bc`stamp, bc`clock
      ensures Valid() && OnlyPins() && Unlocked()
      ensures space == LogSpace.Apply(old(space), LogSpace.Write(op, k), size) && pins == old(pins) + {k}
    {
      var _ := LogWrite(b, op);
      LoggedOne(b);
      Brelse(b);
    }

    twostate lemma LoggedOne(new b: int)
      requires old(Valid()) && Valid() && IsBuf(b) && old(HeldOnly(b)) && old(!InLog(b)) && InLog(b)
      requires bc.dev == old(bc.dev) && bc.blockno == old(bc.blockno) && bc.locked == old(bc.locked)
      requires pins == old(pins) + {bc.blockno[b]} && bc.dev[b] == ROOTDEV
      requires bc.refcnt == old(bc.refcnt)[b := old(bc.refcnt)[b] + 1]
      ensures HeldOnly(b)
    {
      forall c | IsBuf(c) && c != b
        ensures InLog(c) <==> old(InLog(c))
      {
        assert bc.home[bc.blockno[b]] == b && (bc.dev[c] == ROOTDEV ==> bc.home[bc.blockno[c]] == c);
      }
    }

    /** Three operations within their quotas write the blocks below LOGSIZE, and bread wants one more. */
    method PinEveryBuffer() returns (b: int)
      requires Valid() && OnlyPins() && Unlocked() && size > LOGSIZE && |bc.disk| > NBUF
      requires space == LogSpace.INIT
      modifies this`pins, this`space, bc`dev, bc`blockno, bc`valid, bc`refcnt, bc`home, bc`locked, bc`data
      modifies bc`next, bc`prev, bc`order, bc`pos, bc`stamp, bc`clock
      ensures Valid() && OnlyPins() && |pins| == NBUF && b == NONE
    {
      StartThree();
      var k := 0;
      while k < LOGSIZE
        invariant 0 <= k <= LOGSIZE
        invariant Valid() && OnlyPins() && Unlocked()
        invariant space == LogSpace.Filled(k) && pins == LogSpace.Below(k)
      {
        PinNext(k);
        k := k + 1;
      }
      b := ReadOneMore();
    }

    method PinNext(k: nat)
      requires Valid() && OnlyPins() && Unlocked() && k < LOGSIZE < size && k < |bc.disk|
      requires space == LogSpace.Filled(k) && pins == LogSpace.Below(k)
      modifies this`pins, this`space, bc`dev, bc`blockno, bc`valid, bc`refcnt, bc`home, bc`locked, bc`data
      modifies bc`next, bc`prev, bc`order, bc`pos, bc`stamp, bc`clock
      ensures Valid() && OnlyPins() && Unlocked()
      ensures space == LogSpace.Filled(k + 1) && pins == LogSpace.Below(k + 1)
    {
      var op := k / MAXOPBLOCKS;
      FillNext(k, op);
      var b := ReadNext(k);
      LogNext(b, k, op);
    }

    lemma FillNext(k: nat, op: nat)
      requires k < LOGSIZE < size && op == k / MAXOPBLOCKS
      ensures LogSpace.Enabled(LogSpace.Filled(k), LogSpace.Write(op, k))
      ensures LogSpace.Apply(LogSpace.Filled(k), LogSpace.Write(op, k), size) == LogSpace.Filled(k + 1)
      ensures LogSpace.Below(k) + {k} == LogSpace.Below(k + 1)
    {
      LogSpace.FillOne(k + 1, op, size);
    }

    method StartThree()
      requires Valid() && space == LogSpace.INIT
      modifies this`space
      ensures Valid() && space == LogSpace.Filled(0)
    {
      Follow(LogSpace.Begin);
      Follow(LogSpace.Begin);
      Follow(LogSpace.Begin);
    }

    method ReadOneMore() returns (b: int)
      requires Valid() && OnlyPins() && Unlocked() && |bc.disk| > NBUF && pins == LogSpace.Below(NBUF)
      modifies bc`dev, bc`blockno, bc`valid, bc`refcnt, bc`home, bc`locked, bc`data
      ensures Valid() && OnlyPins() && b == NONE
    {
      PinsFillIff();
      NotCached();
      b := Bread(NBUF);
    }

    lemma NotCached()
      requires Valid() && |bc.disk| > NBUF && pins == LogSpace.Below(NBUF)
      requires forall b :: IsBuf(b) ==> InLog(b)
      ensures bc.home[NBUF] == NONE
    {
      var b := bc.home[NBUF];
      assert IsBuf(b) ==> InLog(b);
    }
  }

  /** The pins are the logged blocks; during a commit, those not yet installed. */
  ghost predicate Follows(pins: set<int>, space: LogSpace.State, size: nat) {
    && size > 0 && LogSpace.Reachable(space, size)
    && pins <= space.logged && (space.committing || pins == space.logged)
  }

  /** A log with a block for each of LOGSIZE logged blocks lets its pins take every buffer. */
  method PinsTakeAll(contents: seq<Content>, nlog: nat) returns (c: PinnedCache, b: int)
    requires nlog > LOGSIZE && |contents| > NBUF
    ensures c.Valid() && c.OnlyPins() && |c.pins| == NBUF && b == NONE
  {
    c := new PinnedCache(contents, nlog);
    b := c.PinEveryBuffer();
  }

  lemma SubsetFits(x: set<int>, y: set<nat>)
    requires x <= y
    ensures |x| <= |y|
  {
    var z: set<int> := y;
    assert |z - x| == |z| - |x|;
  }

  function Below(n: nat): (r: set<int>)
    ensures |r| == n && forall b :: b in r <==> 0 <= b < n
  {
    if n == 0 then {} else Below(n - 1) + {n - 1}
  }

  /** A subset of the same size is the whole set. */
  lemma SubsetSize(x: set<int>, y: set<int>)
    requires x <= y && |x| == |y|
    ensures x == y
  {
    assert |y - x| == 0;
  }

  /** Blocks and the buffers that hold them are as many. */
  lemma {:induction false} SameSize(bufs: set<int>, blocks: set<int>, blockno: seq<int>, home: seq<int>)
    requires forall b :: b in bufs ==> 0 <= b < |blockno| && 0 <= blockno[b] < |home| && home[blockno[b]] == b
    requires forall b :: b in bufs ==> blockno[b] in blocks
    requires forall k :: k in blocks ==> 0 <= k < |home| && home[k] in bufs && blockno[home[k]] == k
    ensures |bufs| == |blocks|
    decreases |blocks|
  {
    if k :| k in blocks {
      SameSize(bufs - {home[k]}, blocks - {k}, blockno, home);
    } else {
      assert forall b :: b !in bufs;
      assert forall k :: k !in blocks;
      assert bufs == {} && blocks == {};
    }
  }
}
