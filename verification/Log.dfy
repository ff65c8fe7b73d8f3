/**
 The logging layer of kernel/log.c, run against the disk functions of LogDisk.

 `cache` holds the contents of the pinned buffers, which is what bread returns for them; every
 other block is read from the disk. `trace` records the disk after every block write, so that
 "the machine stops here" can be said of each of them.
 */
module Log {
  import opened Params
  import opened LogDisk

  /** The pinned buffers left after the first k blocks of lh were unpinned. */
  function Unpinned(cache: Cache, lh: seq<nat>, k: nat): (r: Cache)
    requires k <= |lh|
    ensures forall b :: b in r <==> b in cache && b !in lh[..k]
  {
    if k == 0 then cache else
      assert lh[..k] == lh[..k - 1] + [lh[k - 1]];
      Unpinned(cache, lh, k - 1) - {lh[k - 1]}
  }

  lemma UnpinnedNext(cache: Cache, lh: seq<nat>, k: nat)
    requires k < |lh|
    ensures Unpinned(cache, lh, k + 1) == Unpinned(cache, lh, k) - {lh[k]}
  {
  }

  lemma CommittedReady(d: Disk, a: Area, cache: Cache, lh: seq<nat>)
    requires CommitOk(d, a, cache, lh)
    ensures DiskOk(Committed(d, a, cache, lh), a) && LogOf(Committed(d, a, cache, lh), a) == lh
    ensures HomeIsTarget(Recovered(Committed(d, a, cache, lh), a), d, a, cache, lh)
  {
    CommittedOk(d, a, cache, lh);
    CommittedRecovers(d, a, cache, lh);
  }

  /** One more iteration of install_trans. */
  lemma InstallNext(d: Disk, a: Area, lh: seq<nat>, k: nat)
    requires LogList(lh, a, |d|) && k < |lh|
    ensures var e := Installed(d, a, lh, k); var e' := e[lh[k] := e[a.start + k + 1]];
      Installed(d, a, lh, k + 1) == e' && Installs(d, a, lh, k + 1) == Installs(d, a, lh, k) + [e']
  {
    InstalledLog(d, a, lh, k);
    assert a.Has(a.start + k + 1);
  }

  /** lh lists the blocks of the cache. */
  ghost predicate Listed(lh: seq<nat>, cache: Cache, a: Area, len: nat) {
    && LogList(lh, a, len)
    && (forall b :: b in cache ==> b in lh && |cache[b]| == WORDS)
    && (forall i :: 0 <= i < |lh| ==> lh[i] in cache)
  }

  lemma Absorbed(lh: seq<nat>, cache: Cache, a: Area, len: nat, b: nat, data: Block, lh': seq<nat>)
    requires Listed(lh, cache, a, len) && |lh| < LOGSIZE && |lh| < a.size - 1 && b < len && !a.Has(b) && |data| == WORDS
    requires lh' == if b in lh then lh else lh + [b]
    ensures Listed(lh', cache[b := data], a, len)
  {
  }

  lemma Regroup(x: seq<Disk>, y: seq<Disk>, z: seq<Disk>)
    ensures x + y + z == x + (y + z)
  {
  }

  datatype Outcome = Done | Panic(message: string)

  class Log {
    const area: Area
    var disk: Disk
    var cache: Cache
    var n: nat
    var block: array<nat>
    var outstanding: nat
    var committing: bool
    ghost var trace: seq<Disk>

    ghost predicate Valid()
      reads this, block
    {
      && block.Length == LOGSIZE && n <= LOGSIZE
      && DiskOk(disk, area)
      && Listed(Lh(), cache, area, |disk|)
    }

    /** No transaction is on the disk: true outside commit and recovery. */
    ghost predicate Clean()
      requires Valid()
      reads this, block
    {
      LogOf(disk, area) == []
    }

    /** The in-memory list of logged blocks. */
    function Lh(): seq<nat>
      requires n <= block.Length
      reads this, block
    {
      block[..n]
    }

    /** initlog: a transaction that was committed before the machine stopped is installed. */
    constructor (superblock: Area, contents: Disk)
      requires DiskOk(contents, superblock)
      ensures Valid() && Clean() && fresh(block) && area == superblock && Idle()
      ensures disk == Recovered(contents, superblock)
      ensures trace == RecoveryTrace(contents, superblock)
    {
      area, disk := superblock, contents;
      n, cache, outstanding, committing := 0, map[], 0, false;
      block := new nat[LOGSIZE];
      trace := [];
      new;
      RecoverFromLog();
    }

    /** No operation is running, and nothing is logged. */
    predicate Idle()
      reads this
    {
      n == 0 && cache == map[] && outstanding == 0 && !committing
    }

    /** What bread returns: the contents every system call sees. */
    function View(b: nat): Block
      requires b < |disk|
      reads this
    {
      if b in cache then cache[b] else disk[b]
    }

    /** bwrite: one atomic block write. */
    method BWrite(b: nat, data: Block)
      requires b < |disk|
      modifies this`disk, this`trace
      ensures disk == old(disk)[b := data] && trace == old(trace) + [disk]
    {
      disk := disk[b := data];
      trace := trace + [disk];
    }

    /** read_head: n and block[] as the header block has them. */
    method ReadHead()
      requires block.Length == LOGSIZE && DiskOk(disk, area)
      modifies this`n, block
      ensures n <= LOGSIZE && Lh() == LogOf(disk, area)
    {
      var head := disk[area.start];
      n := head[0];
      var i := 0;
      while i < n
        invariant i <= n == head[0] <= LOGSIZE
        invariant forall j :: 0 <= j < i ==> block[j] == head[1 + j]
      {
        block[i] := head[1 + i];
        i := i + 1;
      }
    }

    /** write_head: one write, the commit point when n > 0 and the erasure when n == 0. */
    method WriteHead()
      requires block.Length == LOGSIZE && n <= LOGSIZE
      requires area.start < |disk| && |disk[area.start]| == WORDS
      modifies this`disk, this`trace
      ensures disk == old(disk)[area.start := SetHead(old(disk)[area.start], Lh())]
      ensures trace == old(trace) + [disk]
    {
      ghost var old_head := disk[area.start];
      var head := disk[area.start];
      head := head[0 := n];
      var i := 0;
      while i < n
        invariant i <= n
        invariant |head| == WORDS && head[0] == n
        invariant forall j :: 0 <= j < i ==> head[1 + j] == block[j]
        invariant forall j :: i < j < WORDS ==> head[j] == old_head[j]
      {
        head := head[1 + i := block[i]];
        i := i + 1;
      }
      assert head == SetHead(old_head, Lh());
      BWrite(area.start, head);
    }

    /** write_log: copies the cached blocks of the transaction to the log, in order. */
    method WriteLog()
      requires Valid()
      modifies this`disk, this`trace
      ensures disk == LogWritten(old(disk), area, cache, Lh(), n)
      ensures trace == old(trace) + LogWrites(old(disk), area, cache, Lh(), n)
    {
      ghost var d, lh := disk, Lh();
      var tail := 0;
      while tail < n
        invariant tail <= n && Lh() == lh
        invariant disk == LogWritten(d, area, cache, lh, tail)
        invariant trace == old(trace) + LogWrites(d, area, cache, lh, tail)
      {
        var from := View(block[tail]);
        BWrite(area.start + tail + 1, from);
        tail := tail + 1;
      }
    }

    /** install_trans: copies the logged blocks home; after a commit it also unpins them. */
    method InstallTrans(recovering: bool)
      requires block.Length == LOGSIZE && n <= LOGSIZE && LogList(Lh(), area, |disk|)
      modifies this`disk, this`trace, this`cache
      ensures disk == Installed(old(disk), area, Lh(), n)
      ensures trace == old(trace) + Installs(old(disk), area, Lh(), n)
      ensures cache == if recovering then old(cache) else Unpinned(old(cache), Lh(), n)
    {
      ghost var d, lh := disk, Lh();
      var tail := 0;
      while tail < n
        invariant tail <= n && Lh() == lh
        invariant disk == Installed(d, area, lh, tail)
        invariant trace == old(trace) + Installs(d, area, lh, tail)
        invariant cache == if recovering then old(cache) else Unpinned(old(cache), lh, tail)
      {
        InstallNext(d, area, lh, tail);
        var logged := disk[area.start + tail + 1];
        BWrite(block[tail], logged);
        UnpinnedNext(old(cache), lh, tail);
        if !recovering {
          cache := cache - {block[tail]};
        }
        tail := tail + 1;
      }
    }

    /** recover_from_log, as run by initlog before any operation starts. */
    method RecoverFromLog()
      requires block.Length == LOGSIZE && DiskOk(disk, area) && cache == map[]
      modifies this`disk, this`trace, this`cache, this`n, block
      ensures Valid() && Clean() && n == 0 && cache == map[]
      ensures disk == Recovered(old(disk), area)
      ensures trace == old(trace) + RecoveryTrace(old(disk), area)
    {
      ghost var d := disk;
      ReadHead();
      InstallTrans(true);
      InstalledOk(d, area, n);
      InstalledLog(d, area, LogOf(d, area), n);
      assert area.Has(area.start);
      n := 0;
      WriteHead();
      RecoveredOk(d, area);
      assert Lh() == [];
    }

    /** commit: the disk passes through exactly the states CommitState describes. */
    method Commit()
      requires Valid() && Clean()
      modifies this`disk, this`trace, this`cache, this`n
      ensures Valid() && Clean() && n == 0 && cache == map[]
      ensures CommitOk(old(disk), area, old(cache), old(Lh()))
      ensures trace == old(trace) + CommitTrace(old(disk), area, old(cache), old(Lh()))
      ensures HomeIsTarget(disk, old(disk), area, old(cache), old(Lh()))
    {
      if n > 0 {
        PersistAndApply();
      } else {
        assert Lh() == [];
      }
    }

    /** commit when there is something to commit. */
    method PersistAndApply()
      requires Valid() && Clean() && n > 0
      modifies this`disk, this`trace, this`cache, this`n
      ensures n == 0 && cache == map[] && CommitOk(old(disk), area, old(cache), old(Lh()))
      ensures DiskOk(disk, area) && LogOf(disk, area) == []
      ensures trace == old(trace) + CommitTrace(old(disk), area, old(cache), old(Lh()))
      ensures HomeIsTarget(disk, old(disk), area, old(cache), old(Lh()))
    {
      ghost var d, c, lh, t := disk, cache, Lh(), trace;
      Persist();
      CommittedReady(d, area, c, lh);
      Apply();
      Regroup(t, LogWrites(d, area, c, lh, |lh|) + [Committed(d, area, c, lh)],
        RecoveryTrace(Committed(d, area, c, lh), area));
    }

    /** The first half of commit: the log blocks, then the header, which is the commit point. */
    method Persist()
      requires Valid() && Clean()
      modifies this`disk, this`trace
      ensures CommitOk(old(disk), area, cache, Lh())
      ensures disk == Committed(old(disk), area, cache, Lh())
      ensures trace == old(trace) + (LogWrites(old(disk), area, cache, Lh(), n) + [disk])
    {
      ghost var d := disk;
      WriteLog();
      LogWrittenAt(d, area, cache, Lh(), n, area.start);
      WriteHead();
    }

    /** The second half: the installs, then the erasure of the header. */
    method Apply()
      requires block.Length == LOGSIZE && n <= LOGSIZE
      requires DiskOk(disk, area) && LogOf(disk, area) == Lh()
      requires forall b :: b in cache ==> b in Lh()
      modifies this`disk, this`trace, this`cache, this`n
      ensures n == 0 && cache == map[]
      ensures disk == Recovered(old(disk), area) && DiskOk(disk, area) && LogOf(disk, area) == []
      ensures trace == old(trace) + RecoveryTrace(old(disk), area)
    {
      ghost var d, lh := disk, Lh();
      InstallTrans(false);
      assert lh[..n] == lh;
      InstalledLog(d, area, lh, n);
      assert area.Has(area.start);
      n := 0;
      WriteHead();
      RecoveredOk(d, area);
    }

    /**
     log_write: absorbs a block that is already logged, otherwise appends it and pins its buffer.
     The fullness test comes before absorption, so on a full log even an absorbed write panics.
     */
    method LogWrite(b: nat, data: Block) returns (r: Outcome)
      requires Valid() && b < |disk| && !area.Has(b) && |data| == WORDS
      modifies this`cache, this`n, block
      ensures Valid() && (Clean() <==> old(Clean()))
      ensures r == if old(n) >= LOGSIZE || old(n) >= area.size - 1 then Panic("too big a transaction")
                   else if outstanding < 1 then Panic("log_write outside of trans")
                   else Done
      ensures r.Panic? ==> cache == old(cache) && Lh() == old(Lh())
      ensures r.Done? ==> cache == old(cache)[b := data]
      ensures r.Done? ==> Lh() == if b in old(Lh()) then old(Lh()) else old(Lh()) + [b]
    {
      if n >= LOGSIZE || n >= area.size - 1 {
        return Panic("too big a transaction");
      }
      if outstanding < 1 {
        return Panic("log_write outside of trans");
      }
      Absorb(b, data);
      return Done;
    }

    /** The loop of log_write: where b is listed, or n. */
    method Place(b: nat) returns (i: nat)
      requires n <= block.Length
      ensures i <= n && (i < n ==> block[i] == b) && forall j :: 0 <= j < i ==> block[j] != b
    {
      i := 0;
      while i < n && block[i] != b
        invariant i <= n
        invariant forall j :: 0 <= j < i ==> block[j] != b
      {
        i := i + 1;
      }
    }

    /** block[i] = b, and n grows when i is its end. */
    method Enlist(i: nat, b: nat)
      requires i <= n < block.Length && (i < n ==> block[i] == b)
      modifies this`n, block
      ensures n <= block.Length && Lh() == if i == old(n) then old(Lh()) + [b] else old(Lh())
    {
      ghost var lh := Lh();
      block[i] := b;
      if i == n {
        n := n + 1;
      }
      assert Lh() == if i == |lh| then lh + [b] else lh;
    }

    /** The loop of log_write and what follows it. */
    method Absorb(b: nat, data: Block)
      requires Valid() && b < |disk| && !area.Has(b) && |data| == WORDS && n < LOGSIZE && n < area.size - 1
      modifies this`cache, this`n, block
      ensures Valid() && (Clean() <==> old(Clean()))
      ensures cache == old(cache)[b := data]
      ensures Lh() == if b in old(Lh()) then old(Lh()) else old(Lh()) + [b]
    {
      var i := Place(b);
      ghost var lh := Lh();
      assert b in lh <==> i < n;
      Enlist(i, b);
      Absorbed(lh, cache, area, |disk|, b, data, Lh());
      cache := cache[b := data];
    }

    /** One turn of begin_op's loop under the log lock: admitted, or it has to sleep. */
    method BeginOp() returns (admitted: bool)
      modifies this`outstanding
      ensures admitted == (!committing && n + (old(outstanding) + 1) * MAXOPBLOCKS <= LOGSIZE)
      ensures outstanding == if admitted then old(outstanding) + 1 else old(outstanding)
    {
      if committing || n + (outstanding + 1) * MAXOPBLOCKS > LOGSIZE {
        return false;
      }
      outstanding := outstanding + 1;
      return true;
    }

    /** end_op: the last operation out commits everything that was logged. */
    method EndOp() returns (r: Outcome)
      requires Valid() && Clean() && outstanding > 0
      modifies this`outstanding, this`committing, this`disk, this`trace, this`cache, this`n
      ensures Valid() && Clean() && outstanding == old(outstanding) - 1
      ensures r.Panic? <==> old(committing)
      ensures !old(committing) ==> !committing
      ensures |disk| == |old(disk)| && forall b: nat :: b < |disk| && !area.Has(b) ==> View(b) == old(View(b))
      ensures r.Done? && outstanding == 0 ==>
        n == 0 && cache == map[] && forall b: nat :: b < |disk| && !area.Has(b) ==> disk[b] == old(View(b))
      ensures outstanding > 0 || r.Panic? ==>
        disk == old(disk) && n == old(n) && cache == old(cache) && trace == old(trace)
      ensures r.Done? && outstanding == 0 ==> CommitOk(old(disk), area, old(cache), old(Lh()))
      ensures r.Done? && outstanding == 0 ==> trace == old(trace) + CommitTrace(old(disk), area, old(cache), old(Lh()))
    {
      outstanding := outstanding - 1;
      if committing {
        return Panic("log.committing");
      }
      if outstanding == 0 {
        CommitLast();
      }
      return Done;
    }

    /** end_op's call of commit, outside the log lock. */
    method CommitLast()
      requires Valid() && Clean()
      modifies this`committing, this`disk, this`trace, this`cache, this`n
      ensures Valid() && Clean() && !committing && n == 0 && cache == map[] && |disk| == |old(disk)|
      ensures forall b: nat :: b < |disk| && !area.Has(b) ==> View(b) == disk[b] == old(View(b))
      ensures CommitOk(old(disk), area, old(cache), old(Lh()))
      ensures trace == old(trace) + CommitTrace(old(disk), area, old(cache), old(Lh()))
    {
      committing := true;
      Commit();
      committing := false;
    }
  }
}
