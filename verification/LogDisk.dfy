/**
 The on-disk redo log of kernel/log.c, as functions on disks.

 A disk is a sequence of blocks and a block a sequence of 32-bit words. The log occupies the
 blocks start..start+size: a header block, whose words are n and the n home block numbers, and
 the logged copies. Everything else is a home block.
 */
module LogDisk {
  import opened Params

  const WORDS := BSIZE / 4

  type Block = seq<nat>
  type Disk = seq<Block>
  type Cache = map<nat, Block>

  datatype Area = Area(start: nat, size: nat) {
    predicate Has(b: int) {
      start <= b < start + size
    }
  }

  /** lh can be the list of logged home blocks of a disk with len blocks. */
  ghost predicate LogList(lh: seq<nat>, a: Area, len: nat) {
    && |lh| <= LOGSIZE && |lh| < a.size && a.start + a.size <= len
    && (forall i :: 0 <= i < |lh| ==> lh[i] < len && !a.Has(lh[i]))
    && (forall i, j :: 0 <= i < j < |lh| ==> lh[i] != lh[j])
  }

  /** The header block that write_head leaves behind: entries past n keep their old words. */
  function SetHead(b: Block, lh: seq<nat>): (r: Block)
    requires |b| == WORDS && |lh| <= LOGSIZE
    ensures |r| == WORDS
  {
    [|lh|] + lh + b[|lh| + 1..]
  }

  ghost predicate DiskOk(d: Disk, a: Area) {
    && a.size > 0 && a.start + a.size <= |d|
    && (forall b :: 0 <= b < |d| ==> |d[b]| == WORDS)
    && d[a.start][0] <= LOGSIZE
    && LogList(LogOf(d, a), a, |d|)
  }

  /** The list read_head reads. */
  function LogOf(d: Disk, a: Area): seq<nat>
    requires a.start < |d| && |d[a.start]| == WORDS && d[a.start][0] <= LOGSIZE
  {
    d[a.start][1..1 + d[a.start][0]]
  }

  /** The header block: word 0 is n, the words behind it are the n block numbers, the others are kept. */
  lemma HeaderIs(b: Block, lh: seq<nat>, i: nat)
    requires |b| == WORDS && |lh| <= LOGSIZE && i < WORDS
    ensures SetHead(b, lh)[i] == if i == 0 then |lh| else if i <= |lh| then lh[i - 1] else b[i]
    ensures LogOf([SetHead(b, lh)], Area(0, 1)) == lh
  {
  }

  /** The disk after k iterations of write_log. */
  function LogWritten(d: Disk, a: Area, cache: Cache, lh: seq<nat>, k: nat): (r: Disk)
    requires LogList(lh, a, |d|) && k <= |lh| && forall i :: 0 <= i < |lh| ==> lh[i] in cache
    ensures |r| == |d|
  {
    if k == 0 then d else LogWritten(d, a, cache, lh, k - 1)[a.start + k := cache[lh[k - 1]]]
  }

  /** The disk after k iterations of install_trans. */
  function Installed(d: Disk, a: Area, lh: seq<nat>, k: nat): (r: Disk)
    requires LogList(lh, a, |d|) && k <= |lh|
    ensures |r| == |d|
  {
    if k == 0 then d else Installed(d, a, lh, k - 1)[lh[k - 1] := d[a.start + k]]
  }

  /** The disk after a complete recovery. */
  function Recovered(d: Disk, a: Area): (r: Disk)
    requires DiskOk(d, a)
    ensures |r| == |d|
  {
    var lh := LogOf(d, a);
    Installed(d, a, lh, |lh|)[a.start := SetHead(d[a.start], [])]
  }

  /** The disk after k writes of a recovery: the installs, then the erased header. */
  function RecoveryState(d: Disk, a: Area, k: nat): (r: Disk)
    requires DiskOk(d, a)
    ensures |r| == |d|
  {
    if k <= |LogOf(d, a)| then Installed(d, a, LogOf(d, a), k) else Recovered(d, a)
  }

  /** A transaction that is ready to commit over the disk d. */
  ghost predicate CommitOk(d: Disk, a: Area, cache: Cache, lh: seq<nat>) {
    && DiskOk(d, a) && LogOf(d, a) == []
    && LogList(lh, a, |d|)
    && forall i :: 0 <= i < |lh| ==> lh[i] in cache && |cache[lh[i]]| == WORDS
  }

  /** The disk at the commit point: log blocks and header written, nothing installed. */
  function Committed(d: Disk, a: Area, cache: Cache, lh: seq<nat>): (r: Disk)
    requires CommitOk(d, a, cache, lh)
    ensures |r| == |d|
  {
    LogWritten(d, a, cache, lh, |lh|)[a.start := SetHead(d[a.start], lh)]
  }

  /** The disk after k writes of commit(): |lh| log blocks, the header, the installs, the header. */
  ghost function CommitState(d: Disk, a: Area, cache: Cache, lh: seq<nat>, k: nat): (r: Disk)
    requires CommitOk(d, a, cache, lh)
    ensures |r| == |d|
  {
    CommittedOk(d, a, cache, lh);
    if k <= |lh| then LogWritten(d, a, cache, lh, k)
    else RecoveryState(Committed(d, a, cache, lh), a, k - |lh| - 1)
  }

  /** The home blocks the transaction is meant to produce. */
  function Target(d: Disk, cache: Cache, lh: seq<nat>, b: nat): Block
    requires b < |d| && forall i :: 0 <= i < |lh| ==> lh[i] in cache
  {
    if b in lh then cache[b] else d[b]
  }

  lemma LogWrittenAt(d: Disk, a: Area, cache: Cache, lh: seq<nat>, k: nat, b: nat)
    requires LogList(lh, a, |d|) && k <= |lh| && forall i :: 0 <= i < |lh| ==> lh[i] in cache
    requires b < |d|
    ensures LogWritten(d, a, cache, lh, k)[b]
            == if a.start < b <= a.start + k then cache[lh[b - a.start - 1]] else d[b]
  {
  }

  lemma {:induction false} InstalledAt(d: Disk, a: Area, lh: seq<nat>, k: nat, b: nat)
    requires LogList(lh, a, |d|) && k <= |lh| && b < |d|
    ensures forall i :: 0 <= i < k && lh[i] == b ==> Installed(d, a, lh, k)[b] == d[a.start + i + 1]
    ensures (forall i :: 0 <= i < k ==> lh[i] != b) ==> Installed(d, a, lh, k)[b] == d[b]
  {
    if k > 0 {
      InstalledAt(d, a, lh, k - 1, b);
    }
  }

  /** Installing never touches the log area. */
  lemma InstalledLog(d: Disk, a: Area, lh: seq<nat>, k: nat)
    requires LogList(lh, a, |d|) && k <= |lh|
    ensures forall b :: a.Has(b) ==> Installed(d, a, lh, k)[b] == d[b]
  {
    forall b | a.Has(b)
      ensures Installed(d, a, lh, k)[b] == d[b]
    {
      InstalledAt(d, a, lh, k, b);
    }
  }

  lemma InstalledOk(d: Disk, a: Area, k: nat)
    requires DiskOk(d, a) && k <= |LogOf(d, a)|
    ensures DiskOk(Installed(d, a, LogOf(d, a), k), a)
    ensures LogOf(Installed(d, a, LogOf(d, a), k), a) == LogOf(d, a)
  {
    var lh := LogOf(d, a);
    var d' := Installed(d, a, lh, k);
    InstalledLog(d, a, lh, k);
    assert a.Has(a.start);
    forall b | 0 <= b < |d'|
      ensures |d'[b]| == WORDS
    {
      InstalledAt(d, a, lh, k, b);
      if i :| 0 <= i < k && lh[i] == b {
      }
    }
  }

  lemma RecoveredOk(d: Disk, a: Area)
    requires DiskOk(d, a)
    ensures DiskOk(Recovered(d, a), a) && LogOf(Recovered(d, a), a) == []
  {
    InstalledOk(d, a, |LogOf(d, a)|);
    assert Recovered(d, a)[a.start][0] == 0;
  }

  lemma CommittedOk(d: Disk, a: Area, cache: Cache, lh: seq<nat>)
    requires CommitOk(d, a, cache, lh)
    ensures DiskOk(Committed(d, a, cache, lh), a) && LogOf(Committed(d, a, cache, lh), a) == lh
  {
    var c := Committed(d, a, cache, lh);
    forall b | 0 <= b < |c|
      ensures |c[b]| == WORDS
    {
      LogWrittenAt(d, a, cache, lh, |lh|, b);
    }
    assert LogOf(c, a) == lh;
  }

  /** A recovery that is cut short anywhere and started again ends on the very same disk. */
  lemma RecoveryRestarts(d: Disk, a: Area, k: nat)
    requires DiskOk(d, a)
    ensures DiskOk(RecoveryState(d, a, k), a)
    ensures Recovered(RecoveryState(d, a, k), a) == Recovered(d, a)
  {
    var lh := LogOf(d, a);
    if k <= |lh| {
      InstalledOk(d, a, k);
      InstalledLog(d, a, lh, k);
      var d' := Installed(d, a, lh, k);
      forall b: nat | b < |d|
        ensures Installed(d', a, lh, |lh|)[b] == Installed(d, a, lh, |lh|)[b]
      {
        InstalledAt(d', a, lh, |lh|, b);
        InstalledAt(d, a, lh, |lh|, b);
        InstalledAt(d, a, lh, k, b);
        if i :| 0 <= i < |lh| && lh[i] == b {
          assert a.Has(a.start + i + 1);
        }
      }
      assert a.Has(a.start);
      assert Recovered(d', a) == Recovered(d, a);
    } else {
      RecoveredOk(d, a);
      assert Recovered(Recovered(d, a), a) == Recovered(d, a);
    }
  }

  /** d and e agree on every block outside the log. */
  ghost predicate SameHome(d: Disk, e: Disk, a: Area) {
    |d| == |e| && forall b :: 0 <= b < |d| && !a.Has(b) ==> d[b] == e[b]
  }

  ghost predicate HomeIsTarget(e: Disk, d: Disk, a: Area, cache: Cache, lh: seq<nat>)
    requires forall i :: 0 <= i < |lh| ==> lh[i] in cache
  {
    |e| == |d| && forall b: nat :: b < |d| && !a.Has(b) ==> e[b] == Target(d, cache, lh, b)
  }

  /** Commit stopped after k writes, then recovered: all or nothing, decided by the header write. */
  lemma CommitAtomic(d: Disk, a: Area, cache: Cache, lh: seq<nat>, k: nat)
    requires CommitOk(d, a, cache, lh)
    ensures DiskOk(CommitState(d, a, cache, lh, k), a)
    ensures k <= |lh| ==> SameHome(Recovered(CommitState(d, a, cache, lh, k), a), d, a)
    ensures k > |lh| ==> HomeIsTarget(Recovered(CommitState(d, a, cache, lh, k), a), d, a, cache, lh)
  {
    if k <= |lh| {
      UncommittedVanishes(d, a, cache, lh, k);
    } else {
      var c := Committed(d, a, cache, lh);
      CommittedOk(d, a, cache, lh);
      RecoveryRestarts(c, a, k - |lh| - 1);
      CommittedRecovers(d, a, cache, lh);
    }
  }

  lemma UncommittedVanishes(d: Disk, a: Area, cache: Cache, lh: seq<nat>, k: nat)
    requires CommitOk(d, a, cache, lh) && k <= |lh|
    ensures DiskOk(LogWritten(d, a, cache, lh, k), a)
    ensures SameHome(Recovered(LogWritten(d, a, cache, lh, k), a), d, a)
  {
    var d' := LogWritten(d, a, cache, lh, k);
    forall b: nat | b < |d|
      ensures |d'[b]| == WORDS && (!a.Has(b) || b == a.start ==> d'[b] == d[b])
    {
      LogWrittenAt(d, a, cache, lh, k, b);
    }
    assert LogOf(d', a) == LogOf(d, a);
  }

  lemma CommittedRecovers(d: Disk, a: Area, cache: Cache, lh: seq<nat>)
    requires CommitOk(d, a, cache, lh)
    ensures DiskOk(Committed(d, a, cache, lh), a)
    ensures HomeIsTarget(Recovered(Committed(d, a, cache, lh), a), d, a, cache, lh)
  {
    CommittedOk(d, a, cache, lh);
    var c := Committed(d, a, cache, lh);
    forall b: nat | b < |d| && !a.Has(b)
      ensures Recovered(c, a)[b] == Target(d, cache, lh, b)
    {
      InstalledFromLog(d, a, cache, lh, b);
    }
  }

  lemma InstalledFromLog(d: Disk, a: Area, cache: Cache, lh: seq<nat>, b: nat)
    requires CommitOk(d, a, cache, lh) && b < |d| && !a.Has(b)
    ensures Installed(Committed(d, a, cache, lh), a, lh, |lh|)[b] == Target(d, cache, lh, b)
  {
    var c := Committed(d, a, cache, lh);
    InstalledAt(c, a, lh, |lh|, b);
    if i :| 0 <= i < |lh| && lh[i] == b {
      LogWrittenAt(d, a, cache, lh, |lh|, a.start + i + 1);
      assert c[a.start + i + 1] == cache[b];
    } else {
      LogWrittenAt(d, a, cache, lh, |lh|, b);
    }
  }

  /** The disk left by a series of recoveries, the i-th stopped after crashes[i] writes. */
  ghost function AfterCrashes(d: Disk, a: Area, crashes: seq<nat>): (r: Disk)
    requires DiskOk(d, a)
    ensures |r| == |d| && DiskOk(r, a)
    decreases |crashes|
  {
    if crashes == [] then d
    else
      RecoveryRestarts(d, a, crashes[0]);
      AfterCrashes(RecoveryState(d, a, crashes[0]), a, crashes[1..])
  }

  /** The disk when, after those, a recovery comes to its end. */
  ghost function Settled(d: Disk, a: Area, crashes: seq<nat>): (r: Disk)
    requires DiskOk(d, a)
    ensures |r| == |d|
  {
    Recovered(AfterCrashes(d, a, crashes), a)
  }

  lemma {:induction false} CrashesDoNotMatter(d: Disk, a: Area, crashes: seq<nat>)
    requires DiskOk(d, a)
    ensures Settled(d, a, crashes) == Recovered(d, a)
    decreases |crashes|
  {
    if crashes != [] {
      RecoveryRestarts(d, a, crashes[0]);
      CrashesDoNotMatter(RecoveryState(d, a, crashes[0]), a, crashes[1..]);
    }
  }

  /**
   Crash atomicity. Stop commit after any k writes, crash any number of times during the
   recoveries that follow, then let one finish: every home block has its old value when the
   header was not yet written, and every one its new value when it was. Another recovery
   changes nothing.
   */
  lemma CrashAtomic(d: Disk, a: Area, cache: Cache, lh: seq<nat>, k: nat, crashes: seq<nat>)
    requires CommitOk(d, a, cache, lh)
    ensures DiskOk(CommitState(d, a, cache, lh, k), a)
    ensures var r := Settled(CommitState(d, a, cache, lh, k), a, crashes);
            && DiskOk(r, a) && LogOf(r, a) == [] && Recovered(r, a) == r
            && (k <= |lh| ==> SameHome(r, d, a))
            && (k > |lh| ==> HomeIsTarget(r, d, a, cache, lh))
  {
    CommitAtomic(d, a, cache, lh, k);
    var s := CommitState(d, a, cache, lh, k);
    CrashesDoNotMatter(s, a, crashes);
    RecoveredOk(s, a);
    RecoveryRestarts(s, a, |LogOf(s, a)| + 1);
  }

  /** The disks that follow d during write_log, install_trans, recover_from_log and commit. */
  function LogWrites(d: Disk, a: Area, cache: Cache, lh: seq<nat>, k: nat): (r: seq<Disk>)
    requires LogList(lh, a, |d|) && k <= |lh| && forall i :: 0 <= i < |lh| ==> lh[i] in cache
    ensures |r| == k && forall i :: 0 <= i < k ==> r[i] == LogWritten(d, a, cache, lh, i + 1)
  {
    if k == 0 then [] else LogWrites(d, a, cache, lh, k - 1) + [LogWritten(d, a, cache, lh, k)]
  }

  function Installs(d: Disk, a: Area, lh: seq<nat>, k: nat): (r: seq<Disk>)
    requires LogList(lh, a, |d|) && k <= |lh|
    ensures |r| == k && forall i :: 0 <= i < k ==> r[i] == Installed(d, a, lh, i + 1)
  {
    if k == 0 then [] else Installs(d, a, lh, k - 1) + [Installed(d, a, lh, k)]
  }

  function RecoveryTrace(d: Disk, a: Area): (r: seq<Disk>)
    requires DiskOk(d, a)
    ensures |r| == |LogOf(d, a)| + 1
    ensures forall i :: 0 <= i < |r| ==> r[i] == RecoveryState(d, a, i + 1)
  {
    Installs(d, a, LogOf(d, a), |LogOf(d, a)|) + [Recovered(d, a)]
  }

  ghost function CommitTrace(d: Disk, a: Area, cache: Cache, lh: seq<nat>): (r: seq<Disk>)
    requires CommitOk(d, a, cache, lh)
    ensures |r| == if lh == [] then 0 else 2 * |lh| + 2
  {
    CommittedOk(d, a, cache, lh);
    var c := Committed(d, a, cache, lh);
    if lh == [] then []
    else LogWrites(d, a, cache, lh, |lh|) + [c] + RecoveryTrace(c, a)
  }

  /** The i-th disk of a commit is the one CommitState describes, so CrashAtomic applies to it. */
  lemma CommitTraceAt(d: Disk, a: Area, cache: Cache, lh: seq<nat>, i: nat)
    requires CommitOk(d, a, cache, lh) && i < |CommitTrace(d, a, cache, lh)|
    ensures CommitTrace(d, a, cache, lh)[i] == CommitState(d, a, cache, lh, i + 1)
  {
    CommittedOk(d, a, cache, lh);
    var c := Committed(d, a, cache, lh);
    if i > |lh| {
      assert CommitTrace(d, a, cache, lh)[i] == RecoveryTrace(c, a)[i - |lh| - 1];
    } else if i == |lh| {
      assert RecoveryState(c, a, 0) == c;
    }
  }

  /** CrashAtomic for a disk picked out of a commit's trace. */
  lemma CommitTraceRecovers(d: Disk, a: Area, cache: Cache, lh: seq<nat>, i: nat, crashes: seq<nat>)
    requires CommitOk(d, a, cache, lh) && i < |CommitTrace(d, a, cache, lh)|
    ensures DiskOk(CommitTrace(d, a, cache, lh)[i], a)
    ensures var r := Settled(CommitTrace(d, a, cache, lh)[i], a, crashes);
            && DiskOk(r, a) && LogOf(r, a) == []
            && (i < |lh| ==> SameHome(r, d, a))
            && (i >= |lh| ==> HomeIsTarget(r, d, a, cache, lh))
  {
    CommitTraceAt(d, a, cache, lh, i);
    CrashAtomic(d, a, cache, lh, i + 1, crashes);
  }
}
