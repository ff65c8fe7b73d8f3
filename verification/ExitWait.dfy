/**
 fork, exit, reparent, wait, kill and setkilled of kernel/proc.c as a state machine.

 A step is one acquire, one release or one change of shared state by one thread of control. Any
 number of processes share the table; any number of CPUs runs schedulers. Processes are named by
 their table index; entry 0 is initproc.
 */
module ExitWait {
  const INIT := 0
  const NOBODY := -1
  /** The holder of a p->lock that some CPU's scheduler holds. */
  const SCHED := -2
  const NONE := -1

  datatype RunState = UNUSED | USED | SLEEPING | RUNNABLE | RUNNING | ZOMBIE

  /** Where a process is: each label names what it does next. Newborn and Gone are off any CPU. */
  datatype Label =
    | Newborn | FirstRun | Idle
    | ForkNext | ForkCheck | ForkPass | ForkCopy | ForkDrop | ForkUnlock
    | ForkAcquire | ForkParent | ForkRelease | ForkLock | ForkStart | ForkDone
    | ExitAcquire | ReparentNext | WakeNext | WakeCheck | WakeRelease
    | ExitLock | ExitZombie | ExitRelease | ExitSched | Gone
    | WaitAcquire | WaitNext | WaitCheck | WaitPass | WaitUnlock | WaitQuit
    | WaitDecide | WaitKilled | WaitDecided
    | SleepAcquire | SleepRelease | SleepChan | SleepState | SleepSched | Asleep
    | SleepTidy | SleepUnlock
    | KillNext | KillCheck | KillRelease
    | FaultLock | FaultMark | FaultUnlock

  /**
   `i` is the index of a scan, or the child fork is making; `r` reparent's index; `target` the
   channel of a wakeup or the pid of a kill; `last` whether the wakeup is the one of the parent;
   `lock` who holds p->lock; `maker` the process whose fork allocated the entry.
   */
  datatype Proc = Proc(at: Label, i: int, r: int, target: int, last: bool, haveKids: bool,
                       state: RunState, parent: int, pid: int, chan: int, killed: bool,
                       lock: int, maker: int)

  datatype Reap = Reap(pid: int, parent: int)

  /** `exited` and `reaped` record the exits and the successful waits so far. */
  datatype State = State(procs: seq<Proc>, waiter: int, nextPid: int, exited: seq<int>, reaped: seq<Reap>)

  /** A Fault is a trap usertrap cannot handle: the process marks itself. The exit that follows is a step of its own. */
  datatype Step =
    | Fork(p: int)
    | Exit(p: int)
    | Wait(p: int)
    | Kill(p: int, pid: int)
    | Fault(p: int)
    | Go(p: int)
    | Fail(p: int)
    | SchedAcquire(p: int)
    | SchedRelease(p: int)
    | Dispatch(p: int)

  predicate IsProc(s: State, p: int) {
    0 <= p < |s.procs|
  }

  // ------------------------------------------------------------------ the code

  /** In allocproc or the copying of fork. */
  predicate AtAlloc(at: Label) {
    at == ForkNext || at == ForkCheck || at == ForkPass || at == ForkCopy || at == ForkDrop
    || at == ForkUnlock
  }

  /** In the rest of fork, or forkret. */
  predicate AtStart(at: Label) {
    at == ForkAcquire || at == ForkParent || at == ForkRelease || at == ForkLock || at == ForkStart
    || at == ForkDone || at == FirstRun
  }

  /** In exit, out of wakeup. */
  predicate AtExit(at: Label) {
    at == ExitAcquire || at == ReparentNext || at == ExitLock || at == ExitZombie || at == ExitRelease
    || at == ExitSched
  }

  /** In wait, up to its outcome. */
  predicate AtWait(at: Label) {
    at == WaitAcquire || at == WaitNext || at == WaitCheck || at == WaitPass || at == WaitUnlock
    || at == WaitQuit
  }

  /** In the outcome of wait. */
  predicate AtDecide(at: Label) {
    at == WaitDecide || at == WaitKilled || at == WaitDecided
  }

  /** In sleep. */
  predicate AtSleep(at: Label) {
    at == SleepAcquire || at == SleepRelease || at == SleepChan || at == SleepState || at == SleepSched
    || at == SleepTidy || at == SleepUnlock
  }

  /** In kill. */
  predicate AtKill(at: Label) {
    at == KillNext || at == KillCheck || at == KillRelease
  }

  /** In setkilled. */
  predicate AtFault(at: Label) {
    at == FaultLock || at == FaultMark || at == FaultUnlock
  }

  /** Where a waiting acquire may proceed; every other label but the off-CPU ones is always ready. */
  predicate Ready(s: State, p: int)
    requires IsProc(s, p)
  {
    var a := s.procs[p];
    match a.at
    case Newborn | Idle | Asleep | Gone => false
    case ForkAcquire | ExitAcquire | WaitAcquire => s.waiter == NOBODY
    case ExitLock | WaitKilled | SleepAcquire | FaultLock => a.lock == NOBODY
    case ForkNext | KillNext => IsProc(s, a.i) ==> s.procs[a.i].lock == NOBODY
    case WakeNext => IsProc(s, a.i) && a.i != p ==> s.procs[a.i].lock == NOBODY
    case WaitNext => IsProc(s, a.i) && s.procs[a.i].parent == p ==> s.procs[a.i].lock == NOBODY
    case ForkCheck | ForkPass | ForkCopy | ForkDrop | ForkUnlock | ForkParent | ForkStart | ForkDone => IsProc(s, a.i)
    case ForkLock => IsProc(s, a.i) && s.procs[a.i].lock == NOBODY
    case WakeCheck | WakeRelease | WaitCheck | WaitPass | WaitUnlock | KillCheck | KillRelease => IsProc(s, a.i)
    case _ => true
  }

  function Put(s: State, p: int, q: Proc): State
    requires IsProc(s, p)
  {
    s.(procs := s.procs[p := q])
  }

  /** Process p changes the entry at its index i, and moves on. */
  function PutOther(s: State, p: int, q: Proc, next: Label, i: int): State
    requires IsProc(s, p) && IsProc(s, s.procs[p].i)
  {
    var t := Put(s, s.procs[p].i, q);
    Put(t, p, t.procs[p].(at := next, i := i))
  }

  /** freeproc: everything but the lock. */
  function Freed(q: Proc): Proc {
    q.(at := Newborn, state := UNUSED, parent := NONE, pid := 0, chan := NONE, killed := false)
  }

  function GoForkAlloc(s: State, p: int): State
    requires IsProc(s, p) && Ready(s, p)
  {
    var a := s.procs[p];
    match a.at
    case ForkNext =>
      if !IsProc(s, a.i) then Put(s, p, a.(at := Idle))
      else PutOther(s, p, s.procs[a.i].(lock := p), ForkCheck, a.i)
    case ForkCheck =>
      if s.procs[a.i].state == UNUSED then
        var c := s.procs[a.i].(state := USED, pid := s.nextPid, maker := p);
        PutOther(s, p, c, ForkCopy, a.i).(nextPid := s.nextPid + 1)
      else
        Put(s, p, a.(at := ForkPass))
    case ForkPass => PutOther(s, p, s.procs[a.i].(lock := NOBODY), ForkNext, a.i + 1)
    case ForkCopy => Put(s, p, a.(at := ForkUnlock))
    case ForkDrop => PutOther(s, p, s.procs[a.i].(lock := NOBODY), Idle, a.i)
    case ForkUnlock => PutOther(s, p, s.procs[a.i].(lock := NOBODY), ForkAcquire, a.i)
    case _ => s
  }

  function GoForkStart(s: State, p: int): State
    requires IsProc(s, p) && Ready(s, p)
  {
    var a := s.procs[p];
    match a.at
    case ForkAcquire => Put(s, p, a.(at := ForkParent)).(waiter := p)
    case ForkParent => PutOther(s, p, s.procs[a.i].(parent := p), ForkRelease, a.i)
    case ForkRelease => Put(s, p, a.(at := ForkLock)).(waiter := NOBODY)
    case ForkLock => PutOther(s, p, s.procs[a.i].(lock := p), ForkStart, a.i)
    case ForkStart => PutOther(s, p, s.procs[a.i].(state := RUNNABLE), ForkDone, a.i)
    case ForkDone => PutOther(s, p, s.procs[a.i].(lock := NOBODY), Idle, a.i)
    case FirstRun => Put(s, p, a.(at := Idle, lock := NOBODY))
    case _ => s
  }

  function GoExit(s: State, p: int): State
    requires IsProc(s, p) && Ready(s, p)
  {
    var a := s.procs[p];
    match a.at
    case ExitAcquire => Put(s, p, a.(at := ReparentNext, r := 0)).(waiter := p)
    case ReparentNext =>
      if !IsProc(s, a.r) then
        Put(s, p, a.(at := WakeNext, i := 0, target := a.parent, last := true))
      else if s.procs[a.r].parent == p then
        var t := Put(s, a.r, s.procs[a.r].(parent := INIT));
        Put(t, p, t.procs[p].(at := WakeNext, i := 0, target := INIT, last := false, r := a.r + 1))
      else
        Put(s, p, a.(r := a.r + 1))
    case ExitLock => Put(s, p, a.(at := ExitZombie, lock := p))
    case ExitZombie => Put(s, p, a.(at := ExitRelease, state := ZOMBIE)).(exited := s.exited + [a.pid])
    case ExitRelease => Put(s, p, a.(at := ExitSched)).(waiter := NOBODY)
    case ExitSched => Put(s, p, a.(at := Gone, lock := SCHED))
    case _ => s
  }

  function GoWake(s: State, p: int): State
    requires IsProc(s, p) && Ready(s, p)
  {
    var a := s.procs[p];
    match a.at
    case WakeNext =>
      if !IsProc(s, a.i) then Put(s, p, a.(at := if a.last then ExitLock else ReparentNext))
      else if a.i == p then Put(s, p, a.(i := a.i + 1))
      else PutOther(s, p, s.procs[a.i].(lock := p), WakeCheck, a.i)
    case WakeCheck =>
      var q := s.procs[a.i];
      if q.state == SLEEPING && q.chan == a.target then PutOther(s, p, q.(state := RUNNABLE), WakeRelease, a.i)
      else Put(s, p, a.(at := WakeRelease))
    case WakeRelease => PutOther(s, p, s.procs[a.i].(lock := NOBODY), WakeNext, a.i + 1)
    case _ => s
  }

  function GoWait(s: State, p: int): State
    requires IsProc(s, p) && Ready(s, p)
  {
    var a := s.procs[p];
    match a.at
    case WaitAcquire => Put(s, p, a.(at := WaitNext, i := 0, haveKids := false)).(waiter := p)
    case WaitNext =>
      if !IsProc(s, a.i) then Put(s, p, a.(at := WaitDecide))
      else if s.procs[a.i].parent == p then PutOther(s, p, s.procs[a.i].(lock := p), WaitCheck, a.i)
      else Put(s, p, a.(i := a.i + 1))
    case WaitCheck =>
      var c := s.procs[a.i];
      if c.state == ZOMBIE then
        PutOther(s, p, Freed(c), WaitUnlock, a.i).(reaped := s.reaped + [Reap(c.pid, p)])
      else
        Put(s, p, a.(at := WaitPass, haveKids := true))
    case WaitPass => PutOther(s, p, s.procs[a.i].(lock := NOBODY), WaitNext, a.i + 1)
    case WaitUnlock => PutOther(s, p, s.procs[a.i].(lock := NOBODY), WaitQuit, a.i)
    case WaitQuit => Put(s, p, a.(at := Idle)).(waiter := NOBODY)
    case _ => s
  }

  function GoDecide(s: State, p: int): State
    requires IsProc(s, p) && Ready(s, p)
  {
    var a := s.procs[p];
    match a.at
    case WaitDecide => Put(s, p, a.(at := if a.haveKids then WaitKilled else WaitQuit))
    case WaitKilled => Put(s, p, a.(at := WaitDecided, lock := p))
    case WaitDecided => Put(s, p, a.(at := if a.killed then WaitQuit else SleepAcquire, lock := NOBODY))
    case _ => s
  }

  function GoSleep(s: State, p: int): State
    requires IsProc(s, p) && Ready(s, p)
  {
    var a := s.procs[p];
    match a.at
    case SleepAcquire => Put(s, p, a.(at := SleepRelease, lock := p))
    case SleepRelease => Put(s, p, a.(at := SleepChan)).(waiter := NOBODY)
    case SleepChan => Put(s, p, a.(at := SleepState, chan := p))
    case SleepState => Put(s, p, a.(at := SleepSched, state := SLEEPING))
    case SleepSched => Put(s, p, a.(at := Asleep, lock := SCHED))
    case SleepTidy => Put(s, p, a.(at := SleepUnlock, chan := NONE))
    case SleepUnlock => Put(s, p, a.(at := WaitAcquire, lock := NOBODY))
    case _ => s
  }

  function GoKill(s: State, p: int): State
    requires IsProc(s, p) && Ready(s, p)
  {
    var a := s.procs[p];
    match a.at
    case KillNext =>
      if !IsProc(s, a.i) then Put(s, p, a.(at := Idle))
      else PutOther(s, p, s.procs[a.i].(lock := p), KillCheck, a.i)
    case KillCheck =>
      var q := s.procs[a.i];
      if q.pid == a.target then
        PutOther(s, p, q.(killed := true, state := if q.state == SLEEPING then RUNNABLE else q.state), KillRelease, a.i)
      else
        Put(s, p, a.(at := KillRelease))
    case KillRelease =>
      PutOther(s, p, s.procs[a.i].(lock := NOBODY), if s.procs[a.i].pid == a.target then Idle else KillNext, a.i + 1)
    case _ => s
  }

  /** The next step of process p. */
  function GoFault(s: State, p: int): State
    requires IsProc(s, p) && Ready(s, p)
  {
    var a := s.procs[p];
    match a.at
    case FaultLock => Put(s, p, a.(at := FaultMark, lock := p))
    case FaultMark => Put(s, p, a.(at := FaultUnlock, killed := true))
    case FaultUnlock => Put(s, p, a.(at := Idle, lock := NOBODY))
    case _ => s
  }

  function Advance(s: State, p: int): (t: State)
    requires IsProc(s, p) && Ready(s, p)
    ensures |t.procs| == |s.procs|
  {
    match s.procs[p].at
    case ForkNext | ForkCheck | ForkPass | ForkCopy | ForkDrop | ForkUnlock => GoForkAlloc(s, p)
    case ForkAcquire | ForkParent | ForkRelease | ForkLock | ForkStart | ForkDone | FirstRun => GoForkStart(s, p)
    case ExitAcquire | ReparentNext | ExitLock | ExitZombie | ExitRelease | ExitSched => GoExit(s, p)
    case WakeNext | WakeCheck | WakeRelease => GoWake(s, p)
    case WaitAcquire | WaitNext | WaitCheck | WaitPass | WaitUnlock | WaitQuit => GoWait(s, p)
    case KillNext | KillCheck | KillRelease => GoKill(s, p)
    case FaultLock | FaultMark | FaultUnlock => GoFault(s, p)
    case WaitDecide | WaitKilled | WaitDecided => GoDecide(s, p)
    case SleepAcquire | SleepRelease | SleepChan | SleepState | SleepSched | SleepTidy | SleepUnlock => GoSleep(s, p)
    case Newborn | Idle | Asleep | Gone => s
  }

  /** Out of memory in fork, or wait's copyout to a bad address. */
  predicate CanFail(s: State, p: int)
    requires IsProc(s, p)
  {
    var a := s.procs[p];
    IsProc(s, a.i) && (a.at == ForkCopy || (a.at == WaitCheck && s.procs[a.i].state == ZOMBIE))
  }

  function Failed(s: State, p: int): State
    requires IsProc(s, p) && CanFail(s, p)
  {
    var a := s.procs[p];
    if a.at == ForkCopy then PutOther(s, p, Freed(s.procs[a.i]), ForkDrop, a.i)
    else Put(s, p, a.(at := WaitUnlock))
  }

  predicate Enabled(s: State, step: Step) {
    && IsProc(s, step.p)
    && var a := s.procs[step.p];
       match step
       case Go(p) => Ready(s, p)
       case Fail(p) => CanFail(s, p)
       case SchedAcquire(p) => a.lock == NOBODY
       case SchedRelease(p) => a.lock == SCHED
       case Dispatch(p) => a.lock == SCHED && a.state == RUNNABLE
       case Exit(p) => a.at == Idle && p != INIT
       case _ => a.at == Idle
  }

  function Apply(s: State, step: Step): State
    requires Enabled(s, step)
  {
    var a := s.procs[step.p];
    match step
    case Fork(p) => Put(s, p, a.(at := ForkNext, i := 0))
    case Exit(p) => Put(s, p, a.(at := ExitAcquire))
    case Wait(p) => Put(s, p, a.(at := WaitAcquire))
    case Kill(p, pid) => Put(s, p, a.(at := KillNext, i := 0, target := pid))
    case Fault(p) => Put(s, p, a.(at := FaultLock))
    case Go(p) => Advance(s, p)
    case Fail(p) => Failed(s, p)
    case SchedAcquire(p) => Put(s, p, a.(lock := SCHED))
    case SchedRelease(p) => Put(s, p, a.(lock := NOBODY))
    case Dispatch(p) => Put(s, p, a.(at := if a.at == Newborn then FirstRun
      else SleepTidy, state := RUNNING, lock := p))
  }

  // ------------------------------------------------------------------ the invariant

  /** Between acquire and release of wait_lock. */
  predicate HoldsWait(at: Label) {
    match at
    case ForkParent | ForkRelease | ReparentNext | WakeNext | WakeCheck | WakeRelease => true
    case ExitLock | ExitZombie | ExitRelease => true
    case WaitNext | WaitCheck | WaitPass | WaitUnlock | WaitQuit | WaitDecide | WaitKilled | WaitDecided => true
    case SleepAcquire | SleepRelease => true
    case _ => false
  }

  /** Between acquire and release of its own p->lock, across the two swtches. */
  predicate HoldsOwn(at: Label) {
    match at
    case ExitZombie | ExitRelease | ExitSched | WaitDecided | FirstRun | FaultMark | FaultUnlock => true
    case SleepRelease | SleepChan | SleepState | SleepSched | SleepTidy | SleepUnlock => true
    case _ => false
  }

  /** Between acquire and release of the p->lock at its index i. */
  predicate HoldsOther(at: Label) {
    match at
    case ForkCheck | ForkPass | ForkCopy | ForkDrop | ForkUnlock | ForkStart | ForkDone => true
    case WakeCheck | WakeRelease | WaitCheck | WaitPass | WaitUnlock | KillCheck | KillRelease => true
    case _ => false
  }

  /** fork has allocated the entry at its index i and not yet made it runnable. */
  predicate Making(at: Label) {
    at == ForkCopy || at == ForkUnlock || at == ForkAcquire || at == ForkParent || at == ForkRelease
    || at == ForkLock || at == ForkStart
  }

  predicate LockedBy(a: Proc, h: int, p: int) {
    (h == p && HoldsOwn(a.at)) || (HoldsOther(a.at) && a.i == p)
  }

  /** Locks are held exactly by the processes whose place in the code says so. */
  ghost predicate LocksOk(s: State, p: int)
    requires IsProc(s, p)
  {
    var a := s.procs[p];
    && (HoldsWait(a.at) ==> s.waiter == p)
    && (HoldsOwn(a.at) ==> a.lock == p)
    && (HoldsOther(a.at) ==> IsProc(s, a.i) && s.procs[a.i].lock == p)
    && (0 <= a.lock ==> IsProc(s, a.lock) && LockedBy(s.procs[a.lock], a.lock, p))
    && (a.lock < 0 ==> a.lock == NOBODY || a.lock == SCHED)
  }

  ghost predicate AllLocks(s: State) {
    && (forall p {:trigger LocksOk(s, p)} :: IsProc(s, p) ==> LocksOk(s, p))
    && (s.waiter != NOBODY ==> IsProc(s, s.waiter) && HoldsWait(s.procs[s.waiter].at))
  }

  /** The run state each place in the code goes with. */
  predicate StateOk(a: Proc, p: int) {
    match a.at
    case Newborn => a.state == UNUSED || a.state == USED || a.state == RUNNABLE
    case Gone | ExitRelease | ExitSched => a.state == ZOMBIE
    case SleepState => a.state == RUNNING && a.chan == p
    case SleepSched => a.state == SLEEPING && a.chan == p
    case Asleep => (a.state == SLEEPING || a.state == RUNNABLE) && a.chan == p
    case _ => a.state == RUNNING
  }

  ghost predicate AllStates(s: State) {
    forall p {:trigger StateOk(s.procs[p], p)} :: IsProc(s, p) ==> StateOk(s.procs[p], p)
  }

  // ------------------------------------------------------------------ locks

  /** Both hold the same locks. */
  predicate SameLocks(a: Proc, b: Proc) {
    && HoldsWait(a.at) == HoldsWait(b.at)
    && HoldsOwn(a.at) == HoldsOwn(b.at)
    && HoldsOther(a.at) == HoldsOther(b.at) && (HoldsOther(a.at) ==> a.i == b.i)
    && a.lock == b.lock
  }

  lemma LocksSame(s: State, t: State)
    requires AllLocks(s) && |t.procs| == |s.procs| && t.waiter == s.waiter
    requires forall q :: IsProc(s, q) ==> SameLocks(s.procs[q], t.procs[q])
    ensures AllLocks(t)
  {
    forall q | IsProc(t, q)
      ensures LocksOk(t, q)
    {
      assert LocksOk(s, q);
    }
  }

  lemma LocksStep(s: State, p: int, b: Proc, t: State)
    requires AllLocks(s) && IsProc(s, p) && t.waiter == s.waiter
    requires t.procs == s.procs[p := b] && SameLocks(s.procs[p], b)
    ensures AllLocks(t)
  {
    LocksSame(s, t);
  }

  lemma LocksAcquireWait(s: State, p: int, b: Proc, t: State)
    requires AllLocks(s) && IsProc(s, p) && s.waiter == NOBODY && HoldsWait(b.at)
    requires SameLocks(s.procs[p].(at := b.at), b) && !HoldsOwn(b.at) && !HoldsOther(b.at)
    requires !HoldsOwn(s.procs[p].at) && !HoldsOther(s.procs[p].at)
    requires t.procs == s.procs[p := b] && t.waiter == p
    ensures AllLocks(t)
  {
    forall q | IsProc(t, q)
      ensures LocksOk(t, q)
    {
      assert LocksOk(s, q);
    }
  }

  lemma LocksReleaseWait(s: State, p: int, b: Proc, t: State)
    requires AllLocks(s) && IsProc(s, p) && HoldsWait(s.procs[p].at) && !HoldsWait(b.at) && b.lock == s.procs[p].lock
    requires HoldsOwn(b.at) == HoldsOwn(s.procs[p].at) && !HoldsOther(b.at) && !HoldsOther(s.procs[p].at)
    requires t.procs == s.procs[p := b] && t.waiter == NOBODY
    ensures AllLocks(t)
  {
    assert LocksOk(s, p);
    forall q | IsProc(t, q)
      ensures LocksOk(t, q)
    {
      assert LocksOk(s, q);
    }
  }

  /** p->lock changes hands between p itself, its scheduler and nobody. */
  lemma LocksOwn(s: State, p: int, b: Proc, t: State)
    requires AllLocks(s) && IsProc(s, p) && HoldsWait(s.procs[p].at) == HoldsWait(b.at)
    requires HoldsOther(s.procs[p].at) == HoldsOther(b.at) && b.i == s.procs[p].i
    requires s.procs[p].lock < 0 || (s.procs[p].lock == p && HoldsOwn(s.procs[p].at) && !HoldsOther(b.at))
    requires b.lock == NOBODY || b.lock == SCHED || (b.lock == p && HoldsOwn(b.at))
    requires HoldsOwn(b.at) ==> b.lock == p
    requires t.procs == s.procs[p := b] && t.waiter == s.waiter
    ensures AllLocks(t)
  {
    assert LocksOk(s, p);
    forall q | IsProc(t, q)
      ensures LocksOk(t, q)
    {
      assert LocksOk(s, q);
    }
  }

  lemma LocksTake(s: State, p: int, next: Label)
    requires AllLocks(s) && IsProc(s, p) && IsProc(s, s.procs[p].i) && s.procs[s.procs[p].i].lock == NOBODY
    requires HoldsOther(next) && !HoldsOther(s.procs[p].at) && !HoldsOwn(next) && !HoldsOwn(s.procs[p].at)
    requires HoldsWait(next) == HoldsWait(s.procs[p].at)
    ensures AllLocks(PutOther(s, p, s.procs[s.procs[p].i].(lock := p), next, s.procs[p].i))
  {
    var t := PutOther(s, p, s.procs[s.procs[p].i].(lock := p), next, s.procs[p].i);
    assert LocksOk(s, p) && LocksOk(s, s.procs[p].i);
    forall q | IsProc(t, q)
      ensures LocksOk(t, q)
    {
      assert LocksOk(s, q);
    }
  }

  lemma LocksGive(s: State, p: int, next: Label, i: int)
    requires AllLocks(s) && IsProc(s, p) && IsProc(s, s.procs[p].i)
    requires !HoldsOther(next) && HoldsOther(s.procs[p].at) && !HoldsOwn(next) && !HoldsOwn(s.procs[p].at)
    requires HoldsWait(next) == HoldsWait(s.procs[p].at)
    ensures AllLocks(PutOther(s, p, s.procs[s.procs[p].i].(lock := NOBODY), next, i))
  {
    var t := PutOther(s, p, s.procs[s.procs[p].i].(lock := NOBODY), next, i);
    assert LocksOk(s, p) && LocksOk(s, s.procs[p].i);
    forall q | IsProc(t, q)
      ensures LocksOk(t, q)
    {
      assert LocksOk(s, q);
    }
  }

  lemma LocksForkScan(s: State, p: int)
    requires AllLocks(s) && AllStates(s) && IsProc(s, p) && Ready(s, p)
    requires s.procs[p].at == ForkNext || s.procs[p].at == ForkCheck || s.procs[p].at == ForkPass
    ensures AllLocks(GoForkAlloc(s, p))
  {
    var a, t := s.procs[p], GoForkAlloc(s, p);
    assert LocksOk(s, p);
    match a.at
    case ForkNext => if IsProc(s, a.i) { LocksTake(s, p, ForkCheck); } else { LocksStep(s, p, t.procs[p], t); }
    case ForkPass => LocksGive(s, p, ForkNext, a.i + 1);
    case ForkCheck => LocksSame(s, t);
    case _ =>
  }

  lemma LocksForkMake(s: State, p: int)
    requires AllLocks(s) && AllStates(s) && IsProc(s, p) && Ready(s, p)
    requires s.procs[p].at == ForkCopy || s.procs[p].at == ForkDrop || s.procs[p].at == ForkUnlock
    ensures AllLocks(GoForkAlloc(s, p))
  {
    var a, t := s.procs[p], GoForkAlloc(s, p);
    assert LocksOk(s, p);
    match a.at
    case ForkDrop => LocksGive(s, p, Idle, a.i);
    case ForkUnlock => LocksGive(s, p, ForkAcquire, a.i);
    case ForkCopy => LocksStep(s, p, t.procs[p], t);
    case _ =>
  }

  lemma LocksForkAlloc(s: State, p: int)
    requires AllLocks(s) && AllStates(s) && IsProc(s, p) && Ready(s, p)
    requires AtAlloc(s.procs[p].at)
    ensures AllLocks(GoForkAlloc(s, p))
  {
    if s.procs[p].at == ForkNext || s.procs[p].at == ForkCheck || s.procs[p].at == ForkPass {
      LocksForkScan(s, p);
    } else {
      LocksForkMake(s, p);
    }
  }

  lemma LocksForkStart(s: State, p: int)
    requires AllLocks(s) && IsProc(s, p) && Ready(s, p)
    ensures AllLocks(GoForkStart(s, p))
  {
    var a, t := s.procs[p], GoForkStart(s, p);
    assert LocksOk(s, p);
    match a.at
    case ForkAcquire => LocksAcquireWait(s, p, t.procs[p], t);
    case ForkRelease => LocksReleaseWait(s, p, t.procs[p], t);
    case ForkLock => LocksTake(s, p, ForkStart);
    case ForkDone => LocksGive(s, p, Idle, a.i);
    case FirstRun => LocksOwn(s, p, t.procs[p], t);
    case ForkParent | ForkStart => LocksSame(s, t);
    case _ =>
  }

  lemma LocksExitFirst(s: State, p: int)
    requires AllLocks(s) && IsProc(s, p) && Ready(s, p)
    requires s.procs[p].at == ExitAcquire || s.procs[p].at == ReparentNext || s.procs[p].at == ExitZombie
    ensures AllLocks(GoExit(s, p))
  {
    var a, t := s.procs[p], GoExit(s, p);
    assert LocksOk(s, p);
    match a.at
    case ExitAcquire => LocksAcquireWait(s, p, t.procs[p], t);
    case ReparentNext => LocksSame(s, t);
    case ExitZombie => LocksStep(s, p, t.procs[p], t);
    case _ =>
  }

  lemma LocksExitLast(s: State, p: int)
    requires AllLocks(s) && IsProc(s, p) && Ready(s, p)
    requires s.procs[p].at == ExitLock || s.procs[p].at == ExitRelease || s.procs[p].at == ExitSched
    ensures AllLocks(GoExit(s, p))
  {
    var a, t := s.procs[p], GoExit(s, p);
    assert LocksOk(s, p);
    match a.at
    case ExitLock | ExitSched => LocksOwn(s, p, t.procs[p], t);
    case ExitRelease => LocksReleaseWait(s, p, t.procs[p], t);
    case _ =>
  }

  lemma LocksExit(s: State, p: int)
    requires AllLocks(s) && IsProc(s, p) && Ready(s, p)
    requires AtExit(s.procs[p].at)
    ensures AllLocks(GoExit(s, p))
  {
    if s.procs[p].at == ExitAcquire || s.procs[p].at == ReparentNext || s.procs[p].at == ExitZombie {
      LocksExitFirst(s, p);
    } else {
      LocksExitLast(s, p);
    }
  }

  lemma LocksWakeCheck(s: State, p: int)
    requires AllLocks(s) && IsProc(s, p) && Ready(s, p) && s.procs[p].at == WakeCheck
    ensures AllLocks(GoWake(s, p))
  {
    assert LocksOk(s, p);
    LocksSame(s, GoWake(s, p));
  }

  lemma LocksWake(s: State, p: int)
    requires AllLocks(s) && IsProc(s, p) && Ready(s, p) && Waking(s.procs[p].at)
    ensures AllLocks(GoWake(s, p))
  {
    var a, t := s.procs[p], GoWake(s, p);
    if a.at == WakeCheck {
      LocksWakeCheck(s, p);
    } else if a.at == WakeRelease {
      LocksGive(s, p, WakeNext, a.i + 1);
    } else if IsProc(s, a.i) && a.i != p {
      LocksTake(s, p, WakeCheck);
    } else {
      LocksStep(s, p, t.procs[p], t);
    }
  }

  lemma LocksWaitScan(s: State, p: int)
    requires AllLocks(s) && AllStates(s) && IsProc(s, p) && Ready(s, p)
    requires s.procs[p].at == WaitNext || s.procs[p].at == WaitCheck || s.procs[p].at == WaitPass
    ensures AllLocks(GoWait(s, p))
  {
    var a, t := s.procs[p], GoWait(s, p);
    assert LocksOk(s, p);
    match a.at
    case WaitNext =>
      if IsProc(s, a.i) && s.procs[a.i].parent == p { LocksTake(s, p, WaitCheck); }
        else { LocksStep(s, p, t.procs[p], t); }
    case WaitCheck => LocksReap(s, p);
    case WaitPass => LocksGive(s, p, WaitNext, a.i + 1);
    case _ =>
  }

  lemma LocksWaitEnds(s: State, p: int)
    requires AllLocks(s) && AllStates(s) && IsProc(s, p) && Ready(s, p)
    requires s.procs[p].at == WaitAcquire || s.procs[p].at == WaitUnlock || s.procs[p].at == WaitQuit
    ensures AllLocks(GoWait(s, p))
  {
    var a, t := s.procs[p], GoWait(s, p);
    assert LocksOk(s, p);
    match a.at
    case WaitAcquire => LocksAcquireWait(s, p, t.procs[p], t);
    case WaitUnlock => LocksGive(s, p, WaitQuit, a.i);
    case WaitQuit => LocksReleaseWait(s, p, t.procs[p], t);
    case _ =>
  }

  lemma LocksWait(s: State, p: int)
    requires AllLocks(s) && AllStates(s) && IsProc(s, p) && Ready(s, p)
    requires AtWait(s.procs[p].at)
    ensures AllLocks(GoWait(s, p))
  {
    if s.procs[p].at == WaitNext || s.procs[p].at == WaitCheck || s.procs[p].at == WaitPass {
      LocksWaitScan(s, p);
    } else {
      LocksWaitEnds(s, p);
    }
  }

  /** A zombie whose lock somebody else holds has left its kernel stack. */
  lemma ZombieGone(s: State, p: int)
    requires IsProc(s, p) && LocksOk(s, p) && HoldsOther(s.procs[p].at) && IsProc(s, s.procs[p].i)
    requires LocksOk(s, s.procs[p].i) && s.procs[s.procs[p].i].state == ZOMBIE
    requires StateOk(s.procs[s.procs[p].i], s.procs[p].i) && StateOk(s.procs[p], p)
    ensures s.procs[p].i != p && s.procs[s.procs[p].i].at == Gone
  {
  }

  lemma LocksReap(s: State, p: int)
    requires AllLocks(s) && AllStates(s) && IsProc(s, p) && Ready(s, p) && s.procs[p].at == WaitCheck
    ensures AllLocks(GoWait(s, p))
  {
    var a := s.procs[p];
    if s.procs[a.i].state == ZOMBIE {
      LocksFreed(s, p);
    } else {
      LocksStep(s, p, a.(at := WaitPass, haveKids := true), GoWait(s, p));
    }
  }

  lemma LocksFreed(s: State, p: int)
    requires AllLocks(s) && AllStates(s) && IsProc(s, p) && s.procs[p].at == WaitCheck && IsProc(s, s.procs[p].i)
    requires Ready(s, p) && s.procs[s.procs[p].i].state == ZOMBIE
    ensures AllLocks(GoWait(s, p))
  {
    assert LocksOk(s, p) && LocksOk(s, s.procs[p].i) && StateOk(s.procs[p], p)
      && StateOk(s.procs[s.procs[p].i], s.procs[p].i);
    ZombieGone(s, p);
    LocksSame(s, GoWait(s, p));
  }

  lemma LocksDecide(s: State, p: int)
    requires AllLocks(s) && IsProc(s, p) && Ready(s, p) && AtDecide(s.procs[p].at)
    ensures AllLocks(GoDecide(s, p))
  {
    var t := GoDecide(s, p);
    assert LocksOk(s, p);
    if s.procs[p].at == WaitDecide {
      LocksStep(s, p, t.procs[p], t);
    } else {
      LocksOwn(s, p, t.procs[p], t);
    }
  }

  lemma LocksSleepOwn(s: State, p: int)
    requires AllLocks(s) && IsProc(s, p) && Ready(s, p)
    requires s.procs[p].at == SleepAcquire || s.procs[p].at == SleepSched || s.procs[p].at == SleepUnlock
    ensures AllLocks(GoSleep(s, p))
  {
    assert LocksOk(s, p);
    LocksOwn(s, p, GoSleep(s, p).procs[p], GoSleep(s, p));
  }

  lemma LocksSleepPlain(s: State, p: int)
    requires AllLocks(s) && IsProc(s, p) && Ready(s, p)
    requires s.procs[p].at == SleepChan || s.procs[p].at == SleepState || s.procs[p].at == SleepTidy
    ensures AllLocks(GoSleep(s, p))
  {
    LocksStep(s, p, GoSleep(s, p).procs[p], GoSleep(s, p));
  }

  lemma LocksSleep(s: State, p: int)
    requires AllLocks(s) && IsProc(s, p) && Ready(s, p) && AtSleep(s.procs[p].at)
    ensures AllLocks(GoSleep(s, p))
  {
    if s.procs[p].at == SleepRelease {
      LocksReleaseWait(s, p, GoSleep(s, p).procs[p], GoSleep(s, p));
    } else if s.procs[p].at == SleepAcquire || s.procs[p].at == SleepSched || s.procs[p].at == SleepUnlock {
      LocksSleepOwn(s, p);
    } else {
      LocksSleepPlain(s, p);
    }
  }

  lemma LocksKillNext(s: State, p: int)
    requires AllLocks(s) && IsProc(s, p) && Ready(s, p) && s.procs[p].at == KillNext
    ensures AllLocks(GoKill(s, p))
  {
    if IsProc(s, s.procs[p].i) {
      LocksTake(s, p, KillCheck);
    } else {
      LocksStep(s, p, GoKill(s, p).procs[p], GoKill(s, p));
    }
  }

  lemma LocksKillCheck(s: State, p: int)
    requires AllLocks(s) && IsProc(s, p) && Ready(s, p) && s.procs[p].at == KillCheck
    ensures AllLocks(GoKill(s, p))
  {
    assert LocksOk(s, p);
    LocksSame(s, GoKill(s, p));
  }

  lemma LocksKillRelease(s: State, p: int)
    requires AllLocks(s) && IsProc(s, p) && Ready(s, p) && s.procs[p].at == KillRelease
    ensures AllLocks(GoKill(s, p))
  {
    var a := s.procs[p];
    LocksGive(s, p, if s.procs[a.i].pid == a.target then Idle else KillNext, a.i + 1);
  }

  lemma LocksKill(s: State, p: int)
    requires AllLocks(s) && IsProc(s, p) && Ready(s, p)
    requires AtKill(s.procs[p].at)
    ensures AllLocks(GoKill(s, p))
  {
    if s.procs[p].at == KillNext {
      LocksKillNext(s, p);
    } else if s.procs[p].at == KillCheck {
      LocksKillCheck(s, p);
    } else {
      LocksKillRelease(s, p);
    }
  }

  lemma LocksFault(s: State, p: int)
    requires AllLocks(s) && IsProc(s, p) && Ready(s, p) && AtFault(s.procs[p].at)
    ensures AllLocks(GoFault(s, p))
  {
    if s.procs[p].at == FaultMark {
      LocksFaultMark(s, p);
    } else {
      LocksFaultOwn(s, p);
    }
  }

  lemma LocksFaultMark(s: State, p: int)
    requires AllLocks(s) && IsProc(s, p) && Ready(s, p) && s.procs[p].at == FaultMark
    ensures AllLocks(GoFault(s, p))
  {
    LocksStep(s, p, GoFault(s, p).procs[p], GoFault(s, p));
  }

  lemma LocksFaultOwn(s: State, p: int)
    requires AllLocks(s) && IsProc(s, p) && Ready(s, p)
    requires s.procs[p].at == FaultLock || s.procs[p].at == FaultUnlock
    ensures AllLocks(GoFault(s, p))
  {
    assert LocksOk(s, p);
    LocksOwn(s, p, GoFault(s, p).procs[p], GoFault(s, p));
  }

  lemma LocksAdvance(s: State, p: int)
    requires AllLocks(s) && AllStates(s) && IsProc(s, p) && Ready(s, p)
    ensures AllLocks(Advance(s, p))
  {
    if AtAlloc(s.procs[p].at) {
      LocksForkAlloc(s, p);
    } else if AtStart(s.procs[p].at) {
      LocksForkStart(s, p);
    } else if AtExit(s.procs[p].at) {
      LocksExit(s, p);
    } else if Waking(s.procs[p].at) {
      LocksWake(s, p);
    } else if AtWait(s.procs[p].at) {
      LocksWait(s, p);
    } else if AtKill(s.procs[p].at) {
      LocksKill(s, p);
    } else if AtFault(s.procs[p].at) {
      LocksFault(s, p);
    } else if AtDecide(s.procs[p].at) {
      LocksDecide(s, p);
    } else {
      LocksSleep(s, p);
    }
  }

  // ------------------------------------------------------------------ the rest of the invariant

  /** The entry fork is making is its own and on no CPU. */
  ghost predicate MakeOk(s: State, p: int)
    requires IsProc(s, p)
  {
    var a := s.procs[p];
    Making(a.at) ==>
      && IsProc(s, a.i) && a.i != p && s.procs[a.i].state == USED && s.procs[a.i].maker == p
      && (a.at == ForkCopy || a.at == ForkUnlock || a.at == ForkAcquire || a.at == ForkParent ==>
          s.procs[a.i].parent == NONE)
  }

  /** Has run and not exited. */
  predicate Live(a: Proc) {
    a.state == RUNNING || a.state == RUNNABLE || a.state == SLEEPING
  }

  /** A parent is always there to wait. */
  ghost predicate ParentOk(s: State, c: int)
    requires IsProc(s, c)
  {
    var a := s.procs[c];
    && (a.parent != NONE ==> IsProc(s, a.parent) && Live(s.procs[a.parent]))
    && (a.state == UNUSED || c == INIT ==> a.parent == NONE)
    && a.parent != c
  }

  /** In a wakeup by exit. */
  predicate Waking(at: Label) {
    at == WakeNext || at == WakeCheck || at == WakeRelease
  }

  /** In exit, before the wakeup of the parent is over. */
  predicate Exiting(at: Label) {
    match at
    case ExitAcquire | ReparentNext | WakeNext | WakeCheck | WakeRelease => true
    case ExitLock | ExitZombie | ExitRelease | ExitSched | Gone => true
    case _ => false
  }

  /** In exit with wait_lock, the process not yet a zombie. */
  predicate InExit(at: Label) {
    match at
    case ReparentNext | WakeNext | WakeCheck | WakeRelease | ExitLock | ExitZombie => true
    case _ => false
  }

  /** In wait's table scan or committed to its outcome. */
  predicate Scans(at: Label) {
    match at
    case WaitNext | WaitCheck | WaitPass | WaitDecide | WaitKilled | WaitDecided | SleepAcquire | SleepRelease => true
    case _ => false
  }

  /** How far exit has handed p's children to init: entries below this index are not p's. */
  function Reparented(s: State, a: Proc): int {
    if a.at == ReparentNext || (Waking(a.at) && !a.last) then a.r
    else if Waking(a.at) || a.at == ExitLock || a.at == ExitZombie then |s.procs|
    else 0
  }

  ghost predicate ExitOk(s: State, p: int)
    requires IsProc(s, p)
  {
    var a := s.procs[p];
    && (forall c :: IsProc(s, c) && c < Reparented(s, a) ==> s.procs[c].parent != p)
    && (Waking(a.at) ==> 0 <= a.i && a.target == if a.last then a.parent else INIT)
    && (a.at == ReparentNext || Waking(a.at) ==> 0 <= a.r)
    && (Exiting(a.at) || a.at == Newborn ==> p != INIT)
  }

  /** How far wait has looked: entries below this index are no zombie children of p. */
  function Scanned(s: State, a: Proc): int {
    match a.at
    case WaitNext | WaitCheck => a.i
    case WaitPass => a.i + 1
    case WaitDecide | WaitKilled | WaitDecided | SleepAcquire | SleepRelease => |s.procs|
    case _ => 0
  }

  ghost predicate ScanOk(s: State, p: int)
    requires IsProc(s, p)
  {
    var a := s.procs[p];
    && (forall c :: IsProc(s, c) && c < Scanned(s, a) && s.procs[c].parent == p ==>
        a.haveKids && s.procs[c].state != ZOMBIE)
    && (a.at == WaitCheck ==> IsProc(s, a.i) && s.procs[a.i].parent == p)
    && (a.at == WaitPass ==> a.haveKids)
    && (a.at == WaitNext ==> 0 <= a.i)
  }

  /** A process asleep in wait, or committed to sleeping, that nobody has made runnable. */
  predicate Waits(a: Proc) {
    a.at == SleepChan || a.at == SleepState || a.at == SleepSched || (a.at == Asleep && a.state == SLEEPING)
  }

  /** The wakeup of channel q by an exiting process has yet to look at process q. */
  predicate WillReach(a: Proc, q: int) {
    a.target == q && ((a.at == WakeNext && a.i <= q) || (a.at == WakeCheck && a.i <= q)
      || (a.at == WakeRelease && a.i < q))
  }

  /** No lost exit: a waiting parent of a zombie is about to be woken by the holder of wait_lock. */
  ghost predicate ExitSeen(s: State, p: int, c: int)
    requires IsProc(s, p) && IsProc(s, c)
  {
    Waits(s.procs[p]) && s.procs[c].parent == p && s.procs[c].state == ZOMBIE ==>
      IsProc(s, s.waiter) && s.waiter != p && WillReach(s.procs[s.waiter], p)
  }

  /** An exiting process has woken its parent before it becomes a zombie. */
  ghost predicate ParentWoken(s: State, p: int)
    requires IsProc(s, p)
  {
    var a := s.procs[p];
    IsProc(s, a.parent) && Waits(s.procs[a.parent]) ==>
      && (Waking(a.at) && a.last ==> WillReach(a, a.parent))
      && a.at != ExitLock && a.at != ExitZombie
  }

  ghost predicate AllFamilies(s: State) {
    && IsProc(s, INIT) && Live(s.procs[INIT])
    && (forall p {:trigger MakeOk(s, p)} {:trigger ParentOk(s, p)} {:trigger ExitOk(s, p)} ::
          IsProc(s, p) ==> MakeOk(s, p) && ParentOk(s, p) && ExitOk(s, p))
  }

  ghost predicate AllWaits(s: State) {
    && (forall p {:trigger ScanOk(s, p)} {:trigger ParentWoken(s, p)} :: IsProc(s, p) ==>
        ScanOk(s, p) && ParentWoken(s, p))
    && (forall p, c {:trigger ExitSeen(s, p, c)} :: IsProc(s, p) && IsProc(s, c) ==> ExitSeen(s, p, c))
  }

  // ------------------------------------------------------------------ what one step leaves alone

  /** wait reaped the zombie q. */
  predicate Reaps(a: Proc, q: int, before: Proc, after: Proc) {
    a.at == WaitCheck && q == a.i && before.state == ZOMBIE && after == Freed(before)
  }

  /** What p's step may do to the entry of another process. */
  predicate OtherKept(p: int, a: Proc, q: int, before: Proc, after: Proc) {
    && after.i == before.i && after.r == before.r && after.target == before.target && after.last == before.last
    && after.haveKids == before.haveKids
    && (Reaps(a, q, before, after) ||
         (&& after.at == before.at && after.chan == before.chan
          && (after.pid == before.pid || (a.at == ForkCheck && q == a.i && before.state == UNUSED))
          && (after.maker == before.maker || (a.at == ForkCheck && q == a.i && before.state == UNUSED
              && after.maker == p))
          && StateKept(a, q, before, after)
          && ParentKept(p, a, q, before, after)))
  }

  predicate StateKept(a: Proc, q: int, before: Proc, after: Proc) {
    after.state == before.state ||
    (q == a.i &&
      ((a.at == ForkCheck && before.state == UNUSED && after.state == USED)
       || (a.at == ForkStart && after.state == RUNNABLE)
       || ((a.at == WakeCheck || a.at == KillCheck) && before.state == SLEEPING && after.state == RUNNABLE)))
  }

  predicate ParentKept(p: int, a: Proc, q: int, before: Proc, after: Proc) {
    after.parent == before.parent
    || (a.at == ReparentNext && q == a.r && before.parent == p && after.parent == INIT)
    || (a.at == ForkParent && q == a.i && after.parent == p)
  }

  /** What p's step may do to its own entry. */
  predicate OwnKept(p: int, a: Proc, b: Proc) {
    && b.parent == a.parent && b.pid == a.pid
    && (b.state == ZOMBIE <==> a.state == ZOMBIE || a.at == ExitZombie)
    && (Live(a) && a.at != ExitZombie ==> Live(b))
    && (Waits(b) ==> Waits(a) || a.at == SleepRelease)
    && (InExit(b.at) ==> InExit(a.at) || a.at == ExitAcquire) && (Scans(b.at) ==> Scans(a.at) || a.at == WaitAcquire)
    && (Exiting(b.at) ==> Exiting(a.at)) && b.at != Newborn
    && (Making(b.at) ==> Making(a.at) || a.at == ForkCheck)
    && StateOk(b, p)
  }

  ghost predicate Kept(s: State, t: State, p: int, q: int)
    requires IsProc(s, p) && IsProc(s, q)
  {
    && |t.procs| == |s.procs|
    && if q == p then OwnKept(p, s.procs[p], t.procs[p])
       else OtherKept(p, s.procs[p], q, s.procs[q], t.procs[q])
  }

  /** The control flow: where a step takes a process, and what it makes of its own entry. */
  predicate Flow(p: int, a: Proc, b: Proc) {
    && b.parent == a.parent && b.pid == a.pid
    && match a.at
       case ForkNext => (b.at == Idle || b.at == ForkCheck) && b.state == a.state
       case ForkCheck => (b.at == ForkCopy || b.at == ForkPass) && b.state == a.state
       case ForkPass => b.at == ForkNext && b.state == a.state
       case ForkCopy => b.at == ForkUnlock && b.state == a.state
       case ForkDrop => b.at == Idle && b.state == a.state
       case ForkUnlock => b.at == ForkAcquire && b.state == a.state
       case ForkAcquire => b.at == ForkParent && b.state == a.state
       case ForkParent => b.at == ForkRelease && b.state == a.state
       case ForkRelease => b.at == ForkLock && b.state == a.state
       case ForkLock => b.at == ForkStart && b.state == a.state
       case ForkStart => b.at == ForkDone && b.state == a.state
       case ForkDone => b.at == Idle && b.state == a.state
       case FirstRun => b.at == Idle && b.state == a.state
       case ExitAcquire => b.at == ReparentNext && b.state == a.state
       case ReparentNext => (b.at == ReparentNext || b.at == WakeNext) && b.state == a.state
       case WakeNext => (b.at == WakeNext || b.at == WakeCheck || b.at == ReparentNext || b.at == ExitLock)
         && b.state == a.state
       case WakeCheck => b.at == WakeRelease && b.state == a.state
       case WakeRelease => b.at == WakeNext && b.state == a.state
       case ExitLock => b.at == ExitZombie && b.state == a.state
       case ExitZombie => b.at == ExitRelease && b.state == ZOMBIE
       case ExitRelease => b.at == ExitSched && b.state == a.state
       case ExitSched => b.at == Gone && b.state == a.state
       case WaitAcquire => b.at == WaitNext && b.state == a.state
       case WaitNext => (b.at == WaitNext || b.at == WaitCheck || b.at == WaitDecide) && b.state == a.state
       case WaitCheck => (b.at == WaitUnlock || b.at == WaitPass) && b.state == a.state
       case WaitPass => b.at == WaitNext && b.state == a.state
       case WaitUnlock => b.at == WaitQuit && b.state == a.state
       case WaitQuit => b.at == Idle && b.state == a.state
       case WaitDecide => (b.at == WaitKilled || b.at == WaitQuit) && b.state == a.state
       case WaitKilled => b.at == WaitDecided && b.state == a.state
       case WaitDecided => (b.at == SleepAcquire || b.at == WaitQuit) && b.state == a.state
       case SleepAcquire => b.at == SleepRelease && b.state == a.state
       case SleepRelease => b.at == SleepChan && b.state == a.state
       case SleepChan => b.at == SleepState && b.state == a.state && b.chan == p
       case SleepState => b.at == SleepSched && b.state == SLEEPING && b.chan == a.chan
       case SleepSched => b.at == Asleep && b.state == a.state && b.chan == a.chan
       case SleepTidy => b.at == SleepUnlock && b.state == a.state
       case SleepUnlock => b.at == WaitAcquire && b.state == a.state
       case KillNext => (b.at == Idle || b.at == KillCheck) && b.state == a.state
       case KillCheck => b.at == KillRelease && b.state == a.state
       case KillRelease => (b.at == Idle || b.at == KillNext) && b.state == a.state
       case FaultLock => b.at == FaultMark && b.state == a.state
       case FaultMark => b.at == FaultUnlock && b.state == a.state
       case FaultUnlock => b.at == Idle && b.state == a.state
       case _ => false
  }

  lemma FlowStates(p: int, a: Proc, b: Proc)
    requires Flow(p, a, b) && StateOk(a, p)
    ensures StateOk(b, p) && (b.state == ZOMBIE <==> a.state == ZOMBIE || a.at == ExitZombie)
    ensures Live(a) && a.at != ExitZombie ==> Live(b)
  {
  }

  lemma FlowPlaces(p: int, a: Proc, b: Proc)
    requires Flow(p, a, b) && StateOk(a, p)
    ensures Waits(b) ==> Waits(a) || a.at == SleepRelease
    ensures Scans(b.at) ==> Scans(a.at) || a.at == WaitAcquire
    ensures Making(b.at) ==> Making(a.at) || a.at == ForkCheck
  {
  }

  lemma FlowInExit(p: int, a: Proc, b: Proc)
    requires Flow(p, a, b)
    ensures InExit(b.at) ==> InExit(a.at) || a.at == ExitAcquire
  {
  }

  lemma FlowExits(p: int, a: Proc, b: Proc)
    requires Flow(p, a, b)
    ensures (Exiting(b.at) ==> Exiting(a.at)) && b.at != Newborn
  {
  }

  lemma FlowKept(p: int, a: Proc, b: Proc)
    requires Flow(p, a, b) && StateOk(a, p)
    ensures OwnKept(p, a, b)
  {
    FlowStates(p, a, b);
    FlowPlaces(p, a, b);
    FlowInExit(p, a, b);
    FlowExits(p, a, b);
  }

  /** p's step, seen from q. */
  ghost predicate Moves(s: State, t: State, p: int, q: int)
    requires IsProc(s, p) && IsProc(s, q)
  {
    && |t.procs| == |s.procs|
    && if q == p then Flow(p, s.procs[p], t.procs[p])
       else OtherKept(p, s.procs[p], q, s.procs[q], t.procs[q])
  }

  ghost predicate MayStep(s: State, p: int)
    requires IsProc(s, p)
  {
    Ready(s, p) && StateOk(s.procs[p], p) && MakeOk(s, p) && ParentOk(s, p)
  }

  lemma KeptForkAlloc(s: State, p: int, q: int)
    requires IsProc(s, p) && IsProc(s, q) && MayStep(s, p)
    requires AtAlloc(s.procs[p].at)
    ensures Moves(s, GoForkAlloc(s, p), p, q)
  {
  }

  lemma KeptForkStart(s: State, p: int, q: int)
    requires IsProc(s, p) && IsProc(s, q) && MayStep(s, p)
    requires AtStart(s.procs[p].at)
    ensures Moves(s, GoForkStart(s, p), p, q)
  {
  }

  lemma KeptExit(s: State, p: int, q: int)
    requires IsProc(s, p) && IsProc(s, q) && MayStep(s, p)
    requires AtExit(s.procs[p].at)
    ensures Moves(s, GoExit(s, p), p, q)
  {
  }

  lemma KeptWake(s: State, p: int, q: int)
    requires IsProc(s, p) && IsProc(s, q) && MayStep(s, p)
    requires Waking(s.procs[p].at)
    ensures Moves(s, GoWake(s, p), p, q)
  {
  }

  lemma KeptWaitNext(s: State, p: int, q: int)
    requires IsProc(s, p) && IsProc(s, q) && MayStep(s, p) && s.procs[p].at == WaitNext
    ensures Moves(s, GoWait(s, p), p, q)
  {
    var a := s.procs[p];
    if IsProc(s, a.i) && s.procs[a.i].parent == p {
      assert GoWait(s, p) == PutOther(s, p, s.procs[a.i].(lock := p), WaitCheck, a.i);
    } else {
      assert q != p ==> GoWait(s, p).procs[q] == s.procs[q];
    }
  }

  lemma KeptWait(s: State, p: int, q: int)
    requires IsProc(s, p) && IsProc(s, q) && MayStep(s, p) && AtWait(s.procs[p].at)
    requires s.procs[p].at != WaitCheck && s.procs[p].at != WaitNext
    ensures Moves(s, GoWait(s, p), p, q)
  {
  }

  lemma KeptWaitCheck(s: State, p: int, q: int)
    requires IsProc(s, p) && IsProc(s, q) && MayStep(s, p) && s.procs[p].at == WaitCheck
    ensures Moves(s, GoWait(s, p), p, q)
  {
  }

  lemma KeptDecide(s: State, p: int, q: int)
    requires IsProc(s, p) && IsProc(s, q) && MayStep(s, p) && AtDecide(s.procs[p].at)
    ensures Moves(s, GoDecide(s, p), p, q)
  {
  }

  lemma KeptSleep(s: State, p: int, q: int)
    requires IsProc(s, p) && IsProc(s, q) && MayStep(s, p) && AtSleep(s.procs[p].at)
    ensures Moves(s, GoSleep(s, p), p, q)
  {
  }

  lemma KeptKillNext(s: State, p: int, q: int)
    requires IsProc(s, p) && IsProc(s, q) && MayStep(s, p) && s.procs[p].at == KillNext
    ensures Moves(s, GoKill(s, p), p, q)
  {
  }

  lemma KeptKillRelease(s: State, p: int, q: int)
    requires IsProc(s, p) && IsProc(s, q) && MayStep(s, p) && s.procs[p].at == KillRelease
    ensures Moves(s, GoKill(s, p), p, q)
  {
  }

  lemma KeptKillCheck(s: State, p: int, q: int)
    requires IsProc(s, p) && IsProc(s, q) && MayStep(s, p) && s.procs[p].at == KillCheck
    ensures Moves(s, GoKill(s, p), p, q)
  {
  }

  lemma KeptFault(s: State, p: int, q: int)
    requires IsProc(s, p) && IsProc(s, q) && MayStep(s, p) && AtFault(s.procs[p].at)
    ensures Moves(s, GoFault(s, p), p, q)
  {
  }

  lemma KeptAdvance(s: State, p: int, q: int)
    requires IsProc(s, p) && IsProc(s, q) && MayStep(s, p)
    ensures Kept(s, Advance(s, p), p, q)
  {
    MovesAdvance(s, p, q);
    if q == p {
      FlowKept(p, s.procs[p], Advance(s, p).procs[p]);
    }
  }

  lemma MovesAdvance(s: State, p: int, q: int)
    requires IsProc(s, p) && IsProc(s, q) && MayStep(s, p)
    ensures Moves(s, Advance(s, p), p, q)
  {
    if AtAlloc(s.procs[p].at) {
      KeptForkAlloc(s, p, q);
    } else if AtStart(s.procs[p].at) {
      KeptForkStart(s, p, q);
    } else if AtExit(s.procs[p].at) {
      KeptExit(s, p, q);
    } else if Waking(s.procs[p].at) {
      KeptWake(s, p, q);
    } else if AtFault(s.procs[p].at) {
      KeptFault(s, p, q);
    } else {
      MovesWaitOrKill(s, p, q);
    }
  }

  lemma MovesWaitOrKill(s: State, p: int, q: int)
    requires IsProc(s, p) && IsProc(s, q) && MayStep(s, p)
    requires AtWait(s.procs[p].at) || AtDecide(s.procs[p].at) || AtSleep(s.procs[p].at) || AtKill(s.procs[p].at)
    ensures Moves(s, Advance(s, p), p, q)
  {
    if s.procs[p].at == WaitCheck {
      KeptWaitCheck(s, p, q);
    } else if s.procs[p].at == WaitNext {
      KeptWaitNext(s, p, q);
    } else if AtWait(s.procs[p].at) {
      KeptWait(s, p, q);
    } else if AtDecide(s.procs[p].at) {
      KeptDecide(s, p, q);
    } else {
      MovesSleepOrKill(s, p, q);
    }
  }

  lemma MovesSleepOrKill(s: State, p: int, q: int)
    requires IsProc(s, p) && IsProc(s, q) && MayStep(s, p) && (AtSleep(s.procs[p].at) || AtKill(s.procs[p].at))
    ensures Moves(s, Advance(s, p), p, q)
  {
    if AtSleep(s.procs[p].at) {
      KeptSleep(s, p, q);
    } else if s.procs[p].at == KillCheck {
      KeptKillCheck(s, p, q);
    } else if s.procs[p].at == KillNext {
      KeptKillNext(s, p, q);
    } else {
      KeptKillRelease(s, p, q);
    }
  }

  // ------------------------------------------------------------------ states and slots

  lemma StatesAdvance(s: State, p: int, q: int)
    requires AllLocks(s) && AllStates(s) && IsProc(s, p) && MayStep(s, p) && IsProc(s, q)
    ensures |Advance(s, p).procs| == |s.procs| && StateOk(Advance(s, p).procs[q], q)
  {
    assert LocksOk(s, p) && LocksOk(s, q) && StateOk(s.procs[q], q);
    KeptAdvance(s, p, q);
  }

  lemma MakeOwn(s: State, p: int)
    requires IsProc(s, p) && Ready(s, p) && MakeOk(s, p) && LocksOk(s, p) && AllStates(s)
    requires forall c :: IsProc(s, c) ==> ParentOk(s, c)
    ensures MakeOk(Advance(s, p), p)
  {
    assert StateOk(s.procs[p], p);
    if AtAlloc(s.procs[p].at) {
      MakeOwnAlloc(s, p);
    } else if AtStart(s.procs[p].at) {
      MakeOwnStart(s, p);
    } else {
      KeptAdvance(s, p, p);
    }
  }

  lemma MakeOwnAlloc(s: State, p: int)
    requires IsProc(s, p) && Ready(s, p) && MakeOk(s, p) && LocksOk(s, p) && AllStates(s)
    requires IsProc(s, s.procs[p].i) ==> ParentOk(s, s.procs[p].i)
    ensures MakeOk(GoForkAlloc(s, p), p)
  {
    assert StateOk(s.procs[p], p);
    assert IsProc(s, s.procs[p].i) ==> StateOk(s.procs[s.procs[p].i], s.procs[p].i);
  }

  lemma MakeOwnStart(s: State, p: int)
    requires IsProc(s, p) && Ready(s, p) && MakeOk(s, p)
    ensures MakeOk(GoForkStart(s, p), p)
  {
  }

  lemma MakeAdvance(s: State, p: int, q: int)
    requires AllLocks(s) && AllStates(s) && AllFamilies(s) && IsProc(s, p) && Ready(s, p) && IsProc(s, q)
    ensures MakeOk(Advance(s, p), q)
  {
    assert LocksOk(s, p) && MakeOk(s, p) && MakeOk(s, q) && StateOk(s.procs[p], p) && StateOk(s.procs[q], q);
    if q == p {
      MakeOwn(s, p);
      return;
    }
    KeptAdvance(s, p, q);
    var e := s.procs[q].i;
    if Making(s.procs[q].at) {
      assert StateOk(s.procs[e], e);
      KeptAdvance(s, p, e);
    }
  }

  // ------------------------------------------------------------------ parents

  /** All that the lemmas below need of a step. */
  ghost predicate Steps(s: State, p: int) {
    AllLocks(s) && AllStates(s) && AllFamilies(s) && IsProc(s, p) && Ready(s, p)
  }

  /** Only the holder of wait_lock changes parents and makes or reaps zombies. */
  lemma NotHolder(s: State, p: int, c: int)
    requires Steps(s, p) && IsProc(s, c) && s.waiter != p
    ensures Advance(s, p).procs[c].parent == s.procs[c].parent
    ensures Advance(s, p).procs[c].state == ZOMBIE <==> s.procs[c].state == ZOMBIE
    ensures Waits(Advance(s, p).procs[c]) ==> Waits(s.procs[c])
    ensures s.waiter != NOBODY ==> Advance(s, p).waiter == s.waiter
  {
    assert LocksOk(s, p) && StateOk(s.procs[p], p) && MakeOk(s, p) && ParentOk(s, p) && StateOk(s.procs[c], c);
    KeptAdvance(s, p, c);
    WaiterKept(s, p);
  }

  lemma WaiterKept(s: State, p: int)
    requires IsProc(s, p) && Ready(s, p) && (HoldsWait(s.procs[p].at) ==> s.waiter == p) && s.waiter != p
    ensures s.waiter != NOBODY ==> Advance(s, p).waiter == s.waiter
  {
  }

  lemma LiveKept(s: State, p: int, r: int)
    requires Steps(s, p) && IsProc(s, r) && Live(s.procs[r]) && !(r == p && s.procs[p].at == ExitZombie)
    ensures Live(Advance(s, p).procs[r])
  {
    assert StateOk(s.procs[p], p) && MakeOk(s, p) && ParentOk(s, p);
    KeptAdvance(s, p, r);
  }

  lemma ParentAdvance(s: State, p: int, c: int)
    requires Steps(s, p) && IsProc(s, c)
    ensures ParentOk(Advance(s, p), c)
  {
    assert StateOk(s.procs[p], p) && MakeOk(s, p) && ParentOk(s, p) && ParentOk(s, c) && ExitOk(s, p);
    KeptAdvance(s, p, c);
    forall r | IsProc(s, r) && Live(s.procs[r]) && !(r == p && s.procs[p].at == ExitZombie)
      ensures Live(Advance(s, p).procs[r])
    {
      LiveKept(s, p, r);
    }
    ParentFrom(s, Advance(s, p), p, c);
  }

  lemma ParentFrom(s: State, t: State, p: int, c: int)
    requires IsProc(s, p) && IsProc(s, c) && MayStep(s, p) && Kept(s, t, p, c) && ParentOk(s, c) && ExitOk(s, p)
    requires IsProc(s, INIT) && Live(s.procs[INIT])
    requires forall r :: IsProc(s, r) && Live(s.procs[r]) && !(r == p && s.procs[p].at == ExitZombie) ==>
      Live(t.procs[r])
    ensures ParentOk(t, c)
  {
  }

  lemma ExitOwn(s: State, p: int)
    requires IsProc(s, p) && Ready(s, p) && ParentOk(s, p) && ExitOk(s, p)
    requires s.procs[p].at == ExitAcquire || s.procs[p].at == ExitLock || s.procs[p].at == ExitZombie
    ensures ExitOk(GoExit(s, p), p)
  {
  }

  lemma ExitOwnReparent(s: State, p: int)
    requires IsProc(s, p) && Ready(s, p) && ParentOk(s, p) && ExitOk(s, p)
    requires s.procs[p].at == ReparentNext
    ensures ExitOk(GoExit(s, p), p)
  {
  }

  lemma ExitOwnWake(s: State, p: int)
    requires IsProc(s, p) && Ready(s, p) && ExitOk(s, p)
    requires Waking(s.procs[p].at)
    ensures ExitOk(GoWake(s, p), p)
  {
  }

  lemma ExitOther(s: State, t: State, p: int, q: int)
    requires IsProc(s, p) && IsProc(s, q) && Kept(s, t, p, q) && ExitOk(s, q) && (q == INIT ==> Live(s.procs[q]))
    requires q == p ==> !InExit(s.procs[p].at) && s.procs[p].at != ExitAcquire
    requires q != p && InExit(s.procs[q].at) ==> t.procs[q].parent == s.procs[q].parent
    requires q != p && InExit(s.procs[q].at) ==> forall c :: IsProc(s, c) ==> t.procs[c].parent == s.procs[c].parent
    ensures ExitOk(t, q)
  {
  }

  lemma ExitAdvance(s: State, p: int, q: int)
    requires Steps(s, p) && IsProc(s, q)
    ensures ExitOk(Advance(s, p), q)
  {
    var t := Advance(s, p);
    assert StateOk(s.procs[p], p) && MakeOk(s, p) && ParentOk(s, p) && ExitOk(s, q) && LocksOk(s, q);
    KeptAdvance(s, p, q);
    if q == p && (InExit(s.procs[p].at) || s.procs[p].at == ExitAcquire) {
      ExitOwnStep(s, p);
    } else {
      if q != p && InExit(s.procs[q].at) {
        forall c | IsProc(s, c)
          ensures t.procs[c].parent == s.procs[c].parent
        {
          NotHolder(s, p, c);
        }
      }
      ExitOther(s, t, p, q);
    }
  }

  lemma ExitOwnStep(s: State, p: int)
    requires IsProc(s, p) && Ready(s, p) && ParentOk(s, p) && ExitOk(s, p)
      && (InExit(s.procs[p].at) || s.procs[p].at == ExitAcquire)
    ensures ExitOk(Advance(s, p), p)
  {
    if Waking(s.procs[p].at) {
      ExitOwnWake(s, p);
    } else if s.procs[p].at == ReparentNext {
      ExitOwnReparent(s, p);
    } else {
      ExitOwn(s, p);
    }
  }

  // ------------------------------------------------------------------ wait

  lemma ScanOwnElse(s: State, p: int)
    requires IsProc(s, p) && MayStep(s, p) && ScanOk(s, p) && !Scans(s.procs[p].at) && s.procs[p].at != WaitAcquire
    ensures ScanOk(Advance(s, p), p)
  {
    KeptAdvance(s, p, p);
    ScanOther(s, Advance(s, p), p, p);
  }

  lemma ScanOwn(s: State, p: int)
    requires IsProc(s, p) && MayStep(s, p) && ScanOk(s, p)
    ensures ScanOk(Advance(s, p), p)
  {
    if s.procs[p].at == WaitCheck {
      ScanOwnCheck(s, p);
    } else if AtWait(s.procs[p].at) {
      ScanOwnWait(s, p);
    } else if AtDecide(s.procs[p].at) {
      ScanOwnDecide(s, p);
    } else if s.procs[p].at == SleepAcquire || s.procs[p].at == SleepRelease {
      ScanOwnSleep(s, p);
    } else {
      ScanOwnElse(s, p);
    }
  }

  lemma ScanOwnWait(s: State, p: int)
    requires IsProc(s, p) && Ready(s, p) && ScanOk(s, p) && AtWait(s.procs[p].at) && s.procs[p].at != WaitCheck
    ensures ScanOk(GoWait(s, p), p)
  {
    if s.procs[p].at == WaitNext {
      ScanOwnNext(s, p);
    }
  }

  lemma ScanOwnNext(s: State, p: int)
    requires IsProc(s, p) && Ready(s, p) && ScanOk(s, p) && s.procs[p].at == WaitNext
    ensures ScanOk(GoWait(s, p), p)
  {
    var a := s.procs[p];
    if !IsProc(s, a.i) {
      ScanMoves(s, GoWait(s, p), p, a.(at := WaitDecide));
    } else if s.procs[a.i].parent == p {
      assert GoWait(s, p) == PutOther(s, p, s.procs[a.i].(lock := p), WaitCheck, a.i);
    } else {
      ScanMoves(s, GoWait(s, p), p, a.(i := a.i + 1));
    }
  }

  /** The scan of p goes past entries that are not its children. */
  lemma ScanMoves(s: State, t: State, p: int, b: Proc)
    requires IsProc(s, p) && ScanOk(s, p) && s.procs[p].at == WaitNext && t == Put(s, p, b)
    requires b == s.procs[p].(at := b.at, i := b.i) && (b.at == WaitNext || b.at == WaitDecide) && 0 <= b.i
    requires forall c :: IsProc(s, c) && s.procs[p].i <= c < Scanned(s, b) ==> s.procs[c].parent != p
    ensures ScanOk(t, p)
  {
  }

  lemma ScanOwnCheck(s: State, p: int)
    requires IsProc(s, p) && Ready(s, p) && StateOk(s.procs[p], p) && ScanOk(s, p) && s.procs[p].at == WaitCheck
    ensures ScanOk(GoWait(s, p), p)
  {
  }

  lemma ScanOwnDecide(s: State, p: int)
    requires IsProc(s, p) && Ready(s, p) && ScanOk(s, p) && AtDecide(s.procs[p].at)
    ensures ScanOk(GoDecide(s, p), p)
  {
  }

  lemma ScanOwnSleep(s: State, p: int)
    requires IsProc(s, p) && Ready(s, p) && ScanOk(s, p)
    requires s.procs[p].at == SleepAcquire || s.procs[p].at == SleepRelease
    ensures ScanOk(GoSleep(s, p), p)
  {
  }

  lemma ScanOther(s: State, t: State, p: int, q: int)
    requires IsProc(s, p) && IsProc(s, q) && Kept(s, t, p, q) && ScanOk(s, q)
    requires q == p ==> !Scans(s.procs[p].at) && s.procs[p].at != WaitAcquire
    requires q != p && Scans(s.procs[q].at) ==> forall c :: IsProc(s, c) ==>
      t.procs[c].parent == s.procs[c].parent && (t.procs[c].state == ZOMBIE <==> s.procs[c].state == ZOMBIE)
    ensures ScanOk(t, q)
  {
  }

  lemma ScanAdvance(s: State, p: int, q: int)
    requires Steps(s, p) && IsProc(s, q) && ScanOk(s, q)
    ensures ScanOk(Advance(s, p), q)
  {
    var t := Advance(s, p);
    assert StateOk(s.procs[p], p) && MakeOk(s, p) && ParentOk(s, p) && LocksOk(s, q);
    KeptAdvance(s, p, q);
    if q == p {
      ScanOwn(s, p);
    } else {
      if Scans(s.procs[q].at) {
        forall c | IsProc(s, c)
          ensures t.procs[c].parent == s.procs[c].parent && (t.procs[c].state == ZOMBIE <==> s.procs[c].state == ZOMBIE)
        {
          NotHolder(s, p, c);
        }
      }
      ScanOther(s, t, p, q);
    }
  }

  // ------------------------------------------------------------------ no lost exit

  /** exit's own steps: the scan reaches the parent before the process becomes a zombie. */
  lemma WokenOwnCheck(s: State, p: int)
    requires IsProc(s, p) && Ready(s, p) && LocksOk(s, p) && ParentOk(s, p) && ParentWoken(s, p) && ExitOk(s, p)
    requires s.procs[p].at == WakeCheck
    requires var r := s.procs[p].parent; IsProc(s, r) ==> StateOk(s.procs[r], r) && LocksOk(s, r)
    ensures ParentWoken(GoWake(s, p), p)
  {
    var a, r := s.procs[p], s.procs[p].parent;
    if r == a.i {
      assert a.last && a.target == r ==> !Waits(GoWake(s, p).procs[r]);
    }
  }

  lemma WokenOwnNext(s: State, p: int)
    requires IsProc(s, p) && Ready(s, p) && ParentOk(s, p) && ParentWoken(s, p) && ExitOk(s, p)
    requires s.procs[p].at == WakeNext || s.procs[p].at == WakeRelease
    ensures ParentWoken(GoWake(s, p), p)
  {
  }

  lemma WokenOwnExit(s: State, p: int)
    requires IsProc(s, p) && Ready(s, p) && ParentOk(s, p) && ParentWoken(s, p) && ExitOk(s, p)
    requires s.procs[p].at == ExitAcquire || s.procs[p].at == ReparentNext || s.procs[p].at == ExitLock
      || s.procs[p].at == ExitZombie
    ensures ParentWoken(GoExit(s, p), p)
  {
  }

  lemma WokenOther(s: State, t: State, p: int, q: int)
    requires IsProc(s, p) && IsProc(s, q) && Kept(s, t, p, q) && ParentWoken(s, q)
    requires q == p ==> !InExit(s.procs[p].at) && s.procs[p].at != ExitAcquire
    requires q != p && InExit(s.procs[q].at) ==> t.procs[q].parent == s.procs[q].parent
    requires q != p && InExit(s.procs[q].at) && IsProc(s, s.procs[q].parent) ==>
      (Waits(t.procs[s.procs[q].parent]) ==> Waits(s.procs[s.procs[q].parent]))
    ensures ParentWoken(t, q)
  {
  }

  lemma WokenOwn(s: State, p: int)
    requires IsProc(s, p) && Ready(s, p) && LocksOk(s, p) && ParentOk(s, p) && ExitOk(s, p) && ParentWoken(s, p)
    requires StateOk(s.procs[p], p) && (InExit(s.procs[p].at) || s.procs[p].at == ExitAcquire)
    requires var r := s.procs[p].parent; IsProc(s, r) ==> StateOk(s.procs[r], r) && LocksOk(s, r)
    ensures ParentWoken(Advance(s, p), p)
  {
    if s.procs[p].at == WakeCheck {
      WokenOwnCheck(s, p);
    } else if Waking(s.procs[p].at) {
      WokenOwnNext(s, p);
    } else {
      WokenOwnExit(s, p);
    }
  }

  lemma WokenAdvance(s: State, p: int, q: int)
    requires Steps(s, p) && IsProc(s, q) && ParentWoken(s, q)
    ensures ParentWoken(Advance(s, p), q)
  {
    if q == p && (InExit(s.procs[p].at) || s.procs[p].at == ExitAcquire) {
      assert StateOk(s.procs[p], p) && MakeOk(s, p) && ParentOk(s, p) && LocksOk(s, p) && ExitOk(s, p);
      var r := s.procs[p].parent;
      assert IsProc(s, r) ==> StateOk(s.procs[r], r) && LocksOk(s, r);
      WokenOwn(s, p);
    } else {
      WokenElse(s, p, q);
    }
  }

  lemma WokenElse(s: State, p: int, q: int)
    requires Steps(s, p) && IsProc(s, q) && ParentWoken(s, q)
    requires q == p ==> !InExit(s.procs[p].at) && s.procs[p].at != ExitAcquire
    ensures ParentWoken(Advance(s, p), q)
  {
    assert StateOk(s.procs[p], p) && MakeOk(s, p) && ParentOk(s, p) && LocksOk(s, q);
    KeptAdvance(s, p, q);
    var r := s.procs[q].parent;
    if q != p && InExit(s.procs[q].at) {
      NotHolder(s, p, q);
      if IsProc(s, r) {
        NotHolder(s, p, r);
      }
    }
    WokenOther(s, Advance(s, p), p, q);
  }

  lemma SeenAdvance(s: State, p: int, w: int, c: int)
    requires Steps(s, p) && IsProc(s, w) && IsProc(s, c)
    requires ExitSeen(s, w, c) && ScanOk(s, p) && ParentWoken(s, p)
    ensures ExitSeen(Advance(s, p), w, c)
  {
    assert LocksOk(s, p) && StateOk(s.procs[p], p) && MakeOk(s, p) && ParentOk(s, p);
    if s.waiter == p {
      SeenHolder(s, p, w, c);
    } else {
      NotHolder(s, p, w);
      NotHolder(s, p, c);
      if IsProc(s, s.waiter) {
        assert LocksOk(s, s.waiter);
        KeptAdvance(s, p, s.waiter);
      }
    }
  }

  /** A wakeup step either wakes w or has yet to reach it. */
  lemma SeenWake(s: State, p: int, w: int)
    requires IsProc(s, p) && Ready(s, p) && LocksOk(s, p) && 0 <= s.procs[p].i && s.waiter == p
    requires IsProc(s, w) && w != p && LocksOk(s, w) && StateOk(s.procs[w], w) && WillReach(s.procs[p], w)
    requires Waits(s.procs[w]) && Waits(GoWake(s, p).procs[w])
    ensures GoWake(s, p).waiter == p && WillReach(GoWake(s, p).procs[p], w)
  {
  }

  /** A child of a waiting process that turns zombie, or a zombie that turns a child of init. */
  lemma SeenNew(s: State, p: int, w: int, c: int)
    requires Steps(s, p) && IsProc(s, w) && IsProc(s, c) && w != p && s.waiter == p && ParentWoken(s, p)
    requires Waits(s.procs[w]) && Kept(s, Advance(s, p), p, c) && Advance(s, p).procs[c].parent == w
    requires Advance(s, p).procs[c].state == ZOMBIE && !(s.procs[c].parent == w && s.procs[c].state == ZOMBIE)
    ensures Advance(s, p).waiter == p && WillReach(Advance(s, p).procs[p], w)
  {
    assert s.procs[p].at == ReparentNext;
    assert Advance(s, p) == GoExit(s, p);
  }

  /** Somebody who waits after a step of the holder of wait_lock waited before. */
  lemma SeenCases(s: State, t: State, p: int, w: int, c: int)
    requires IsProc(s, p) && StateOk(s.procs[p], p) && HoldsWait(s.procs[p].at) && ScanOk(s, p) && IsProc(s, w)
      && IsProc(s, c)
    requires Kept(s, t, p, w) && Kept(s, t, p, c)
    requires Waits(t.procs[w]) && t.procs[c].parent == w && t.procs[c].state == ZOMBIE
    ensures w != p && Waits(s.procs[w])
  {
  }

  /** A step of the holder of wait_lock. */
  lemma SeenHolder(s: State, p: int, w: int, c: int)
    requires Steps(s, p) && s.waiter == p && IsProc(s, w) && IsProc(s, c)
    requires ExitSeen(s, w, c) && ScanOk(s, p) && ParentWoken(s, p)
    ensures ExitSeen(Advance(s, p), w, c)
  {
    assert LocksOk(s, p) && StateOk(s.procs[p], p) && MakeOk(s, p) && ParentOk(s, p);
    KeptAdvance(s, p, w);
    KeptAdvance(s, p, c);
    if Waits(Advance(s, p).procs[w]) && Advance(s, p).procs[c].parent == w && Advance(s, p).procs[c].state == ZOMBIE {
      SeenCases(s, Advance(s, p), p, w, c);
      if s.procs[c].parent == w && s.procs[c].state == ZOMBIE {
        assert Advance(s, p) == GoWake(s, p);
        assert ExitOk(s, p) && LocksOk(s, w) && StateOk(s.procs[w], w);
        SeenWake(s, p, w);
      } else {
        SeenNew(s, p, w, c);
      }
    }
  }

  // ------------------------------------------------------------------ pids

  /** Entries in use have distinct pids, which nobody has reaped. */
  ghost predicate PidOk(s: State, c: int)
    requires IsProc(s, c)
  {
    var a := s.procs[c];
    && (a.state == UNUSED <==> a.pid == 0)
    && 0 <= a.pid < s.nextPid
    && (a.pid != 0 ==> forall d :: IsProc(s, d) && d != c ==> s.procs[d].pid != a.pid)
    && (a.pid in s.exited <==> a.state == ZOMBIE)
  }

  /** Pids are reaped once each, after they have exited. */
  ghost predicate ReapedOk(s: State) {
    && (forall j, k :: 0 <= j < k < |s.reaped| ==> s.reaped[j].pid != s.reaped[k].pid)
    && (forall k :: 0 <= k < |s.reaped| ==> s.reaped[k].pid in s.exited)
    && (forall k, c :: 0 <= k < |s.reaped| && IsProc(s, c) ==> s.reaped[k].pid != s.procs[c].pid)
  }

  /** Its zombie is still in the table, or some wait has reaped it. */
  ghost predicate Accounted(s: State, pid: int) {
    (exists c :: IsProc(s, c) && s.procs[c].pid == pid && s.procs[c].state == ZOMBIE)
    || (exists k :: 0 <= k < |s.reaped| && s.reaped[k].pid == pid)
  }

  /** Pids exit once each, and no exit is forgotten. */
  ghost predicate ExitedOk(s: State) {
    && (forall j, k :: 0 <= j < k < |s.exited| ==> s.exited[j] != s.exited[k])
    && (forall k :: 0 <= k < |s.exited| ==> 0 < s.exited[k] < s.nextPid && Accounted(s, s.exited[k]))
  }

  ghost predicate AllPids(s: State) {
    0 < s.nextPid && (forall c {:trigger PidOk(s, c)} :: IsProc(s, c) ==> PidOk(s, c)) && ReapedOk(s) && ExitedOk(s)
  }

  /** The step leaves pids, zombies and the record of exits and reaps alone. */
  ghost predicate PidsSame(s: State, t: State) {
    && t.nextPid == s.nextPid && t.exited == s.exited && t.reaped == s.reaped && |t.procs| == |s.procs|
    && forall c :: IsProc(s, c) ==>
         t.procs[c].pid == s.procs[c].pid
         && (t.procs[c].state == UNUSED <==> s.procs[c].state == UNUSED)
         && (t.procs[c].state == ZOMBIE <==> s.procs[c].state == ZOMBIE)
  }

  lemma PidsUnchanged(s: State, t: State)
    requires AllPids(s) && PidsSame(s, t)
    ensures AllPids(t)
  {
    forall c | IsProc(t, c)
      ensures PidOk(t, c)
    {
      assert PidOk(s, c);
    }
    forall k | 0 <= k < |t.exited|
      ensures Accounted(t, t.exited[k])
    {
      assert Accounted(s, s.exited[k]);
    }
  }

  /** fork gives entry e the next pid. */
  lemma PidsAlloc(s: State, t: State, e: int)
    requires AllPids(s) && IsProc(s, e) && s.procs[e].state == UNUSED
    requires |t.procs| == |s.procs| && t.nextPid == s.nextPid + 1 && t.exited == s.exited && t.reaped == s.reaped
    requires t.procs[e].pid == s.nextPid && t.procs[e].state == USED
    requires forall c :: IsProc(s, c) && c != e ==>
      t.procs[c].pid == s.procs[c].pid && t.procs[c].state == s.procs[c].state
    ensures AllPids(t)
  {
    forall c | IsProc(t, c)
      ensures PidOk(t, c)
    {
      assert PidOk(s, c);
      forall d | IsProc(s, d)
        ensures s.procs[d].pid < s.nextPid
      {
        assert PidOk(s, d);
      }
    }
    forall k | 0 <= k < |t.exited|
      ensures Accounted(t, t.exited[k])
    {
      assert Accounted(s, s.exited[k]);
    }
  }

  /** Entry e, which is no zombie, becomes free again. */
  lemma PidsDropped(s: State, t: State, e: int)
    requires AllPids(s) && IsProc(s, e) && s.procs[e].state == USED
    requires |t.procs| == |s.procs| && t.nextPid == s.nextPid && t.exited == s.exited && t.reaped == s.reaped
    requires t.procs[e].pid == 0 && t.procs[e].state == UNUSED
    requires forall c :: IsProc(s, c) && c != e ==>
      t.procs[c].pid == s.procs[c].pid && t.procs[c].state == s.procs[c].state
    ensures AllPids(t)
  {
    forall c | IsProc(t, c)
      ensures PidOk(t, c)
    {
      assert PidOk(s, c) && PidOk(s, e);
    }
    forall k | 0 <= k < |t.exited|
      ensures Accounted(t, t.exited[k])
    {
      assert Accounted(s, s.exited[k]);
    }
    forall k | 0 <= k < |t.reaped|
      ensures t.reaped[k].pid != 0
    {
      assert s.reaped[k].pid in s.exited;
    }
  }

  /** Process e becomes a zombie. */
  lemma PidsExit(s: State, t: State, e: int)
    requires AllPids(s) && IsProc(s, e) && s.procs[e].state == RUNNING
    requires |t.procs| == |s.procs| && t.nextPid == s.nextPid && t.exited == s.exited + [s.procs[e].pid]
      && t.reaped == s.reaped
    requires t.procs[e].pid == s.procs[e].pid && t.procs[e].state == ZOMBIE
    requires forall c :: IsProc(s, c) && c != e ==>
      t.procs[c].pid == s.procs[c].pid && t.procs[c].state == s.procs[c].state
    ensures AllPids(t)
  {
    assert PidOk(s, e);
    forall c | IsProc(t, c)
      ensures PidOk(t, c)
    {
      assert PidOk(s, c);
    }
    forall k | 0 <= k < |t.exited|
      ensures Accounted(t, t.exited[k])
    {
      if k < |s.exited| {
        assert Accounted(s, s.exited[k]);
      } else {
        assert t.exited[k] == t.procs[e].pid;
      }
    }
  }

  /** Process p reaps the zombie e. */
  lemma PidsReap(s: State, t: State, e: int, p: int)
    requires AllPids(s) && IsProc(s, e) && s.procs[e].state == ZOMBIE
    requires |t.procs| == |s.procs| && t.nextPid == s.nextPid && t.exited == s.exited
    requires t.reaped == s.reaped + [Reap(s.procs[e].pid, p)]
    requires t.procs[e].pid == 0 && t.procs[e].state == UNUSED
    requires forall c :: IsProc(s, c) && c != e ==>
      t.procs[c].pid == s.procs[c].pid && t.procs[c].state == s.procs[c].state
    ensures AllPids(t)
  {
    assert PidOk(s, e);
    forall c | IsProc(t, c)
      ensures PidOk(t, c)
    {
      assert PidOk(s, c);
    }
    forall k | 0 <= k < |t.exited|
      ensures Accounted(t, t.exited[k])
    {
      assert Accounted(s, s.exited[k]);
      ReapAccounts(s, t, e, p, t.exited[k]);
    }
    ReapIsNew(s, t, e, p);
  }

  lemma ReapAccounts(s: State, t: State, e: int, p: int, pid: int)
    requires IsProc(s, e) && t.reaped == s.reaped + [Reap(s.procs[e].pid, p)] && |t.procs| == |s.procs|
    requires forall c :: IsProc(s, c) && c != e ==>
      t.procs[c].pid == s.procs[c].pid && t.procs[c].state == s.procs[c].state
    requires Accounted(s, pid)
    ensures Accounted(t, pid)
  {
    if pid == s.procs[e].pid {
      assert t.reaped[|s.reaped|].pid == pid;
    } else if c :| IsProc(s, c) && s.procs[c].pid == pid && s.procs[c].state == ZOMBIE {
      assert IsProc(t, c) && t.procs[c].pid == pid;
    } else {
      var k :| 0 <= k < |s.reaped| && s.reaped[k].pid == pid;
      assert t.reaped[k].pid == pid;
    }
  }

  lemma ReapIsNew(s: State, t: State, e: int, p: int)
    requires ReapedOk(s) && ExitedOk(s) && IsProc(s, e) && PidOk(s, e) && s.procs[e].state == ZOMBIE
    requires t.exited == s.exited && t.reaped == s.reaped + [Reap(s.procs[e].pid, p)] && |t.procs| == |s.procs|
    requires t.procs[e].pid == 0
    requires forall c :: IsProc(s, c) && c != e ==> t.procs[c].pid == s.procs[c].pid
    ensures ReapedOk(t)
  {
    forall k | 0 <= k < |t.reaped|
      ensures t.reaped[k].pid in t.exited && t.reaped[k].pid != 0
    {
      if k < |s.reaped| {
        assert s.reaped[k].pid in s.exited;
      }
    }
  }

  lemma LogKept(s: State, p: int)
    requires IsProc(s, p) && Ready(s, p)
    requires s.procs[p].at != ForkCheck && s.procs[p].at != ExitZombie && s.procs[p].at != WaitCheck
    ensures var t := Advance(s, p); t.nextPid == s.nextPid && t.exited == s.exited && t.reaped == s.reaped
  {
  }

  lemma PidsQuiet(s: State, p: int)
    requires Steps(s, p) && AllPids(s)
    requires s.procs[p].at != ForkCheck && s.procs[p].at != ExitZombie && s.procs[p].at != WaitCheck
    ensures AllPids(Advance(s, p))
  {
    var t := Advance(s, p);
    assert StateOk(s.procs[p], p) && MakeOk(s, p) && ParentOk(s, p);
    LogKept(s, p);
    forall c | IsProc(s, c)
      ensures PidQuiet(s.procs[c], t.procs[c])
    {
      KeptAdvance(s, p, c);
      KeptIsQuiet(s, t, p, c);
    }
    PidsUnchanged(s, t);
  }

  predicate PidQuiet(a: Proc, b: Proc) {
    b.pid == a.pid && (b.state == UNUSED <==> a.state == UNUSED) && (b.state == ZOMBIE <==> a.state == ZOMBIE)
  }

  lemma KeptIsQuiet(s: State, t: State, p: int, c: int)
    requires IsProc(s, p) && IsProc(s, c) && MayStep(s, p) && Kept(s, t, p, c)
    requires s.procs[p].at != ForkCheck && s.procs[p].at != ExitZombie && s.procs[p].at != WaitCheck
    ensures PidQuiet(s.procs[c], t.procs[c])
  {
  }

  lemma PidsAdvance(s: State, p: int)
    requires Steps(s, p) && AllPids(s)
    ensures AllPids(Advance(s, p))
  {
    var e := s.procs[p].i;
    if s.procs[p].at == ForkCheck {
      PidsForkCheck(s, p);
    } else if s.procs[p].at == ExitZombie {
      assert StateOk(s.procs[p], p);
      PidsExit(s, GoExit(s, p), p);
    } else if s.procs[p].at == WaitCheck {
      PidsWaitCheck(s, p);
    } else {
      PidsQuiet(s, p);
    }
  }

  lemma PidsForkCheck(s: State, p: int)
    requires Steps(s, p) && AllPids(s) && s.procs[p].at == ForkCheck
    ensures AllPids(GoForkAlloc(s, p))
  {
    var e, t := s.procs[p].i, GoForkAlloc(s, p);
    assert StateOk(s.procs[p], p);
    if s.procs[e].state == UNUSED {
      PidsAlloc(s, t, e);
    } else {
      PidsUnchanged(s, t);
    }
  }

  lemma PidsWaitCheck(s: State, p: int)
    requires Steps(s, p) && AllPids(s) && s.procs[p].at == WaitCheck
    ensures AllPids(GoWait(s, p))
  {
    var e, t := s.procs[p].i, GoWait(s, p);
    assert StateOk(s.procs[p], p);
    if s.procs[e].state == ZOMBIE {
      PidsReap(s, t, e, p);
    } else {
      PidsUnchanged(s, t);
    }
  }

  // ------------------------------------------------------------------ every step

  ghost predicate Inv(s: State) {
    AllLocks(s) && AllStates(s) && AllFamilies(s) && AllWaits(s) && AllPids(s)
  }

  lemma AdvanceKeepsInv(s: State, p: int)
    requires Inv(s) && IsProc(s, p) && Ready(s, p)
    ensures Inv(Advance(s, p))
  {
    LocksAdvance(s, p);
    PidsAdvance(s, p);
    assert ExitOk(s, p);
    LiveKept(s, p, INIT);
    assert StateOk(s.procs[p], p) && MakeOk(s, p) && ParentOk(s, p) && ScanOk(s, p) && ParentWoken(s, p);
    forall q | IsProc(s, q)
      ensures StateOk(Advance(s, p).procs[q], q) && MakeOk(Advance(s, p), q) && ParentOk(Advance(s, p), q)
      ensures ExitOk(Advance(s, p), q) && ScanOk(Advance(s, p), q) && ParentWoken(Advance(s, p), q)
    {
      assert ScanOk(s, q) && ParentWoken(s, q);
      StatesAdvance(s, p, q);
      MakeAdvance(s, p, q);
      ParentAdvance(s, p, q);
      ExitAdvance(s, p, q);
      ScanAdvance(s, p, q);
      WokenAdvance(s, p, q);
    }
    forall w, c | IsProc(s, w) && IsProc(s, c)
      ensures ExitSeen(Advance(s, p), w, c)
    {
      SeenAdvance(s, p, w, c);
    }
  }

  /** A call, or a step of a scheduler: only p's own entry changes. */
  predicate Outside(a: Proc, b: Proc, p: int) {
    && b.parent == a.parent && b.pid == a.pid && b.maker == a.maker && b.r == a.r && b.last == a.last
       && b.haveKids == a.haveKids && b.chan == a.chan
    && (b.at != a.at ==>
         && (a.at == Idle || a.at == Newborn || a.at == Asleep) && !Making(b.at) && !InExit(b.at) && !Scans(b.at)
         && !Waits(b) && b.at != Newborn && (Exiting(b.at) ==> p != INIT))
    && (b.at == a.at ==> b.i == a.i && b.target == a.target && b.state == a.state)
    && (b.state == a.state || (a.state == RUNNABLE && b.state == RUNNING && b.at != a.at))
    && HoldsWait(b.at) == HoldsWait(a.at)
  }

  lemma OutsideKeepsFamilies(s: State, p: int, b: Proc, q: int)
    requires AllStates(s) && AllFamilies(s) && IsProc(s, p) && IsProc(s, q) && Outside(s.procs[p], b, p)
    ensures MakeOk(Put(s, p, b), q) && ParentOk(Put(s, p, b), q) && ExitOk(Put(s, p, b), q)
  {
    assert MakeOk(s, q) && ParentOk(s, q) && ExitOk(s, q) && StateOk(s.procs[p], p);
  }

  lemma OutsideKeepsScan(s: State, p: int, b: Proc, q: int)
    requires AllStates(s) && AllWaits(s) && IsProc(s, p) && IsProc(s, q) && Outside(s.procs[p], b, p)
    ensures ScanOk(Put(s, p, b), q) && ParentWoken(Put(s, p, b), q)
  {
    assert ScanOk(s, q) && ParentWoken(s, q) && StateOk(s.procs[p], p);
  }

  lemma OutsideKeepsSeen(s: State, p: int, b: Proc, q: int, c: int)
    requires IsProc(s, p) && IsProc(s, q) && IsProc(s, c) && Outside(s.procs[p], b, p) && StateOk(s.procs[p], p)
    requires ExitSeen(s, q, c) && (s.waiter == p ==> HoldsWait(s.procs[p].at))
    ensures ExitSeen(Put(s, p, b), q, c)
  {
  }

  lemma OutsideFamilies(s: State, t: State, p: int, b: Proc)
    requires AllStates(s) && AllFamilies(s) && IsProc(s, p) && Outside(s.procs[p], b, p) && t == Put(s, p, b)
    ensures AllFamilies(t)
  {
    forall q | IsProc(t, q)
      ensures MakeOk(t, q) && ParentOk(t, q) && ExitOk(t, q)
    {
      OutsideKeepsFamilies(s, p, b, q);
    }
  }

  lemma OutsideWaits(s: State, t: State, p: int, b: Proc)
    requires AllLocks(s) && AllStates(s) && AllWaits(s) && IsProc(s, p) && Outside(s.procs[p], b, p)
      && t == Put(s, p, b)
    ensures AllWaits(t)
  {
    forall q | IsProc(t, q)
      ensures ScanOk(t, q) && ParentWoken(t, q)
    {
      OutsideKeepsScan(s, p, b, q);
    }
    assert StateOk(s.procs[p], p);
    forall q, c | IsProc(t, q) && IsProc(t, c)
      ensures ExitSeen(t, q, c)
    {
      assert ExitSeen(s, q, c);
      OutsideKeepsSeen(s, p, b, q, c);
    }
  }

  lemma OutsideKeepsInv(s: State, t: State, p: int, b: Proc)
    requires Inv(s) && IsProc(s, p) && Outside(s.procs[p], b, p) && t == Put(s, p, b)
    requires StateOk(b, p) && AllLocks(t)
    ensures Inv(t)
  {
    OutsideFamilies(s, t, p, b);
    OutsideWaits(s, t, p, b);
    OutsidePids(s, t, p, b);
    assert AllStates(t) by {
      forall q | IsProc(t, q)
        ensures StateOk(t.procs[q], q)
      {
        assert q != p ==> StateOk(s.procs[q], q);
      }
    }
  }

  lemma OutsidePids(s: State, t: State, p: int, b: Proc)
    requires AllStates(s) && AllPids(s) && IsProc(s, p) && Outside(s.procs[p], b, p) && t == Put(s, p, b)
    ensures AllPids(t)
  {
    assert StateOk(s.procs[p], p);
    PidsUnchanged(s, t);
  }

  // ------------------------------------------------------------------ failures

  /** What a failure changes: where the process is, and a fork's entry, which is free again. */
  predicate FailKept(p: int, a: Proc, q: int, before: Proc, after: Proc) {
    if q == p then after == before.(at := if a.at == ForkCopy then ForkDrop else WaitUnlock)
    else if a.at == ForkCopy && q == a.i then
      after == Freed(before) && before.at == Newborn && before.state == USED && before.parent == NONE && q != INIT
    else after == before
  }

  ghost predicate FailShape(s: State, t: State, p: int) {
    && IsProc(s, p) && (s.procs[p].at == ForkCopy || s.procs[p].at == WaitCheck)
    && |t.procs| == |s.procs| && t.waiter == s.waiter
    && forall q :: IsProc(s, q) ==> FailKept(p, s.procs[p], q, s.procs[q], t.procs[q])
  }

  lemma FailHasShape(s: State, p: int)
    requires AllStates(s) && AllFamilies(s) && IsProc(s, p) && CanFail(s, p)
    ensures FailShape(s, Failed(s, p), p)
  {
    assert MakeOk(s, p) && StateOk(s.procs[p], p) && StateOk(s.procs[s.procs[p].i], s.procs[p].i);
  }

  lemma FailOne(s: State, t: State, p: int, q: int)
    requires AllStates(s) && AllFamilies(s) && FailShape(s, t, p) && IsProc(s, q)
    ensures StateOk(t.procs[q], q) && MakeOk(t, q)
  {
    assert StateOk(s.procs[q], q) && MakeOk(s, q) && MakeOk(s, p) && StateOk(s.procs[p], p);
    assert FailKept(p, s.procs[p], q, s.procs[q], t.procs[q]);
  }

  lemma FailParent(s: State, t: State, p: int, q: int)
    requires AllStates(s) && AllFamilies(s) && FailShape(s, t, p) && IsProc(s, q)
    ensures ParentOk(t, q)
  {
    var r := s.procs[q].parent;
    assert ParentOk(s, q) && StateOk(s.procs[p], p);
    assert FailKept(p, s.procs[p], q, s.procs[q], t.procs[q]);
    if r != NONE {
      assert FailKept(p, s.procs[p], r, s.procs[r], t.procs[r]);
    }
  }

  lemma FailExit(s: State, t: State, p: int, q: int)
    requires AllFamilies(s) && FailShape(s, t, p) && IsProc(s, q)
    ensures ExitOk(t, q)
  {
    assert ExitOk(s, q);
    assert FailKept(p, s.procs[p], q, s.procs[q], t.procs[q]);
    forall c | IsProc(s, c)
      ensures t.procs[c].parent == s.procs[c].parent
    {
      FailSame(s, t, p, c);
    }
    assert Reparented(t, t.procs[q]) <= Reparented(s, s.procs[q]);
  }

  lemma FailFamilies(s: State, t: State, p: int)
    requires AllStates(s) && AllFamilies(s) && FailShape(s, t, p)
    ensures AllStates(t) && AllFamilies(t)
  {
    assert FailKept(p, s.procs[p], INIT, s.procs[INIT], t.procs[INIT]);
    forall q | IsProc(t, q)
      ensures StateOk(t.procs[q], q) && MakeOk(t, q) && ParentOk(t, q) && ExitOk(t, q)
    {
      FailOne(s, t, p, q);
      FailParent(s, t, p, q);
      FailExit(s, t, p, q);
    }
  }

  lemma FailSame(s: State, t: State, p: int, c: int)
    requires FailShape(s, t, p) && IsProc(s, c)
    ensures t.procs[c].parent == s.procs[c].parent
    ensures t.procs[c].state == ZOMBIE <==> s.procs[c].state == ZOMBIE
    ensures Waits(t.procs[c]) ==> Waits(s.procs[c])
  {
    assert FailKept(p, s.procs[p], c, s.procs[c], t.procs[c]);
  }

  lemma FailScan(s: State, t: State, p: int, q: int)
    requires AllWaits(s) && FailShape(s, t, p) && IsProc(s, q)
    ensures ScanOk(t, q) && ParentWoken(t, q)
  {
    assert ScanOk(s, q) && ParentWoken(s, q) && FailKept(p, s.procs[p], q, s.procs[q], t.procs[q]);
    forall c | IsProc(s, c)
      ensures t.procs[c].parent == s.procs[c].parent && (t.procs[c].state == ZOMBIE <==> s.procs[c].state == ZOMBIE)
    {
      FailSame(s, t, p, c);
    }
    if IsProc(s, s.procs[q].parent) {
      FailSame(s, t, p, s.procs[q].parent);
    }
  }

  lemma FailSeen(s: State, t: State, p: int, w: int, c: int)
    requires AllWaits(s) && FailShape(s, t, p) && IsProc(s, w) && IsProc(s, c)
    ensures ExitSeen(t, w, c)
  {
    assert ExitSeen(s, w, c);
    FailSame(s, t, p, w);
    FailSame(s, t, p, c);
    if IsProc(s, s.waiter) {
      assert FailKept(p, s.procs[p], s.waiter, s.procs[s.waiter], t.procs[s.waiter]);
    }
  }

  lemma FailWaits(s: State, t: State, p: int)
    requires AllWaits(s) && FailShape(s, t, p)
    ensures AllWaits(t)
  {
    forall q | IsProc(t, q)
      ensures ScanOk(t, q) && ParentWoken(t, q)
    {
      FailScan(s, t, p, q);
    }
    forall q, c | IsProc(t, q) && IsProc(t, c)
      ensures ExitSeen(t, q, c)
    {
      FailSeen(s, t, p, q, c);
    }
  }

  lemma FailSameLocks(p: int, a: Proc, q: int, before: Proc, after: Proc)
    requires FailKept(p, a, q, before, after) && (a.at == ForkCopy || a.at == WaitCheck) && (q == p ==> before == a)
    ensures SameLocks(before, after)
  {
  }

  lemma FailLocks(s: State, p: int)
    requires AllLocks(s) && AllStates(s) && AllFamilies(s) && IsProc(s, p) && CanFail(s, p)
    ensures AllLocks(Failed(s, p))
  {
    var t := Failed(s, p);
    FailHasShape(s, p);
    forall q | IsProc(s, q)
      ensures SameLocks(s.procs[q], t.procs[q])
    {
      FailSameLocks(p, s.procs[p], q, s.procs[q], t.procs[q]);
    }
    LocksSame(s, t);
  }

  lemma FailPids(s: State, p: int)
    requires AllStates(s) && AllFamilies(s) && AllPids(s) && IsProc(s, p) && CanFail(s, p)
    ensures AllPids(Failed(s, p))
  {
    assert MakeOk(s, p) && StateOk(s.procs[p], p);
    if s.procs[p].at == ForkCopy {
      PidsDropped(s, Failed(s, p), s.procs[p].i);
    } else {
      PidsUnchanged(s, Failed(s, p));
    }
  }

  lemma FailKeepsInv(s: State, p: int)
    requires Inv(s) && IsProc(s, p) && CanFail(s, p)
    ensures Inv(Failed(s, p))
  {
    FailHasShape(s, p);
    FailLocks(s, p);
    FailPids(s, p);
    FailFamilies(s, Failed(s, p), p);
    FailWaits(s, Failed(s, p), p);
  }

  lemma StepKeepsInv(s: State, step: Step)
    requires Inv(s) && Enabled(s, step)
    ensures Inv(Apply(s, step))
  {
    var p := step.p;
    match step
    case Go(_) => AdvanceKeepsInv(s, p);
    case Fail(_) => FailKeepsInv(s, p);
    case _ => OutsideStep(s, step);
  }

  lemma OutsideStep(s: State, step: Step)
    requires Inv(s) && Enabled(s, step) && !step.Go? && !step.Fail?
    ensures Inv(Apply(s, step))
  {
    var p := step.p;
    assert StateOk(s.procs[p], p) && ExitOk(s, p) && LocksOk(s, p);
    OutsideHasShape(s, step);
    if step.SchedAcquire? || step.SchedRelease? || step.Dispatch? {
      LocksOwn(s, p, Apply(s, step).procs[p], Apply(s, step));
    } else {
      LocksStep(s, p, Apply(s, step).procs[p], Apply(s, step));
    }
    OutsideKeepsInv(s, Apply(s, step), p, Apply(s, step).procs[p]);
  }

  lemma OutsideHasShape(s: State, step: Step)
    requires Enabled(s, step) && !step.Go? && !step.Fail? && StateOk(s.procs[step.p], step.p)
    requires s.procs[step.p].at == Newborn ==> step.p != INIT
    ensures |Apply(s, step).procs| == |s.procs|
    ensures var p, t := step.p, Apply(s, step);
      t == Put(s, p, t.procs[p]) && Outside(s.procs[p], t.procs[p], p) && StateOk(t.procs[p], p)
  {
    var p, t := step.p, Apply(s, step);
    if step.SchedAcquire? || step.SchedRelease? || step.Dispatch? {
      SchedulerIsOutside(s.procs[p], t.procs[p], p);
    } else {
      CallIsOutside(s.procs[p], t.procs[p], p);
    }
  }

  /** A process in user code enters one of the calls. */
  lemma CallIsOutside(a: Proc, b: Proc, p: int)
    requires a.at == Idle && StateOk(a, p)
    requires b == a.(at := ForkNext, i := 0) || b == a.(at := WaitAcquire) || (b == a.(at := ExitAcquire) && p != INIT)
      || b == a.(at := KillNext, i := 0, target := b.target) || b == a.(at := FaultLock)
    ensures Outside(a, b, p) && StateOk(b, p)
  {
  }

  /** A scheduler takes or drops a lock, or runs the process. */
  lemma SchedulerIsOutside(a: Proc, b: Proc, p: int)
    requires StateOk(a, p) && (a.at == Newborn ==> p != INIT)
    requires b == a.(lock := b.lock) || (a.state == RUNNABLE
      && b == a.(at := if a.at == Newborn then FirstRun else SleepTidy, state := RUNNING, lock := p))
    ensures Outside(a, b, p) && StateOk(b, p)
  {
  }

  // ------------------------------------------------------------------ runs

  /** procinit and userinit: initproc runs, every other entry is unused. */
  ghost predicate Initial(s: State) {
    && IsProc(s, INIT) && s.procs[INIT].at == Idle && s.procs[INIT].state == RUNNING && s.procs[INIT].pid == 1
    && s.procs[INIT].parent == NONE && s.procs[INIT].lock == NOBODY
    && (forall c :: IsProc(s, c) && c != INIT ==>
          s.procs[c].at == Newborn && s.procs[c].state == UNUSED && s.procs[c].pid == 0
          && s.procs[c].parent == NONE && s.procs[c].lock == NOBODY)
    && s.waiter == NOBODY && s.nextPid == 2 && s.exited == [] && s.reaped == []
  }

  lemma InitialInv(s: State)
    requires Initial(s)
    ensures Inv(s)
  {
  }

  /** A run of any processes in any order. */
  ghost predicate Runs(s: State, steps: seq<Step>, t: State)
    decreases |steps|
  {
    if steps == [] then s == t
    else Enabled(s, steps[0]) && Runs(Apply(s, steps[0]), steps[1..], t)
  }

  lemma {:induction false} RunKeepsInv(s: State, steps: seq<Step>, t: State)
    requires Inv(s) && Runs(s, steps, t)
    ensures Inv(t)
    decreases |steps|
  {
    if steps != [] {
      StepKeepsInv(s, steps[0]);
      RunKeepsInv(Apply(s, steps[0]), steps[1..], t);
    }
  }

  /**
   No lost exit, in every interleaving: whenever wait_lock is free, no process asleep in wait or
   committed to sleeping has a zombie child, and every zombie has a parent that can still wait.
   */
  lemma NoLostExit(s: State, steps: seq<Step>, t: State)
    requires Initial(s) && Runs(s, steps, t)
    ensures t.waiter == NOBODY ==>
      forall p, c :: IsProc(t, p) && IsProc(t, c) && Waits(t.procs[p]) && t.procs[c].parent == p ==>
        t.procs[c].state != ZOMBIE
    ensures forall c :: IsProc(t, c) && t.procs[c].parent != NONE ==>
      IsProc(t, t.procs[c].parent) && Live(t.procs[t.procs[c].parent])
  {
    InitialInv(s);
    RunKeepsInv(s, steps, t);
    forall p, c | IsProc(t, p) && IsProc(t, c) && Waits(t.procs[p]) && t.procs[c].parent == p && t.waiter == NOBODY
      ensures t.procs[c].state != ZOMBIE
    {
      assert ExitSeen(t, p, c);
    }
    forall c | IsProc(t, c) && t.procs[c].parent != NONE
      ensures IsProc(t, t.procs[c].parent) && Live(t.procs[t.procs[c].parent])
    {
      assert ParentOk(t, c);
    }
  }

  /** Each pid exits at most once and is reaped at most once, and no exit is forgotten. */
  lemma ReapedOnce(s: State, steps: seq<Step>, t: State)
    requires Initial(s) && Runs(s, steps, t)
    ensures forall j, k :: 0 <= j < k < |t.reaped| ==> t.reaped[j].pid != t.reaped[k].pid
    ensures forall k :: 0 <= k < |t.reaped| ==> t.reaped[k].pid in t.exited
    ensures forall k :: 0 <= k < |t.exited| ==> Accounted(t, t.exited[k])
  {
    InitialInv(s);
    RunKeepsInv(s, steps, t);
  }

  /** Only the current parent reaps, and only a zombie that has left its kernel stack for good. */
  lemma ReapedByParent(s: State, step: Step)
    requires Inv(s) && Enabled(s, step) && Apply(s, step).reaped != s.reaped
    ensures step.Go? && IsProc(s, s.procs[step.p].i)
    ensures var p := step.p; var c := s.procs[p].i;
      s.procs[c].parent == p && s.procs[c].state == ZOMBIE && s.procs[c].at == Gone
      && Apply(s, step).reaped == s.reaped + [Reap(s.procs[c].pid, p)]
  {
    var p := step.p;
    assert LocksOk(s, p) && ScanOk(s, p) && StateOk(s.procs[p], p);
    if step.Go? {
      ReapStep(s, p);
      var c := s.procs[p].i;
      assert LocksOk(s, c) && StateOk(s.procs[c], c);
      ZombieGone(s, p);
    }
  }

  lemma ReapStep(s: State, p: int)
    requires IsProc(s, p) && Ready(s, p) && Advance(s, p).reaped != s.reaped
    ensures s.procs[p].at == WaitCheck && IsProc(s, s.procs[p].i) && s.procs[s.procs[p].i].state == ZOMBIE
    ensures Advance(s, p).reaped == s.reaped + [Reap(s.procs[s.procs[p].i].pid, p)]
  {
  }
}
