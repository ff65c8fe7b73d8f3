/**
 sleep, wakeup, kill and the scheduler's hand-off of p->lock (kernel/proc.c) under the named
 semaphores (kernel/semaphore.c) and the sleep-locks (kernel/sleeplock.c), as a state machine.

 A step is one acquire, one release or one change of shared state by one thread of control. Any
 number of processes and of semaphores run in any order; any number of CPUs runs schedulers.
 */
module SleepWakeup {
  import opened Params

  const CLOSED := -1
  const NOBODY := -1
  /** The holder of a p->lock that some CPU's scheduler holds. */
  const SCHED := -2
  const NO_CHAN := -1

  datatype RunState = RUNNING | RUNNABLE | SLEEPING

  /** Where a process is in the kernel: each label names what it does next. */
  datatype Label =
    | Idle
    | DownAcquire | DownTest | DownLoop | DownRelease
    | SleepAcquire | SleepRelease | SleepChan | SleepState | SleepSched | Asleep
    | SleepTidy | SleepUnlock | SleepReacquire
    | UpAcquire | UpTest | WakeNext | WakeCheck | WakeRelease | UpRelease
    | OpenAcquire | OpenTest | OpenRelease
    | CloseAcquire | CloseTest | CloseRelease
    | KillNext | KillCheck | KillRelease

  /**
   `sem` and `arg` are the arguments of the call in progress, `i` the table index of a scan, `ok`
   the result of the last call. `lock` is who holds p->lock.
   */
  datatype Proc = Proc(at: Label, sem: int, arg: int, i: int, ok: bool,
                       state: RunState, chan: int, killed: bool, lock: int)

  /**
   A sleep-lock is a binary semaphore whose value is 1 - locked. `downs` counts the units taken
   and `ups` the units given since the semaphore was opened; releasing a free sleep-lock gives none.
   */
  datatype Sem = Sem(binary: bool, value: int, holder: int, initial: int, ups: int, downs: int)

  datatype State = State(procs: seq<Proc>, sems: seq<Sem>)

  datatype Step =
    | Down(p: int, x: int)
    | Up(p: int, x: int)
    | Open(p: int, x: int, value: int)
    | Close(p: int, x: int)
    | Kill(p: int, target: int)
    | Go(p: int)
    | SchedAcquire(p: int)
    | SchedRelease(p: int)
    | Dispatch(p: int)

  predicate IsProc(s: State, p: int) {
    0 <= p < |s.procs|
  }

  predicate IsSem(s: State, x: int) {
    0 <= x < |s.sems|
  }

  function Put(s: State, p: int, q: Proc): State
    requires IsProc(s, p)
  {
    s.(procs := s.procs[p := q])
  }

  function PutSem(s: State, p: int, q: Proc, x: int, m: Sem): State
    requires IsProc(s, p) && IsSem(s, x)
  {
    State(s.procs[p := q], s.sems[x := m])
  }

  // ------------------------------------------------------------------ the code

  /** Where a waiting acquire may proceed; every other label is always ready. */
  predicate Ready(s: State, p: int)
    requires IsProc(s, p)
  {
    var a := s.procs[p];
    match a.at
    case Idle => false
    case Asleep => false
    case DownAcquire => IsSem(s, a.sem) && s.sems[a.sem].holder == NOBODY
    case SleepReacquire => IsSem(s, a.sem) && s.sems[a.sem].holder == NOBODY
    case UpAcquire => IsSem(s, a.sem) && s.sems[a.sem].holder == NOBODY
    case OpenAcquire => IsSem(s, a.sem) && s.sems[a.sem].holder == NOBODY
    case CloseAcquire => IsSem(s, a.sem) && s.sems[a.sem].holder == NOBODY
    case SleepAcquire => a.lock == NOBODY
    case WakeNext => IsProc(s, a.i) && a.i != p ==> s.procs[a.i].lock == NOBODY
    case KillNext => IsProc(s, a.i) ==> s.procs[a.i].lock == NOBODY
    case WakeCheck => IsProc(s, a.i) && a.i != p
    case WakeRelease => IsProc(s, a.i) && a.i != p
    case KillCheck => IsProc(s, a.i)
    case KillRelease => IsProc(s, a.i)
    case _ => IsSem(s, a.sem)
  }

  /** acquire(&semaphore[sem].lock). */
  function AcquireSem(s: State, p: int, next: Label): State
    requires IsProc(s, p) && IsSem(s, s.procs[p].sem)
  {
    var x := s.procs[p].sem;
    PutSem(s, p, s.procs[p].(at := next), x, s.sems[x].(holder := p))
  }

  /** release(&semaphore[sem].lock). */
  function ReleaseSem(s: State, p: int, next: Label): State
    requires IsProc(s, p) && IsSem(s, s.procs[p].sem)
  {
    var x := s.procs[p].sem;
    PutSem(s, p, s.procs[p].(at := next), x, s.sems[x].(holder := NOBODY))
  }

  function SetOwn(s: State, p: int, q: Proc): State
    requires IsProc(s, p)
  {
    Put(s, p, q)
  }

  /** Process p's scan takes, changes or gives back the entry of process p.i and moves on. */
  function SetOther(s: State, p: int, q: Proc, next: Label, i: int): State
    requires IsProc(s, p) && IsProc(s, s.procs[p].i)
  {
    var t := Put(s, s.procs[p].i, q);
    Put(t, p, t.procs[p].(at := next, i := i))
  }

  function GoDown(s: State, p: int): State
    requires IsProc(s, p) && Ready(s, p)
  {
    var a := s.procs[p];
    match a.at
    case DownAcquire => AcquireSem(s, p, DownTest)
    case DownTest =>
      if s.sems[a.sem].value == CLOSED then SetOwn(s, p, a.(at := DownRelease, ok := false))
      else SetOwn(s, p, a.(at := DownLoop))
    case DownLoop =>
      var m := s.sems[a.sem];
      if m.value == 0 then SetOwn(s, p, a.(at := SleepAcquire))
      else PutSem(s, p, a.(at := DownRelease, ok := true), a.sem, m.(value := m.value - 1, downs := m.downs + 1))
    case DownRelease => ReleaseSem(s, p, Idle)
    case _ => s
  }

  function GoSleep(s: State, p: int): State
    requires IsProc(s, p) && Ready(s, p)
  {
    var a := s.procs[p];
    match a.at
    case SleepAcquire => SetOwn(s, p, a.(at := SleepRelease, lock := p))
    case SleepRelease => ReleaseSem(s, p, SleepChan)
    case SleepChan => SetOwn(s, p, a.(at := SleepState, chan := a.sem))
    case SleepState => SetOwn(s, p, a.(at := SleepSched, state := SLEEPING))
    case SleepSched => SetOwn(s, p, a.(at := Asleep, lock := SCHED))
    case SleepTidy => SetOwn(s, p, a.(at := SleepUnlock, chan := NO_CHAN))
    case SleepUnlock => SetOwn(s, p, a.(at := SleepReacquire, lock := NOBODY))
    case SleepReacquire => AcquireSem(s, p, DownLoop)
    case _ => s
  }

  function GoUp(s: State, p: int): State
    requires IsProc(s, p) && Ready(s, p)
  {
    var a := s.procs[p];
    match a.at
    case UpAcquire => AcquireSem(s, p, UpTest)
    case UpTest =>
      var m := s.sems[a.sem];
      if m.binary then
        PutSem(s, p, a.(at := WakeNext, i := 0, ok := true), a.sem, m.(value := 1, ups := m.ups + 1 - m.value))
      else if m.value == CLOSED || m.value == INT_MAX then
        SetOwn(s, p, a.(at := UpRelease, ok := false))
      else
        PutSem(s, p, a.(at := WakeNext, i := 0, ok := true), a.sem, m.(value := m.value + 1, ups := m.ups + 1))
    case UpRelease => ReleaseSem(s, p, Idle)
    case _ => s
  }

  function GoWake(s: State, p: int): State
    requires IsProc(s, p) && Ready(s, p)
  {
    var a := s.procs[p];
    match a.at
    case WakeNext =>
      if !IsProc(s, a.i) then SetOwn(s, p, a.(at := UpRelease))
      else if a.i == p then SetOwn(s, p, a.(i := a.i + 1))
      else SetOther(s, p, s.procs[a.i].(lock := p), WakeCheck, a.i)
    case WakeCheck =>
      var q := s.procs[a.i];
      if q.state == SLEEPING && q.chan == a.sem then SetOther(s, p, q.(state := RUNNABLE), WakeRelease, a.i)
      else SetOwn(s, p, a.(at := WakeRelease))
    case WakeRelease => SetOther(s, p, s.procs[a.i].(lock := NOBODY), WakeNext, a.i + 1)
    case _ => s
  }

  function GoOpen(s: State, p: int): State
    requires IsProc(s, p) && Ready(s, p)
  {
    var a := s.procs[p];
    match a.at
    case OpenAcquire => AcquireSem(s, p, OpenTest)
    case OpenTest =>
      var m := s.sems[a.sem];
      if m.value != CLOSED then SetOwn(s, p, a.(at := OpenRelease, ok := false))
      else PutSem(s, p, a.(at := OpenRelease, ok := true), a.sem,
                  m.(value := a.arg, initial := a.arg, ups := 0, downs := 0))
    case OpenRelease => ReleaseSem(s, p, Idle)
    case _ => s
  }

  function GoClose(s: State, p: int): State
    requires IsProc(s, p) && Ready(s, p)
  {
    var a := s.procs[p];
    match a.at
    case CloseAcquire => AcquireSem(s, p, CloseTest)
    case CloseTest =>
      var m := s.sems[a.sem];
      if m.value == CLOSED then SetOwn(s, p, a.(at := CloseRelease, ok := false))
      else PutSem(s, p, a.(at := CloseRelease, ok := true), a.sem, m.(value := CLOSED))
    case CloseRelease => ReleaseSem(s, p, Idle)
    case _ => s
  }

  function GoKill(s: State, p: int): State
    requires IsProc(s, p) && Ready(s, p)
  {
    var a := s.procs[p];
    match a.at
    case KillNext =>
      if !IsProc(s, a.i) then SetOwn(s, p, a.(at := Idle))
      else SetOther(s, p, s.procs[a.i].(lock := p), KillCheck, a.i)
    case KillCheck =>
      if a.i == a.arg then
        var q := s.procs[a.i];
        SetOther(s, p, q.(killed := true, state := if q.state == SLEEPING then RUNNABLE else q.state), KillRelease, a.i)
      else
        SetOwn(s, p, a.(at := KillRelease))
    case KillRelease =>
      if a.i == a.arg then SetOther(s, p, s.procs[a.i].(lock := NOBODY), Idle, a.i)
      else SetOther(s, p, s.procs[a.i].(lock := NOBODY), KillNext, a.i + 1)
    case _ => s
  }

  /** The next step of process p. */
  function Advance(s: State, p: int): (t: State)
    requires IsProc(s, p) && Ready(s, p)
    ensures |t.procs| == |s.procs| && |t.sems| == |s.sems|
  {
    match s.procs[p].at
    case DownAcquire | DownTest | DownLoop | DownRelease => GoDown(s, p)
    case UpAcquire | UpTest | UpRelease => GoUp(s, p)
    case WakeNext | WakeCheck | WakeRelease => GoWake(s, p)
    case KillNext | KillCheck | KillRelease => GoKill(s, p)
    case OpenAcquire | OpenTest | OpenRelease => GoOpen(s, p)
    case CloseAcquire | CloseTest | CloseRelease => GoClose(s, p)
    case SleepAcquire | SleepRelease | SleepChan | SleepState | SleepSched => GoSleep(s, p)
    case SleepTidy | SleepUnlock | SleepReacquire => GoSleep(s, p)
    case Idle | Asleep => s
  }

  predicate Enabled(s: State, step: Step) {
    && IsProc(s, step.p)
    && var a := s.procs[step.p];
       match step
       case Go(p) => Ready(s, p)
       case SchedAcquire(p) => a.lock == NOBODY
       case SchedRelease(p) => a.lock == SCHED
       case Dispatch(p) => a.lock == SCHED && a.at == Asleep && a.state == RUNNABLE
       case Open(p, x, v) => a.at == Idle && v <= INT_MAX && (IsSem(s, x) ==> !s.sems[x].binary)
       case Close(p, x) => a.at == Idle && (IsSem(s, x) ==> !s.sems[x].binary)
       case _ => a.at == Idle
  }

  /** A call that names no semaphore fails at once. */
  function Call(s: State, p: int, first: Label, x: int, arg: int): State
    requires IsProc(s, p)
  {
    if IsSem(s, x) then SetOwn(s, p, s.procs[p].(at := first, sem := x, arg := arg))
    else SetOwn(s, p, s.procs[p].(ok := false))
  }

  function Apply(s: State, step: Step): State
    requires Enabled(s, step)
  {
    var a := s.procs[step.p];
    match step
    case Down(p, x) => Call(s, p, DownAcquire, x, 0)
    case Up(p, x) => Call(s, p, UpAcquire, x, 0)
    case Open(p, x, v) => Call(s, p, OpenAcquire, if v < 0 then NOBODY else x, v)
    case Close(p, x) => Call(s, p, CloseAcquire, x, 0)
    case Kill(p, target) => SetOwn(s, p, a.(at := KillNext, i := 0, arg := target))
    case Go(p) => Advance(s, p)
    case SchedAcquire(p) => SetOwn(s, p, a.(lock := SCHED))
    case SchedRelease(p) => SetOwn(s, p, a.(lock := NOBODY))
    case Dispatch(p) => SetOwn(s, p, a.(at := SleepTidy, state := RUNNING, lock := p))
  }

  // ------------------------------------------------------------------ the invariant

  /** Between acquire and release of the semaphore's lock. */
  predicate HoldsSem(at: Label) {
    match at
    case DownTest | DownLoop | DownRelease | SleepAcquire | SleepRelease => true
    case UpTest | WakeNext | WakeCheck | WakeRelease | UpRelease => true
    case OpenTest | OpenRelease | CloseTest | CloseRelease => true
    case _ => false
  }

  /** Between acquire and release of its own p->lock, across the two swtches. */
  predicate HoldsOwn(at: Label) {
    at == SleepRelease || at == SleepChan || at == SleepState || at == SleepSched || at == SleepTidy
      || at == SleepUnlock
  }

  /** Between acquire and release of the p->lock its scan has reached. */
  predicate HoldsOther(at: Label) {
    at == WakeCheck || at == WakeRelease || at == KillCheck || at == KillRelease
  }

  /** Inside sem_down's loop: it has found the semaphore open and has not yet taken a unit. */
  predicate InLoop(at: Label) {
    match at
    case DownLoop | SleepAcquire | SleepRelease | SleepChan | SleepState | SleepSched | Asleep => true
    case SleepTidy | SleepUnlock | SleepReacquire => true
    case _ => false
  }

  /** A process asleep, or committed to sleeping, that nobody has made runnable. */
  predicate Waits(a: Proc) {
    a.at == SleepChan || a.at == SleepState || a.at == SleepSched || (a.at == Asleep && a.state == SLEEPING)
  }

  /** The scan of a waker that has yet to look at process q. */
  predicate WillReach(a: Proc, q: int) {
    (a.at == WakeNext && a.i <= q) || (a.at == WakeCheck && a.i <= q) || (a.at == WakeRelease && a.i < q)
  }

  predicate UsesSem(at: Label) {
    at != Idle && at != KillNext && at != KillCheck && at != KillRelease
  }

  /** Process h, which is a, holds the p->lock of process p. */
  predicate LockedBy(a: Proc, h: int, p: int) {
    (h == p && HoldsOwn(a.at)) || (HoldsOther(a.at) && a.i == p)
  }

  /** Locks are held exactly by the processes whose place in the code says so. */
  ghost predicate LocksOk(s: State, p: int)
    requires IsProc(s, p)
  {
    var a := s.procs[p];
    && (UsesSem(a.at) ==> IsSem(s, a.sem))
    && (HoldsSem(a.at) ==> IsSem(s, a.sem) && s.sems[a.sem].holder == p)
    && (HoldsOwn(a.at) ==> a.lock == p)
    && (HoldsOther(a.at) ==>
         IsProc(s, a.i) && s.procs[a.i].lock == p && (a.at == WakeCheck || a.at == WakeRelease ==> a.i != p))
    && (a.at == WakeNext || a.at == KillNext ==> 0 <= a.i <= |s.procs|)
    && (0 <= a.lock ==> IsProc(s, a.lock) && LockedBy(s.procs[a.lock], a.lock, p))
    && (a.lock < 0 ==> a.lock == NOBODY || a.lock == SCHED)
  }

  ghost predicate HolderOk(s: State, x: int)
    requires IsSem(s, x)
  {
    var h := s.sems[x].holder;
    h != NOBODY ==> IsProc(s, h) && HoldsSem(s.procs[h].at) && s.procs[h].sem == x
  }

  /** state and chan are what the process's place in sleep says. */
  predicate SleepOk(a: Proc) {
    && (a.at == SleepSched || a.at == Asleep || a.state == RUNNING)
    && (a.at == SleepSched ==> a.state == SLEEPING)
    && (a.at == Asleep ==> a.state == SLEEPING || a.state == RUNNABLE)
    && (a.at == SleepState || a.at == SleepSched || a.at == Asleep ==> a.chan == a.sem)
  }

  /** value is within range, and while open it is initial + ups - downs. */
  predicate ValueOk(m: Sem) {
    && (if m.binary then m.value == 0 || m.value == 1 else CLOSED <= m.value <= INT_MAX)
    && (m.value != CLOSED ==> m.value == m.initial + m.ups - m.downs)
  }

  /** What sem_down relies on while it loops, and what its result rests on. */
  ghost predicate LoopOk(s: State, p: int)
    requires IsProc(s, p)
  {
    var a := s.procs[p];
    && (InLoop(a.at) && IsSem(s, a.sem) ==> s.sems[a.sem].value != CLOSED)
    && ((a.at == SleepAcquire || a.at == SleepRelease) && IsSem(s, a.sem) ==> s.sems[a.sem].value == 0)
    && ((a.at == OpenTest || a.at == OpenAcquire) ==> 0 <= a.arg <= INT_MAX)
    && (a.at == OpenAcquire || a.at == OpenTest || a.at == CloseAcquire || a.at == CloseTest ==>
          IsSem(s, a.sem) && !s.sems[a.sem].binary)
  }

  /** No lost wakeup: a waiting process has nothing to take, or a waker is still to reach it. */
  ghost predicate WakeOk(s: State, q: int)
    requires IsProc(s, q)
  {
    var a := s.procs[q];
    Waits(a) && IsSem(s, a.sem) && s.sems[a.sem].value != 0 ==>
      var h := s.sems[a.sem].holder; IsProc(s, h) && h != q && WillReach(s.procs[h], q)
  }

  ghost predicate AllLocks(s: State) {
    && (forall p {:trigger LocksOk(s, p)} :: IsProc(s, p) ==> LocksOk(s, p))
    && (forall x {:trigger HolderOk(s, x)} :: IsSem(s, x) ==> HolderOk(s, x))
  }

  ghost predicate AllSleep(s: State) {
    forall p {:trigger SleepOk(s.procs[p])} :: IsProc(s, p) ==> SleepOk(s.procs[p])
  }

  ghost predicate AllLoops(s: State) {
    forall p {:trigger LoopOk(s, p)} :: IsProc(s, p) ==> LoopOk(s, p)
  }

  ghost predicate AllWakes(s: State) {
    forall p {:trigger WakeOk(s, p)} :: IsProc(s, p) ==> WakeOk(s, p)
  }

  ghost predicate AllValues(s: State) {
    forall x {:trigger ValueOk(s.sems[x])} :: IsSem(s, x) ==> ValueOk(s.sems[x])
  }

  ghost predicate Inv(s: State) {
    AllLocks(s) && AllSleep(s) && AllLoops(s) && AllWakes(s) && AllValues(s)
  }

  /** The one thing a caller of sem_close must see to: nobody is inside sem_down's loop on it. */
  ghost predicate Clean(s: State, step: Step)
    requires Enabled(s, step)
  {
    step.Go? && s.procs[step.p].at == CloseTest && s.sems[s.procs[step.p].sem].value != CLOSED ==>
      forall q :: IsProc(s, q) && InLoop(s.procs[q].at) ==> s.procs[q].sem != s.procs[step.p].sem
  }

  /** Both hold the same locks. */
  predicate SameLocks(a: Proc, b: Proc) {
    && HoldsSem(a.at) == HoldsSem(b.at) && (HoldsSem(a.at) ==> a.sem == b.sem)
    && HoldsOwn(a.at) == HoldsOwn(b.at)
    && HoldsOther(a.at) == HoldsOther(b.at) && (HoldsOther(a.at) ==> a.i == b.i)
    && a.lock == b.lock
  }

  /** The parts of LocksOk that are about the process alone. */
  predicate ArgsOk(s: State, p: int, a: Proc) {
    && (UsesSem(a.at) ==> IsSem(s, a.sem))
    && (a.at == WakeCheck || a.at == WakeRelease ==> a.i != p)
    && (a.at == WakeNext || a.at == KillNext ==> 0 <= a.i <= |s.procs|)
  }

  lemma LocksSame(s: State, p: int, b: Proc, t: State)
    requires AllLocks(s) && IsProc(s, p) && SameLocks(s.procs[p], b) && ArgsOk(s, p, b)
    requires t.procs == s.procs[p := b] && |t.sems| == |s.sems|
    requires forall x :: IsSem(s, x) ==> t.sems[x].holder == s.sems[x].holder
    ensures AllLocks(t)
  {
    assert LocksOk(s, p);
    forall q | IsProc(t, q)
      ensures LocksOk(t, q)
    {
      assert LocksOk(s, q);
    }
    forall x | IsSem(t, x)
      ensures HolderOk(t, x)
    {
      assert HolderOk(s, x);
    }
  }

  lemma LocksAcquire(s: State, p: int, next: Label)
    requires AllLocks(s) && IsProc(s, p) && UsesSem(s.procs[p].at) && IsSem(s, s.procs[p].sem)
    requires s.sems[s.procs[p].sem].holder == NOBODY && HoldsSem(next) && !HoldsSem(s.procs[p].at)
    requires !HoldsOwn(s.procs[p].at) && !HoldsOther(s.procs[p].at)
    requires !HoldsOwn(next) && !HoldsOther(next) && next != WakeNext
    ensures AllLocks(AcquireSem(s, p, next))
  {
    var t := AcquireSem(s, p, next);
    assert LocksOk(s, p);
    forall q | IsProc(t, q)
      ensures LocksOk(t, q)
    {
      assert LocksOk(s, q);
    }
    forall x | IsSem(t, x)
      ensures HolderOk(t, x)
    {
      assert HolderOk(s, x);
    }
  }

  lemma LocksRelease(s: State, p: int, next: Label)
    requires AllLocks(s) && IsProc(s, p) && HoldsSem(s.procs[p].at) && IsSem(s, s.procs[p].sem)
    requires !HoldsOther(s.procs[p].at) && HoldsOwn(next) == HoldsOwn(s.procs[p].at)
    requires !HoldsSem(next) && !HoldsOther(next) && next != KillNext && next != WakeNext
    ensures AllLocks(ReleaseSem(s, p, next))
  {
    var t := ReleaseSem(s, p, next);
    assert LocksOk(s, p);
    forall q | IsProc(t, q)
      ensures LocksOk(t, q)
    {
      assert LocksOk(s, q);
    }
    forall x | IsSem(t, x)
      ensures HolderOk(t, x)
    {
      assert HolderOk(s, x);
    }
  }

  /** p->lock changes hands between p itself, its scheduler and nobody. */
  lemma LocksOwn(s: State, p: int, b: Proc)
    requires AllLocks(s) && IsProc(s, p) && ArgsOk(s, p, b)
    requires HoldsSem(s.procs[p].at) == HoldsSem(b.at) && (HoldsSem(b.at) ==> b.sem == s.procs[p].sem)
    requires !HoldsOther(s.procs[p].at) || s.procs[p].at == b.at
    requires HoldsOther(b.at) ==> s.procs[p].at == b.at
    requires b.i == s.procs[p].i
    requires s.procs[p].lock < 0 || (s.procs[p].lock == p && HoldsOwn(s.procs[p].at))
    requires b.lock == NOBODY || b.lock == SCHED || (b.lock == p && HoldsOwn(b.at))
    requires HoldsOwn(b.at) ==> b.lock == p
    ensures AllLocks(Put(s, p, b))
  {
    var t := Put(s, p, b);
    assert LocksOk(s, p);
    forall q | IsProc(t, q)
      ensures LocksOk(t, q)
    {
      assert LocksOk(s, q);
    }
    forall x | IsSem(t, x)
      ensures HolderOk(t, x)
    {
      assert HolderOk(s, x);
    }
  }

  /** A scan takes the p->lock of its next process, changes that process, or gives the lock back. */
  predicate ScanStep(s: State, p: int, q: Proc, next: Label, i: int) {
    && IsProc(s, p) && IsProc(s, s.procs[p].i)
    && (var o := s.procs[s.procs[p].i];
        && q == o.(lock := q.lock, state := q.state, killed := q.killed)
        && (if HoldsOther(s.procs[p].at) then o.lock == p else o.lock == NOBODY))
    && q.lock == (if HoldsOther(next) then p else NOBODY)
    && !HoldsOwn(s.procs[p].at) && !HoldsOwn(next) && HoldsSem(next) == HoldsSem(s.procs[p].at)
    && UsesSem(next) == UsesSem(s.procs[p].at)
    && (HoldsOther(next) ==> i == s.procs[p].i)
    && ArgsOk(s, p, s.procs[p].(at := next, i := i))
  }

  lemma ScanSelf(s: State, p: int, q: Proc, next: Label, i: int)
    requires ScanStep(s, p, q, next, i) && LocksOk(s, p) && LocksOk(s, s.procs[p].i)
    ensures LocksOk(SetOther(s, p, q, next, i), p) && LocksOk(SetOther(s, p, q, next, i), s.procs[p].i)
  {
  }

  lemma ScanOne(s: State, p: int, q: Proc, next: Label, i: int, r: int)
    requires ScanStep(s, p, q, next, i) && IsProc(s, r) && r != p && r != s.procs[p].i
    requires LocksOk(s, p) && LocksOk(s, s.procs[p].i) && LocksOk(s, r)
    ensures LocksOk(SetOther(s, p, q, next, i), r)
  {
  }

  lemma ScanHolder(s: State, p: int, q: Proc, next: Label, i: int, x: int)
    requires ScanStep(s, p, q, next, i) && IsSem(s, x) && HolderOk(s, x) && LocksOk(s, p)
    ensures HolderOk(SetOther(s, p, q, next, i), x)
  {
  }

  lemma LocksScan(s: State, p: int, q: Proc, next: Label, i: int, t: State)
    requires AllLocks(s) && ScanStep(s, p, q, next, i) && t == SetOther(s, p, q, next, i)
    ensures AllLocks(t)
  {
    assert LocksOk(s, p) && LocksOk(s, s.procs[p].i);
    ScanSelf(s, p, q, next, i);
    forall r | IsProc(t, r) && r != p && r != s.procs[p].i
      ensures LocksOk(t, r)
    {
      assert LocksOk(s, r);
      ScanOne(s, p, q, next, i, r);
    }
    forall x | IsSem(t, x)
      ensures HolderOk(t, x)
    {
      assert HolderOk(s, x);
      ScanHolder(s, p, q, next, i, x);
    }
  }

  lemma LocksGoDown(s: State, p: int)
    requires AllLocks(s) && IsProc(s, p) && Ready(s, p)
    ensures AllLocks(GoDown(s, p))
  {
    var t := GoDown(s, p);
    assert LocksOk(s, p);
    match s.procs[p].at
    case DownAcquire => LocksAcquire(s, p, DownTest);
    case DownTest => LocksSame(s, p, t.procs[p], t);
    case DownLoop => LocksSame(s, p, t.procs[p], t);
    case DownRelease => LocksRelease(s, p, Idle);
    case _ =>
  }

  lemma LocksGoSleep(s: State, p: int)
    requires AllLocks(s) && IsProc(s, p) && Ready(s, p)
    ensures AllLocks(GoSleep(s, p))
  {
    var t := GoSleep(s, p);
    assert LocksOk(s, p);
    match s.procs[p].at
    case SleepAcquire => LocksOwn(s, p, t.procs[p]);
    case SleepRelease => LocksRelease(s, p, SleepChan);
    case SleepChan => LocksSame(s, p, t.procs[p], t);
    case SleepState => LocksSame(s, p, t.procs[p], t);
    case SleepSched => LocksOwn(s, p, t.procs[p]);
    case SleepTidy => LocksSame(s, p, t.procs[p], t);
    case SleepUnlock => LocksOwn(s, p, t.procs[p]);
    case SleepReacquire => LocksAcquire(s, p, DownLoop);
    case _ =>
  }

  lemma LocksGoUp(s: State, p: int)
    requires AllLocks(s) && IsProc(s, p) && Ready(s, p)
    ensures AllLocks(GoUp(s, p))
  {
    var t := GoUp(s, p);
    assert LocksOk(s, p);
    match s.procs[p].at
    case UpAcquire => LocksAcquire(s, p, UpTest);
    case UpTest => LocksSame(s, p, t.procs[p], t);
    case UpRelease => LocksRelease(s, p, Idle);
    case _ =>
  }

  lemma GiveIsScan(s: State, p: int, next: Label, i: int)
    requires IsProc(s, p) && LocksOk(s, p) && HoldsOther(s.procs[p].at) && (i == s.procs[p].i || i == s.procs[p].i + 1)
    requires next == WakeNext || next == KillNext || next == Idle
    requires HoldsSem(next) == HoldsSem(s.procs[p].at)
    ensures ScanStep(s, p, s.procs[s.procs[p].i].(lock := NOBODY), next, i)
  {
  }

  lemma LocksGive(s: State, p: int, next: Label, i: int, t: State)
    requires AllLocks(s) && IsProc(s, p) && LocksOk(s, p) && HoldsOther(s.procs[p].at)
    requires i == s.procs[p].i || i == s.procs[p].i + 1
    requires next == WakeNext || next == KillNext || next == Idle
    requires HoldsSem(next) == HoldsSem(s.procs[p].at)
    requires t == SetOther(s, p, s.procs[s.procs[p].i].(lock := NOBODY), next, i)
    ensures AllLocks(t)
  {
    GiveIsScan(s, p, next, i);
    LocksScan(s, p, s.procs[s.procs[p].i].(lock := NOBODY), next, i, t);
  }

  lemma LocksWakeNext(s: State, p: int)
    requires AllLocks(s) && IsProc(s, p) && Ready(s, p) && s.procs[p].at == WakeNext
    ensures AllLocks(GoWake(s, p))
  {
    var i, t := s.procs[p].i, GoWake(s, p);
    assert LocksOk(s, p);
    if !IsProc(s, i) || i == p {
      LocksSame(s, p, t.procs[p], t);
    } else {
      LocksScan(s, p, s.procs[i].(lock := p), WakeCheck, i, GoWake(s, p));
    }
  }

  lemma LocksWakeCheck(s: State, p: int)
    requires AllLocks(s) && IsProc(s, p) && Ready(s, p) && s.procs[p].at == WakeCheck
    ensures AllLocks(GoWake(s, p))
  {
    var i, t := s.procs[p].i, GoWake(s, p);
    var q := s.procs[i];
    assert LocksOk(s, p);
    if q.state == SLEEPING && q.chan == s.procs[p].sem {
      LocksScan(s, p, q.(state := RUNNABLE), WakeRelease, i, GoWake(s, p));
    } else {
      LocksSame(s, p, t.procs[p], t);
    }
  }

  lemma LocksWakeRelease(s: State, p: int)
    requires AllLocks(s) && IsProc(s, p) && Ready(s, p) && s.procs[p].at == WakeRelease
    ensures AllLocks(GoWake(s, p))
  {
    assert LocksOk(s, p);
    LocksGive(s, p, WakeNext, s.procs[p].i + 1, GoWake(s, p));
  }

  lemma LocksGoOpen(s: State, p: int)
    requires AllLocks(s) && IsProc(s, p) && Ready(s, p)
    ensures AllLocks(GoOpen(s, p))
  {
    var t := GoOpen(s, p);
    assert LocksOk(s, p);
    match s.procs[p].at
    case OpenAcquire => LocksAcquire(s, p, OpenTest);
    case OpenTest => LocksSame(s, p, t.procs[p], t);
    case OpenRelease => LocksRelease(s, p, Idle);
    case _ =>
  }

  lemma LocksGoClose(s: State, p: int)
    requires AllLocks(s) && IsProc(s, p) && Ready(s, p)
    ensures AllLocks(GoClose(s, p))
  {
    var t := GoClose(s, p);
    assert LocksOk(s, p);
    match s.procs[p].at
    case CloseAcquire => LocksAcquire(s, p, CloseTest);
    case CloseTest => LocksSame(s, p, t.procs[p], t);
    case CloseRelease => LocksRelease(s, p, Idle);
    case _ =>
  }

  lemma LocksKillNext(s: State, p: int)
    requires AllLocks(s) && IsProc(s, p) && Ready(s, p) && s.procs[p].at == KillNext
    ensures AllLocks(GoKill(s, p))
  {
    var i, t := s.procs[p].i, GoKill(s, p);
    assert LocksOk(s, p);
    if !IsProc(s, i) {
      LocksSame(s, p, t.procs[p], t);
    } else {
      LocksScan(s, p, s.procs[i].(lock := p), KillCheck, i, GoKill(s, p));
    }
  }

  lemma LocksKillCheck(s: State, p: int)
    requires AllLocks(s) && IsProc(s, p) && Ready(s, p) && s.procs[p].at == KillCheck
    ensures AllLocks(GoKill(s, p))
  {
    var i, t := s.procs[p].i, GoKill(s, p);
    assert LocksOk(s, p);
    if i == s.procs[p].arg {
      LocksScan(s, p, t.procs[i].(at := s.procs[i].at), KillRelease, i, GoKill(s, p));
    } else {
      LocksSame(s, p, t.procs[p], t);
    }
  }

  lemma LocksKillRelease(s: State, p: int)
    requires AllLocks(s) && IsProc(s, p) && Ready(s, p) && s.procs[p].at == KillRelease
    ensures AllLocks(GoKill(s, p))
  {
    assert LocksOk(s, p);
    if s.procs[p].i == s.procs[p].arg {
      LocksGive(s, p, Idle, s.procs[p].i, GoKill(s, p));
    } else {
      LocksGive(s, p, KillNext, s.procs[p].i + 1, GoKill(s, p));
    }
  }

  lemma LocksAdvance(s: State, p: int)
    requires AllLocks(s) && IsProc(s, p) && Ready(s, p)
    ensures AllLocks(Advance(s, p))
  {
    match s.procs[p].at
    case DownAcquire | DownTest | DownLoop | DownRelease => LocksGoDown(s, p);
    case UpAcquire | UpTest | UpRelease => LocksGoUp(s, p);
    case WakeNext => LocksWakeNext(s, p);
    case WakeCheck => LocksWakeCheck(s, p);
    case WakeRelease => LocksWakeRelease(s, p);
    case KillNext => LocksKillNext(s, p);
    case KillCheck => LocksKillCheck(s, p);
    case KillRelease => LocksKillRelease(s, p);
    case OpenAcquire | OpenTest | OpenRelease => LocksGoOpen(s, p);
    case CloseAcquire | CloseTest | CloseRelease => LocksGoClose(s, p);
    case _ => LocksGoSleep(s, p);
  }

  lemma LocksKept(s: State, step: Step)
    requires AllLocks(s) && Enabled(s, step)
    ensures AllLocks(Apply(s, step))
  {
    var p, t := step.p, Apply(s, step);
    assert LocksOk(s, p);
    match step
    case Go(_) => LocksAdvance(s, p);
    case SchedAcquire(_) => LocksSched(s, step);
    case SchedRelease(_) => LocksSched(s, step);
    case Dispatch(_) => LocksSched(s, step);
    case _ => LocksSame(s, p, t.procs[p], t);
  }

  lemma LocksSched(s: State, step: Step)
    requires AllLocks(s) && Enabled(s, step) && (step.SchedAcquire? || step.SchedRelease? || step.Dispatch?)
    ensures AllLocks(Apply(s, step))
  {
    assert LocksOk(s, step.p);
    LocksOwn(s, step.p, Apply(s, step).procs[step.p]);
  }

  // ------------------------------------------------------------------ one step

  /** What p's step leaves of another process: all but what a scan may change of the one it is at. */
  predicate OtherKept(s: State, t: State, p: int, q: int) {
    && IsProc(s, p) && IsProc(s, q) && IsProc(t, q) && |t.procs| == |s.procs| && |t.sems| == |s.sems|
    && var a, b := s.procs[q], t.procs[q];
       && b == a.(lock := b.lock, state := b.state, killed := b.killed)
       && (b.state == a.state || (b.state == RUNNABLE && a.state == SLEEPING && q == s.procs[p].i
           && HoldsOther(s.procs[p].at)))
  }

  lemma OthersKept(s: State, p: int, q: int)
    requires IsProc(s, p) && IsProc(s, q) && q != p && Ready(s, p)
    ensures OtherKept(s, Advance(s, p), p, q)
  {
  }

  /** Only the holder of a semaphore's lock changes the value or gives up the lock. */
  predicate SemKept(s: State, t: State, p: int, x: int) {
    IsSem(s, x) && IsSem(t, x) && t.sems[x].value == s.sems[x].value && t.sems[x].binary == s.sems[x].binary
    && (t.sems[x].holder == s.sems[x].holder || (s.sems[x].holder == NOBODY && t.sems[x].holder == p))
  }

  lemma SemsKept(s: State, p: int, x: int)
    requires AllLocks(s) && IsProc(s, p) && Ready(s, p) && IsSem(s, x) && s.sems[x].holder != p
    ensures SemKept(s, Advance(s, p), p, x)
  {
    assert LocksOk(s, p);
  }

  /** What sem_close's caller must see to, as a condition on the step of process p. */
  ghost predicate CleanGo(s: State, p: int)
    requires IsProc(s, p) && Ready(s, p)
  {
    s.procs[p].at == CloseTest && s.sems[s.procs[p].sem].value != CLOSED ==>
      forall q :: IsProc(s, q) && InLoop(s.procs[q].at) ==> s.procs[q].sem != s.procs[p].sem
  }

  lemma SleepAdvance(s: State, p: int, q: int)
    requires AllLocks(s) && AllSleep(s) && IsProc(s, p) && Ready(s, p) && IsProc(s, q)
    ensures SleepOk(Advance(s, p).procs[q])
  {
    assert LocksOk(s, p) && SleepOk(s.procs[p]) && LocksOk(s, q) && SleepOk(s.procs[q]);
    if q == p {
      SleepOwn(s, p);
    } else {
      OthersKept(s, p, q);
    }
  }

  lemma SleepOwnScan(s: State, p: int)
    requires IsProc(s, p) && Ready(s, p) && SleepOk(s.procs[p]) && !HoldsOwn(s.procs[p].at)
    requires s.procs[p].at == WakeNext || s.procs[p].at == KillNext || HoldsOther(s.procs[p].at)
    ensures SleepOk(Advance(s, p).procs[p])
  {
    if s.procs[p].at == WakeNext || s.procs[p].at == WakeCheck || s.procs[p].at == WakeRelease {
      SleepOwnWake(s, p);
    } else {
      SleepOwnKill(s, p);
    }
  }

  lemma SleepOwnWake(s: State, p: int)
    requires IsProc(s, p) && Ready(s, p) && SleepOk(s.procs[p])
    requires s.procs[p].at == WakeNext || s.procs[p].at == WakeCheck || s.procs[p].at == WakeRelease
    ensures SleepOk(GoWake(s, p).procs[p])
  {
  }

  lemma SleepOwnKill(s: State, p: int)
    requires IsProc(s, p) && Ready(s, p) && SleepOk(s.procs[p])
    requires s.procs[p].at == KillNext || s.procs[p].at == KillCheck || s.procs[p].at == KillRelease
    ensures SleepOk(GoKill(s, p).procs[p])
  {
  }

  lemma SleepOwnSleep(s: State, p: int)
    requires IsProc(s, p) && Ready(s, p) && SleepOk(s.procs[p])
    ensures SleepOk(GoSleep(s, p).procs[p])
  {
  }

  lemma SleepOwn(s: State, p: int)
    requires IsProc(s, p) && Ready(s, p) && SleepOk(s.procs[p])
    ensures SleepOk(Advance(s, p).procs[p])
  {
    match s.procs[p].at
    case WakeNext | WakeCheck | WakeRelease | KillNext | KillCheck | KillRelease => SleepOwnScan(s, p);
    case DownAcquire | DownTest | DownLoop | DownRelease => assert SleepOk(GoDown(s, p).procs[p]);
    case UpAcquire | UpTest | UpRelease => assert SleepOk(GoUp(s, p).procs[p]);
    case OpenAcquire | OpenTest | OpenRelease => assert SleepOk(GoOpen(s, p).procs[p]);
    case CloseAcquire | CloseTest | CloseRelease => assert SleepOk(GoClose(s, p).procs[p]);
    case SleepAcquire | SleepRelease | SleepChan | SleepState | SleepSched => SleepOwnSleep(s, p);
    case SleepTidy | SleepUnlock | SleepReacquire => SleepOwnSleep(s, p);
    case Idle | Asleep =>
  }

  /** p's own step does not make it wait, except for giving up the semaphore's lock in sleep. */
  lemma WaitsOwn(s: State, p: int)
    requires IsProc(s, p) && Ready(s, p)
    ensures var a, b := s.procs[p], Advance(s, p).procs[p];
            Waits(b) ==> b.sem == a.sem && !HoldsSem(b.at) && (Waits(a) || a.at == SleepRelease)
  {
  }

  lemma WakesOwnRelease(s: State, p: int)
    requires IsProc(s, p) && Ready(s, p) && LocksOk(s, p) && LoopOk(s, p) && s.procs[p].at == SleepRelease
    ensures WakeOk(Advance(s, p), p)
  {
    assert Advance(s, p) == ReleaseSem(s, p, SleepChan);
  }

  lemma WakesOwnWaiting(s: State, p: int)
    requires AllLocks(s) && IsProc(s, p) && Ready(s, p) && WakeOk(s, p)
    requires Waits(s.procs[p]) && IsSem(s, s.procs[p].sem)
    ensures WakeOk(Advance(s, p), p)
  {
    var x := s.procs[p].sem;
    WaitsOwn(s, p);
    assert HolderOk(s, x);
    SemsKept(s, p, x);
    if s.sems[x].value != 0 {
      OthersKept(s, p, s.sems[x].holder);
    }
  }

  lemma WakesOwn(s: State, p: int)
    requires AllLocks(s) && IsProc(s, p) && Ready(s, p) && LoopOk(s, p) && WakeOk(s, p)
    ensures WakeOk(Advance(s, p), p)
  {
    assert LocksOk(s, p);
    if s.procs[p].at == SleepRelease {
      WakesOwnRelease(s, p);
    } else if Waits(s.procs[p]) && IsSem(s, s.procs[p].sem) {
      WakesOwnWaiting(s, p);
    } else {
      WaitsOwn(s, p);
    }
  }

  /** The holder of the lock a waiting process gave up: only sem_up makes the value positive, and then it scans. */
  lemma WakesHolder(s: State, p: int, q: int)
    requires AllLocks(s) && IsProc(s, p) && IsProc(s, q) && q != p && Ready(s, p) && CleanGo(s, p)
    requires Waits(s.procs[q]) && IsSem(s, s.procs[q].sem) && s.sems[s.procs[q].sem].holder == p
    requires SleepOk(s.procs[q]) && LoopOk(s, q) && WakeOk(s, q)
    ensures WakeOk(Advance(s, p), q)
  {
    var x := s.procs[q].sem;
    assert LocksOk(s, p) && LocksOk(s, q) && HolderOk(s, x);
    OthersKept(s, p, q);
    match s.procs[p].at
    case UpTest | UpRelease => WakesUp(s, p, q);
    case WakeNext | WakeCheck | WakeRelease => WakesScan(s, p, q);
    case _ => WakesQuiet(s, p, q);
  }

  lemma WakesUp(s: State, p: int, q: int)
    requires IsProc(s, p) && IsProc(s, q) && q != p && Ready(s, p)
    requires s.procs[p].at == UpTest || s.procs[p].at == UpRelease
    requires s.procs[q].sem == s.procs[p].sem && IsSem(s, s.procs[q].sem) && s.sems[s.procs[q].sem].holder == p
    requires Waits(s.procs[q]) && WakeOk(s, q)
    ensures WakeOk(Advance(s, p), q)
  {
  }

  lemma WakesScan(s: State, p: int, q: int)
    requires IsProc(s, p) && IsProc(s, q) && q != p && Ready(s, p) && LocksOk(s, p) && LocksOk(s, q)
    requires s.procs[p].at == WakeNext || s.procs[p].at == WakeCheck || s.procs[p].at == WakeRelease
    requires s.procs[q].sem == s.procs[p].sem && IsSem(s, s.procs[q].sem) && s.sems[s.procs[q].sem].holder == p
    requires Waits(s.procs[q]) && SleepOk(s.procs[q]) && WakeOk(s, q)
    ensures WakeOk(Advance(s, p), q)
  {
    assert Advance(s, p) == GoWake(s, p);
  }

  lemma WakesQuiet(s: State, p: int, q: int)
    requires IsProc(s, p) && IsProc(s, q) && q != p && Ready(s, p) && CleanGo(s, p)
    requires HoldsSem(s.procs[p].at)
    requires !(s.procs[p].at in {UpTest, UpRelease, WakeNext, WakeCheck, WakeRelease})
    requires s.procs[q].sem == s.procs[p].sem && IsSem(s, s.procs[q].sem) && s.sems[s.procs[q].sem].holder == p
    requires Waits(s.procs[q]) && LoopOk(s, q) && WakeOk(s, q)
    ensures WakeOk(Advance(s, p), q)
  {
    var x := s.procs[q].sem;
    assert s.sems[x].value == 0;
    assert Advance(s, p).sems[x].value == 0;
  }

  lemma WakesAdvance(s: State, p: int, q: int)
    requires Inv(s) && IsProc(s, p) && IsProc(s, q) && Ready(s, p) && CleanGo(s, p)
    ensures WakeOk(Advance(s, p), q)
  {
    assert LoopOk(s, q) && WakeOk(s, q) && SleepOk(s.procs[q]) && LocksOk(s, q);
    if q == p {
      WakesOwn(s, p);
      return;
    }
    OthersKept(s, p, q);
    var x, t := s.procs[q].sem, Advance(s, p);
    if !Waits(t.procs[q]) || !IsSem(s, x) {
      return;
    }
    if s.sems[x].holder == p {
      WakesHolder(s, p, q);
    } else {
      SemsKept(s, p, x);
      var h := s.sems[x].holder;
      if s.sems[x].value != 0 {
        OthersKept(s, p, h);
      }
    }
  }

  /** Entering and staying in sem_down's loop. */
  lemma LoopOwn(s: State, p: int)
    requires IsProc(s, p) && Ready(s, p) && LocksOk(s, p) && LoopOk(s, p)
    ensures LoopOk(Advance(s, p), p)
  {
    match s.procs[p].at
    case DownAcquire | DownTest | DownLoop | DownRelease => LoopOwnDown(s, p);
    case OpenAcquire | OpenTest | OpenRelease => LoopOwnOpen(s, p);
    case CloseAcquire | CloseTest | CloseRelease => LoopOwnClose(s, p);
    case UpAcquire | UpTest | UpRelease => LoopOwnUp(s, p);
    case WakeNext | WakeCheck | WakeRelease => LoopOwnWake(s, p);
    case KillNext | KillCheck | KillRelease => LoopOwnKill(s, p);
    case _ => LoopOwnSleep(s, p);
  }

  lemma LoopOwnDown(s: State, p: int)
    requires IsProc(s, p) && Ready(s, p) && LocksOk(s, p) && LoopOk(s, p)
    ensures LoopOk(GoDown(s, p), p)
  {
  }

  lemma LoopOwnSleep(s: State, p: int)
    requires IsProc(s, p) && Ready(s, p) && LocksOk(s, p) && LoopOk(s, p)
    ensures LoopOk(GoSleep(s, p), p)
  {
  }

  lemma LoopOwnUp(s: State, p: int)
    requires IsProc(s, p) && Ready(s, p) && s.procs[p].at in {UpAcquire, UpTest, UpRelease}
    ensures LoopOk(GoUp(s, p), p)
  {
  }

  lemma LoopOwnWake(s: State, p: int)
    requires IsProc(s, p) && Ready(s, p) && s.procs[p].at in {WakeNext, WakeCheck, WakeRelease}
    ensures LoopOk(GoWake(s, p), p)
  {
  }

  lemma LoopOwnKill(s: State, p: int)
    requires IsProc(s, p) && Ready(s, p) && s.procs[p].at in {KillNext, KillCheck, KillRelease}
    ensures LoopOk(GoKill(s, p), p)
  {
  }

  lemma LoopOwnOpen(s: State, p: int)
    requires IsProc(s, p) && Ready(s, p) && LocksOk(s, p) && LoopOk(s, p)
    ensures LoopOk(GoOpen(s, p), p)
  {
  }

  lemma LoopOwnClose(s: State, p: int)
    requires IsProc(s, p) && Ready(s, p) && LocksOk(s, p) && LoopOk(s, p)
    ensures LoopOk(GoClose(s, p), p)
  {
  }

  /** The holder of the lock cannot close the semaphore under a process in the loop. */
  lemma LoopHolder(s: State, p: int, q: int)
    requires AllLocks(s) && IsProc(s, p) && IsProc(s, q) && q != p && Ready(s, p) && CleanGo(s, p)
    requires LoopOk(s, q) && LoopOk(s, p) && IsSem(s, s.procs[q].sem) && s.sems[s.procs[q].sem].holder == p
    requires ValueOk(s.sems[s.procs[q].sem])
    ensures LoopOk(Advance(s, p), q)
  {
    var x := s.procs[q].sem;
    assert LocksOk(s, p) && LocksOk(s, q) && HolderOk(s, x);
    OthersKept(s, p, q);
    if InLoop(s.procs[q].at) {
      LoopValue(s, p);
    }
  }

  /** Without a close, an open semaphore stays open. */
  lemma LoopValue(s: State, p: int)
    requires IsProc(s, p) && Ready(s, p) && LoopOk(s, p)
    requires var x := s.procs[p].sem; IsSem(s, x) && ValueOk(s.sems[x]) && s.sems[x].value != CLOSED
    requires s.procs[p].at != CloseTest
    ensures Advance(s, p).sems[s.procs[p].sem].value != CLOSED
  {
  }

  lemma LoopAdvance(s: State, p: int, q: int)
    requires Inv(s) && IsProc(s, p) && IsProc(s, q) && Ready(s, p) && CleanGo(s, p)
    ensures LoopOk(Advance(s, p), q)
  {
    assert LoopOk(s, q) && LoopOk(s, p) && LocksOk(s, q);
    var x := s.procs[q].sem;
    assert IsSem(s, x) ==> ValueOk(s.sems[x]);
    if q == p {
      LoopOwn(s, p);
    } else {
      OthersKept(s, p, q);
      if IsSem(s, x) {
        if s.sems[x].holder == p {
          LoopHolder(s, p, q);
        } else {
          SemsKept(s, p, x);
        }
      }
    }
  }

  lemma ValueAdvance(s: State, p: int, x: int)
    requires IsProc(s, p) && Ready(s, p) && IsSem(s, x) && ValueOk(s.sems[x]) && LoopOk(s, p)
    ensures |Advance(s, p).sems| == |s.sems| && ValueOk(Advance(s, p).sems[x])
  {
  }

  lemma AdvanceKeepsInv(s: State, p: int)
    requires Inv(s) && IsProc(s, p) && Ready(s, p) && CleanGo(s, p)
    ensures Inv(Advance(s, p))
  {
    var t := Advance(s, p);
    LocksAdvance(s, p);
    forall q | IsProc(t, q)
      ensures SleepOk(t.procs[q]) && LoopOk(t, q) && WakeOk(t, q)
    {
      SleepAdvance(s, p, q);
      LoopAdvance(s, p, q);
      WakesAdvance(s, p, q);
    }
    forall x | IsSem(t, x)
      ensures ValueOk(t.sems[x])
    {
      assert LoopOk(s, p);
      ValueAdvance(s, p, x);
    }
  }

  /** A call, or a step of a scheduler, seen from process q. */
  lemma OtherStepOne(s: State, step: Step, q: int)
    requires Enabled(s, step) && !step.Go? && IsProc(s, q) && SleepOk(s.procs[q]) && LoopOk(s, q)
    ensures IsProc(Apply(s, step), q)
    ensures SleepOk(Apply(s, step).procs[q]) && LoopOk(Apply(s, step), q)
  {
  }

  lemma OtherStepWakes(s: State, step: Step, q: int)
    requires Enabled(s, step) && !step.Go? && IsProc(s, q) && SleepOk(s.procs[q]) && WakeOk(s, q)
    ensures IsProc(Apply(s, step), q)
    ensures WakeOk(Apply(s, step), q)
  {
  }

  lemma OtherStepKeepsInv(s: State, step: Step)
    requires Inv(s) && Enabled(s, step) && !step.Go?
    ensures Inv(Apply(s, step))
  {
    var t := Apply(s, step);
    LocksKept(s, step);
    OtherStepShape(s, step);
    forall q | IsProc(t, q)
      ensures SleepOk(t.procs[q]) && LoopOk(t, q) && WakeOk(t, q)
    {
      assert SleepOk(s.procs[q]) && LoopOk(s, q) && WakeOk(s, q);
      OtherStepOne(s, step, q);
      OtherStepWakes(s, step, q);
    }
  }

  lemma OtherStepShape(s: State, step: Step)
    requires Enabled(s, step) && !step.Go?
    ensures Apply(s, step).sems == s.sems && |Apply(s, step).procs| == |s.procs|
  {
  }

  /** sem_close leaves a process in sem_down's loop looking at a closed semaphore. */
  lemma CloseBreaksInv(s: State, p: int)
    requires AllLocks(s) && IsProc(s, p) && Ready(s, p) && !CleanGo(s, p)
    ensures !Inv(Advance(s, p))
  {
    assert LocksOk(s, p);
    var q :| IsProc(s, q) && InLoop(s.procs[q].at) && s.procs[q].sem == s.procs[p].sem;
    OthersKept(s, p, q);
    assert !LoopOk(Advance(s, p), q);
  }

  /**
   Every step keeps the invariant, except sem_close with somebody inside sem_down's loop, which
   always breaks it.
   */
  lemma StepKeepsInvIff(s: State, step: Step)
    requires Inv(s) && Enabled(s, step)
    ensures Inv(Apply(s, step)) <==> Clean(s, step)
  {
    if Clean(s, step) {
      if step.Go? {
        AdvanceKeepsInv(s, step.p);
      } else {
        OtherStepKeepsInv(s, step);
      }
    } else {
      CloseBreaksInv(s, step.p);
    }
  }

  // ------------------------------------------------------------------ runs

  /** seminit and initsleeplock: named semaphores are closed, sleep-locks free. */
  ghost predicate Initial(s: State) {
    && (forall p :: IsProc(s, p) ==> s.procs[p] == Proc(Idle, 0, 0, 0, false, RUNNING, NO_CHAN, false, NOBODY))
    && (forall x :: IsSem(s, x) ==>
          s.sems[x] == if s.sems[x].binary then Sem(true, 1, NOBODY, 1, 0, 0) else Sem(false, CLOSED, NOBODY, 0, 0, 0))
  }

  /** A run of any processes in any order. */
  ghost predicate Runs(s: State, steps: seq<Step>, t: State)
    decreases |steps|
  {
    if steps == [] then s == t
    else Enabled(s, steps[0]) && Runs(Apply(s, steps[0]), steps[1..], t)
  }

  /** No step of the run closes a semaphore under a process inside sem_down's loop. */
  ghost predicate CleanRun(s: State, steps: seq<Step>)
    decreases |steps|
  {
    steps == [] || (Enabled(s, steps[0]) && Clean(s, steps[0]) && CleanRun(Apply(s, steps[0]), steps[1..]))
  }

  lemma InitialInv(s: State)
    requires Initial(s)
    ensures Inv(s)
  {
    forall p | IsProc(s, p)
      ensures LocksOk(s, p) && SleepOk(s.procs[p]) && LoopOk(s, p) && WakeOk(s, p)
    {
    }
    forall x | IsSem(s, x)
      ensures HolderOk(s, x) && ValueOk(s.sems[x])
    {
    }
  }

  lemma {:induction false} RunKeepsInv(s: State, steps: seq<Step>, t: State)
    requires Inv(s) && Runs(s, steps, t) && CleanRun(s, steps)
    ensures Inv(t)
    decreases |steps|
  {
    if steps != [] {
      StepKeepsInvIff(s, steps[0]);
      RunKeepsInv(Apply(s, steps[0]), steps[1..], t);
    }
  }

  lemma NobodyWaits(s: State, x: int)
    requires AllWakes(s) && IsSem(s, x) && s.sems[x].holder == NOBODY && s.sems[x].value != 0
    ensures forall q :: IsProc(s, q) && s.procs[q].sem == x ==> !Waits(s.procs[q])
  {
    forall q | IsProc(s, q) && s.procs[q].sem == x
      ensures !Waits(s.procs[q])
    {
      assert WakeOk(s, q);
    }
  }

  lemma NobodyLoops(s: State, x: int)
    requires AllLoops(s) && IsSem(s, x) && s.sems[x].value == CLOSED
    ensures forall q :: IsProc(s, q) && s.procs[q].sem == x ==> !InLoop(s.procs[q].at)
  {
    forall q | IsProc(s, q) && s.procs[q].sem == x
      ensures !InLoop(s.procs[q].at)
    {
      assert LoopOk(s, q);
    }
  }

  /**
   What the invariant says of semaphore x: while its lock is free and some process is asleep on it
   or committed to sleeping, there is nothing to take. An open semaphore holds initial + ups -
   downs units and never fewer than none; a sleep-lock at most one, so it is acquired at most once
   more than released. Nobody loops on a closed one.
   */
  ghost predicate SemSafe(s: State, x: int)
    requires IsSem(s, x)
  {
    var m := s.sems[x];
    && (m.holder == NOBODY && m.value != 0 ==> forall q :: IsProc(s, q) && s.procs[q].sem == x ==> !Waits(s.procs[q]))
    && (m.value == CLOSED || 0 <= m.value <= INT_MAX)
    && (m.binary ==> 0 <= m.value <= 1)
    && (m.value != CLOSED ==> m.value == m.initial + m.ups - m.downs)
    && (m.value == CLOSED ==> forall q :: IsProc(s, q) && s.procs[q].sem == x ==> !InLoop(s.procs[q].at))
  }

  lemma InvIsSafe(s: State, x: int)
    requires Inv(s) && IsSem(s, x)
    ensures SemSafe(s, x)
  {
    assert ValueOk(s.sems[x]);
    if s.sems[x].value == CLOSED {
      NobodyLoops(s, x);
    } else if s.sems[x].holder == NOBODY && s.sems[x].value != 0 {
      NobodyWaits(s, x);
    }
  }

  /** No lost wakeup, in every interleaving that closes no semaphore under a sleeper. */
  lemma NoLostWakeup(s: State, steps: seq<Step>, t: State, x: int)
    requires Initial(s) && Runs(s, steps, t) && CleanRun(s, steps) && IsSem(t, x)
    ensures SemSafe(t, x)
  {
    InitialInv(s);
    RunKeepsInv(s, steps, t);
    InvIsSafe(t, x);
  }

  /**
   The four calls are atomic: a step changes at most the value of the semaphore whose lock the
   stepping process holds, sem_down by taking a unit that is there, sem_up by giving one back.
   */
  lemma StepIsAtomic(s: State, step: Step, x: int)
    requires Inv(s) && Enabled(s, step) && IsSem(s, x)
    ensures IsSem(Apply(s, step), x)
    ensures
      var a, v, w := s.procs[step.p], s.sems[x].value, Apply(s, step).sems[x].value;
      v != w ==>
        step.Go? && a.sem == x && s.sems[x].holder == step.p
        && match a.at
           case DownLoop => 0 < v && w == v - 1
           case UpTest => 0 <= v < INT_MAX && w == v + 1
           case OpenTest => v == CLOSED && w == a.arg && 0 <= w
           case CloseTest => w == CLOSED
           case _ => false
  {
    var p := step.p;
    assert LocksOk(s, p) && LoopOk(s, p) && ValueOk(s.sems[x]);
    if step.Go? {
      ValueStep(s, p, x);
    } else {
      OtherStepShape(s, step);
    }
  }

  lemma ValueStep(s: State, p: int, x: int)
    requires IsProc(s, p) && Ready(s, p) && LocksOk(s, p) && LoopOk(s, p) && IsSem(s, x) && ValueOk(s.sems[x])
    ensures |Advance(s, p).sems| == |s.sems|
    ensures
      var a, v, w := s.procs[p], s.sems[x].value, Advance(s, p).sems[x].value;
      v != w ==>
        a.sem == x && s.sems[x].holder == p
        && match a.at
           case DownLoop => 0 < v && w == v - 1
           case UpTest => 0 <= v < INT_MAX && w == v + 1
           case OpenTest => v == CLOSED && w == a.arg && 0 <= w
           case CloseTest => w == CLOSED
           case _ => false
  {
    if !ChangesValue(s.procs[p].at) {
      ValueKept(s, p, x);
    }
  }

  predicate ChangesValue(at: Label) {
    at == DownLoop || at == UpTest || at == OpenTest || at == CloseTest
  }

  lemma ValueKept(s: State, p: int, x: int)
    requires IsProc(s, p) && Ready(s, p) && !ChangesValue(s.procs[p].at) && IsSem(s, x)
    ensures Advance(s, p).sems[x].value == s.sems[x].value
  {
  }

  // ------------------------------------------------------------------ closing under a sleeper

  ghost predicate Reaches(s: State, t: State) {
    exists steps :: Runs(s, steps, t)
  }

  lemma {:induction false} RunAppend(s: State, steps: seq<Step>, t: State, last: Step)
    requires Runs(s, steps, t) && Enabled(t, last)
    ensures Runs(s, steps + [last], Apply(t, last))
    decreases |steps|
  {
    if steps == [] {
      assert [last][1..] == [];
    } else {
      RunAppend(Apply(s, steps[0]), steps[1..], t, last);
      assert (steps + [last])[1..] == steps[1..] + [last];
    }
  }

  lemma Then(s: State, t: State, step: Step) returns (u: State)
    requires Reaches(s, t) && Enabled(t, step)
    ensures u == Apply(t, step) && Reaches(s, u)
  {
    u := Apply(t, step);
    var steps :| Runs(s, steps, t);
    RunAppend(s, steps, t, step);
  }

  /** Semaphore x is closed and its lock free, and process q is still inside sem_down's loop on it. */
  ghost predicate Stranded(s: State, q: int, x: int) {
    && IsProc(s, q) && IsSem(s, x) && s.procs[q].sem == x && InLoop(s.procs[q].at)
    && s.sems[x].value == CLOSED && s.sems[x].holder == NOBODY
  }

  /** Every p->lock is free or with a scheduler. */
  ghost predicate NoneHeld(s: State) {
    forall r :: IsProc(s, r) ==> s.procs[r].lock < 0
  }

  /** sem_close's last two steps. */
  lemma CloseStrands(s0: State, s: State, p: int, q: int, x: int) returns (t: State)
    requires AllLocks(s) && AllSleep(s) && IsProc(s, p) && IsProc(s, q) && IsSem(s, x)
    requires s.procs[p].at == CloseTest && s.procs[p].sem == x
    requires s.sems[x].value != CLOSED && InLoop(s.procs[q].at) && s.procs[q].sem == x
    requires Ready(s, p) && Reaches(s0, Advance(s, p))
    ensures Reaches(s0, t) && Closed(t, p, q, x)
  {
    assert LocksOk(s, p);
    var s1 := Advance(s, p);
    assert s1 == PutSem(s, p, s.procs[p].(at := CloseRelease, ok := true), x, s.sems[x].(value := CLOSED));
    Kept(s, p);
    t := Then(s0, s1, Go(p));
    Kept(s1, p);
  }

  lemma Kept(s: State, p: int)
    requires AllLocks(s) && AllSleep(s) && IsProc(s, p) && Ready(s, p)
    ensures AllLocks(Advance(s, p)) && AllSleep(Advance(s, p))
  {
    LocksAdvance(s, p);
    forall q | IsProc(s, q)
      ensures SleepOk(Advance(s, p).procs[q])
    {
      SleepAdvance(s, p, q);
    }
  }

  /** sem_close by p has returned, and q is stranded. */
  ghost predicate Closed(s: State, p: int, q: int, x: int) {
    AllLocks(s) && AllSleep(s) && Stranded(s, q, x) && IsProc(s, p) && s.procs[p].at == Idle
  }

  /** How many steps a p->lock section still has at most, its own or that of a scan's entry. */
  function StepsLeft(at: Label): nat {
    match at
    case SleepRelease => 4
    case SleepChan => 3
    case SleepState => 2
    case SleepSched => 1
    case SleepTidy => 2
    case SleepUnlock => 1
    case WakeCheck | KillCheck => 2
    case WakeRelease | KillRelease => 1
    case _ => 0
  }

  /** What a step of h in its section for entry i does: it takes no lock, and brings the section nearer to its end. */
  ghost predicate Nearer(s: State, t: State, p: int, q: int, x: int, h: int, i: int)
    requires IsProc(s, h) && IsProc(s, i) && |t.procs| == |s.procs|
  {
    && Stranded(t, q, x) && IsProc(t, p) && t.procs[p].at == Idle
    && (forall r :: IsProc(s, r) && s.procs[r].lock < 0 ==> t.procs[r].lock < 0)
    && (t.procs[i].lock < 0
        || (t.procs[i].lock == h && StepsLeft(t.procs[h].at) < StepsLeft(s.procs[h].at)))
  }

  lemma OwnSection(s: State, p: int, q: int, x: int, h: int)
    requires Closed(s, p, q, x) && IsProc(s, h) && HoldsOwn(s.procs[h].at) && s.procs[h].lock == h
    requires LocksOk(s, h)
    ensures Ready(s, h) && Nearer(s, GoSleep(s, h), p, q, x, h, h)
  {
  }

  lemma WakeSection(s: State, p: int, q: int, x: int, h: int, i: int)
    requires Closed(s, p, q, x) && IsProc(s, h) && IsProc(s, i) && s.procs[h].i == i && s.procs[i].lock == h
    requires LocksOk(s, h) && (s.procs[h].at == WakeCheck || s.procs[h].at == WakeRelease)
    ensures Ready(s, h) && Nearer(s, GoWake(s, h), p, q, x, h, i)
  {
  }

  lemma KillSection(s: State, p: int, q: int, x: int, h: int, i: int)
    requires Closed(s, p, q, x) && IsProc(s, h) && IsProc(s, i) && s.procs[h].i == i && s.procs[i].lock == h
    requires s.procs[h].at == KillCheck || s.procs[h].at == KillRelease
    ensures Ready(s, h) && Nearer(s, GoKill(s, h), p, q, x, h, i)
  {
  }

  /** A p->lock section never waits. */
  lemma SectionStep(s: State, p: int, q: int, x: int, h: int, i: int)
    requires Closed(s, p, q, x) && IsProc(s, h) && IsProc(s, i)
    requires LockedBy(s.procs[h], h, i) && s.procs[i].lock == h
    ensures Ready(s, h) && Nearer(s, Advance(s, h), p, q, x, h, i)
  {
    assert LocksOk(s, h);
    if HoldsOwn(s.procs[h].at) {
      OwnSection(s, p, q, x, h);
    } else if s.procs[h].at == WakeCheck || s.procs[h].at == WakeRelease {
      WakeSection(s, p, q, x, h, i);
    } else {
      KillSection(s, p, q, x, h, i);
    }
  }

  /** The holder of entry i's p->lock finishes its section. */
  lemma LockGiven(s0: State, s: State, p: int, q: int, x: int, i: int) returns (t: State)
    requires Reaches(s0, s) && Closed(s, p, q, x) && IsProc(s, i)
    ensures Reaches(s0, t) && Closed(t, p, q, x) && |t.procs| == |s.procs| && t.procs[i].lock < 0
    ensures forall r :: IsProc(s, r) && s.procs[r].lock < 0 ==> t.procs[r].lock < 0
    decreases if IsProc(s, s.procs[i].lock) then StepsLeft(s.procs[s.procs[i].lock].at) + 1 else 0
  {
    assert LocksOk(s, i);
    var h := s.procs[i].lock;
    if h < 0 {
      t := s;
    } else {
      SectionStep(s, p, q, x, h, i);
      Kept(s, h);
      var s1 := Then(s0, s, Go(h));
      t := LockGiven(s0, s1, p, q, x, i);
    }
  }

  /** All p->lock sections finish, one after the other. */
  lemma {:induction false} LocksGiven(s0: State, s: State, p: int, q: int, x: int, k: int) returns (t: State)
    requires Reaches(s0, s) && Closed(s, p, q, x) && 0 <= k <= |s.procs|
    requires forall r :: 0 <= r < k ==> s.procs[r].lock < 0
    ensures Reaches(s0, t) && Closed(t, p, q, x) && NoneHeld(t)
    decreases |s.procs| - k
  {
    if k == |s.procs| {
      t := s;
    } else {
      var s1 := LockGiven(s0, s, p, q, x, k);
      t := LocksGiven(s0, s1, p, q, x, k + 1);
    }
  }

  /** Process p, at this place of kill's scan for q, has come to entry i. */
  ghost predicate KillingAt(s: State, p: int, q: int, x: int, i: int, at: Label) {
    && Stranded(s, q, x) && IsProc(s, p) && p != q && 0 <= i <= q
    && s.procs[p].at == at && s.procs[p].i == i && s.procs[p].arg == q
    && s.procs[q].at == Asleep && s.procs[q].state == SLEEPING
    && (at != KillNext ==> s.procs[i].lock == p)
    && forall r :: IsProc(s, r) && (at == KillNext || r != i) ==> s.procs[r].lock == NOBODY || s.procs[r].lock == SCHED
  }

  ghost predicate Killing(s: State, p: int, q: int, x: int, i: int) {
    KillingAt(s, p, q, x, i, KillNext)
  }

  /** A scheduler that holds the lock of entry i gives it up. */
  lemma LockFrees(s0: State, s: State, p: int, q: int, x: int, i: int) returns (t: State)
    requires Reaches(s0, s) && Killing(s, p, q, x, i)
    ensures Reaches(s0, t) && Killing(t, p, q, x, i) && |t.procs| == |s.procs| && t.procs[i].lock == NOBODY
  {
    t := s;
    if s.procs[i].lock == SCHED {
      t := Then(s0, s, SchedRelease(i));
    }
  }

  /** kill passes an entry that is not q's. */
  lemma KillPasses(s0: State, s: State, p: int, q: int, x: int, i: int) returns (t: State)
    requires Reaches(s0, s) && Killing(s, p, q, x, i) && i != q && s.procs[i].lock == NOBODY
    ensures Reaches(s0, t) && Killing(t, p, q, x, i + 1)
  {
    var s1 := KillTakes(s0, s, p, q, x, i);
    var s2 := KillLooks(s0, s1, p, q, x, i);
    t := KillGives(s0, s2, p, q, x, i);
  }

  lemma KillTakes(s0: State, s: State, p: int, q: int, x: int, i: int) returns (t: State)
    requires Reaches(s0, s) && KillingAt(s, p, q, x, i, KillNext) && s.procs[i].lock == NOBODY
    ensures Reaches(s0, t) && KillingAt(t, p, q, x, i, KillCheck)
  {
    t := Then(s0, s, Go(p));
  }

  lemma KillLooks(s0: State, s: State, p: int, q: int, x: int, i: int) returns (t: State)
    requires Reaches(s0, s) && KillingAt(s, p, q, x, i, KillCheck) && i != q
    ensures Reaches(s0, t) && KillingAt(t, p, q, x, i, KillRelease)
  {
    t := Then(s0, s, Go(p));
  }

  lemma KillGives(s0: State, s: State, p: int, q: int, x: int, i: int) returns (t: State)
    requires Reaches(s0, s) && KillingAt(s, p, q, x, i, KillRelease) && i != q
    ensures Reaches(s0, t) && KillingAt(t, p, q, x, i + 1, KillNext)
  {
    t := Then(s0, s, Go(p));
  }

  /** kill finds q asleep and makes it runnable. */
  lemma KillWakes(s0: State, s: State, p: int, q: int, x: int) returns (t: State)
    requires Reaches(s0, s) && Killing(s, p, q, x, q) && s.procs[q].lock == NOBODY
    ensures Reaches(s0, t) && Stranded(t, q, x)
    ensures t.procs[q].at == Asleep && t.procs[q].state == RUNNABLE && t.procs[q].lock == NOBODY
  {
    var s1 := KillTakes(s0, s, p, q, x, q);
    var s2 := Then(s0, s1, Go(p));
    t := Then(s0, s2, Go(p));
  }

  lemma {:induction false} KillReaches(s0: State, s: State, p: int, q: int, x: int, i: int) returns (t: State)
    requires Reaches(s0, s) && Killing(s, p, q, x, i)
    ensures Reaches(s0, t) && Stranded(t, q, x)
    ensures t.procs[q].at == Asleep && t.procs[q].state == RUNNABLE && t.procs[q].lock == NOBODY
    decreases q - i
  {
    var s1 := LockFrees(s0, s, p, q, x, i);
    if i == q {
      t := KillWakes(s0, s1, p, q, x);
    } else {
      var s2 := KillPasses(s0, s1, p, q, x, i);
      t := KillReaches(s0, s2, p, q, x, i + 1);
    }
  }

  /** A scheduler runs q, which comes back to sem_down's loop. */
  lemma Resumes(s0: State, s: State, q: int, x: int) returns (t: State)
    requires Reaches(s0, s) && Stranded(s, q, x) && s.procs[q].at == Asleep && s.procs[q].state == RUNNABLE
    requires s.procs[q].lock == NOBODY || s.procs[q].lock == SCHED
    ensures Reaches(s0, t) && Stranded(t, q, x) && t.procs[q].at == SleepTidy
  {
    var s1 := s;
    if s.procs[q].lock == NOBODY {
      s1 := Then(s0, s, SchedAcquire(q));
    }
    t := Then(s0, s1, Dispatch(q));
  }

  /** Back in the loop q tests for 0 only, finds -1, and takes a unit. */
  lemma Underflows(s0: State, s: State, q: int, x: int) returns (t: State)
    requires Reaches(s0, s) && Stranded(s, q, x)
    requires s.procs[q].at == SleepTidy || s.procs[q].at == SleepUnlock || s.procs[q].at == SleepReacquire
    ensures Reaches(s0, t) && IsSem(t, x) && t.sems[x].value == CLOSED - 1
    decreases if s.procs[q].at == SleepTidy then 2 else if s.procs[q].at == SleepUnlock then 1 else 0
  {
    var s1 := Then(s0, s, Go(q));
    if s.procs[q].at == SleepReacquire {
      t := Then(s0, s1, Go(q));
    } else {
      t := Underflows(s0, s1, q, x);
    }
  }

  /** With all sections finished q is asleep or about to take the semaphore's lock again. */
  lemma WhereStranded(s: State, p: int, q: int, x: int)
    requires Closed(s, p, q, x) && NoneHeld(s)
    ensures s.procs[q].at == SleepReacquire
            || (s.procs[q].at == Asleep && (s.procs[q].state == SLEEPING || s.procs[q].state == RUNNABLE))
    ensures forall r :: IsProc(s, r) ==> s.procs[r].lock == NOBODY || s.procs[r].lock == SCHED
  {
    assert LocksOk(s, q) && SleepOk(s.procs[q]);
    forall r | IsProc(s, r)
      ensures s.procs[r].lock == NOBODY || s.procs[r].lock == SCHED
    {
      assert LocksOk(s, r);
    }
  }

  /** From a sem_close under q to the unit that q takes. */
  lemma UnderflowFrom(s0: State, s: State, p: int, q: int, x: int) returns (u: State)
    requires AllLocks(s) && AllSleep(s) && IsProc(s, p) && IsProc(s, q) && IsSem(s, x)
    requires s.procs[p].at == CloseTest && s.procs[p].sem == x
    requires s.sems[x].value != CLOSED && InLoop(s.procs[q].at) && s.procs[q].sem == x
    requires Ready(s, p) && Reaches(s0, Advance(s, p))
    ensures Reaches(s0, u) && IsSem(u, x) && u.sems[x].value == CLOSED - 1
  {
    var t := CloseStrands(s0, s, p, q, x);
    t := LocksGiven(s0, t, p, q, x, 0);
    WhereStranded(t, p, q, x);
    if t.procs[q].at == Asleep {
      if t.procs[q].state == SLEEPING {
        t := Then(s0, t, Kill(p, q));
        t := KillReaches(s0, t, p, q, x, 0);
      }
      t := Resumes(s0, t, q, x);
    }
    u := Underflows(s0, t, q, x);
  }

  /**
   Closing a semaphore under a process in sem_down's loop can always end with a value below
   closed: whoever is in the middle of a p->lock section finishes it, and then a kill, or the
   wakeup that has already come, lets the process take a unit that is not there.
   */
  lemma UncleanCloseUnderflows(s: State, p: int, q: int, x: int)
    requires Inv(s) && IsProc(s, p) && IsProc(s, q) && IsSem(s, x) && s.procs[p].at == CloseTest && s.procs[p].sem == x
    requires s.sems[x].value != CLOSED && InLoop(s.procs[q].at) && s.procs[q].sem == x
    ensures Enabled(s, Go(p)) && !Clean(s, Go(p))
    ensures exists t :: Reaches(Advance(s, p), t) && IsSem(t, x) && t.sems[x].value < CLOSED
  {
    assert Runs(Advance(s, p), [], Advance(s, p));
    var t := UnderflowFrom(Advance(s, p), s, p, q, x);
  }

  const FRESH := Proc(Idle, 0, 0, 0, false, RUNNING, NO_CHAN, false, NOBODY)
  const SLEEPER := Proc(Asleep, 0, 0, 0, false, SLEEPING, 0, false, NOBODY)

  /** One semaphore and two processes. */
  function Two(first: Proc, second: Proc, value: int): State {
    State([first, second], [Sem(false, value, NOBODY, 0, 0, 0)])
  }

  const START := Two(FRESH, FRESH, CLOSED)
  const DONE := FRESH.(ok := true)

  lemma OpenCalled() returns (t: State)
    ensures Reaches(START, t) && t == State([FRESH.(at := OpenTest), FRESH], [Sem(false, CLOSED, 0, 0, 0, 0)])
  {
    assert Runs(START, [], START);
    t := Then(START, START, Open(0, 0, 0));
    t := Then(START, t, Go(0));
  }

  lemma OpenAtZero(s: State) returns (t: State)
    requires Reaches(START, s) && s == State([FRESH.(at := OpenTest), FRESH], [Sem(false, CLOSED, 0, 0, 0, 0)])
    ensures Reaches(START, t) && t == Two(DONE, FRESH, 0)
  {
    t := Then(START, s, Go(0));
    t := OpenEnded(t);
  }

  lemma OpenEnded(s: State) returns (t: State)
    requires Reaches(START, s)
    requires s == State([FRESH.(at := OpenRelease, ok := true), FRESH], [Sem(false, 0, 0, 0, 0, 0)])
    ensures Reaches(START, t) && t == Two(DONE, FRESH, 0)
  {
    t := Then(START, s, Go(0));
  }

  lemma FindNothing(s: State) returns (t: State)
    requires Reaches(START, s) && s == Two(DONE, FRESH, 0)
    ensures Reaches(START, t)
    ensures t == State([DONE, FRESH.(at := SleepRelease, lock := 1)], [Sem(false, 0, 1, 0, 0, 0)])
  {
    t := Then(START, s, Down(1, 0));
    t := Then(START, t, Go(1));
    t := Then(START, t, Go(1));
    t := Then(START, t, Go(1));
    t := Then(START, t, Go(1));
  }

  lemma FallAsleep(s: State) returns (t: State)
    requires Reaches(START, s)
    requires s == State([DONE, FRESH.(at := SleepRelease, lock := 1)], [Sem(false, 0, 1, 0, 0, 0)])
    ensures Reaches(START, t) && t == Two(DONE, SLEEPER, 0)
  {
    t := Then(START, s, Go(1));
    t := Then(START, t, Go(1));
    t := Then(START, t, Go(1));
    t := Then(START, t, Go(1));
    t := Then(START, t, SchedRelease(1));
  }

  lemma CloseCalled(s: State) returns (t: State)
    requires Reaches(START, s) && s == Two(DONE, SLEEPER, 0)
    ensures Reaches(START, t) && t == State([DONE.(at := CloseTest), SLEEPER], [Sem(false, 0, 0, 0, 0, 0)])
  {
    t := Then(START, s, Close(0, 0));
    t := CloseEntered(t);
  }

  lemma CloseEntered(s: State) returns (t: State)
    requires Reaches(START, s) && s == State([DONE.(at := CloseAcquire), SLEEPER], [Sem(false, 0, NOBODY, 0, 0, 0)])
    ensures Reaches(START, t) && t == State([DONE.(at := CloseTest), SLEEPER], [Sem(false, 0, 0, 0, 0, 0)])
  {
    t := Then(START, s, Go(0));
  }

  /** The state in which process 0 is about to close the semaphore on which process 1 sleeps. */
  const CLOSING := State([DONE.(at := CloseTest), SLEEPER], [Sem(false, 0, 0, 0, 0, 0)])

  lemma ClosingLocks()
    ensures AllLocks(CLOSING) && AllSleep(CLOSING)
  {
    assert LocksOk(CLOSING, 0) && LocksOk(CLOSING, 1) && HolderOk(CLOSING, 0);
  }

  /**
   It can happen: process 0 opens the semaphore at 0, process 1 sleeps on it, and process 0 closes
   it. In the end process 1 takes a unit from the closed semaphore.
   */
  lemma ClosedUnderSleeper()
    ensures Initial(START)
    ensures exists t :: Reaches(START, t) && IsSem(t, 0) && t.sems[0].value == -2
  {
    var t := OpenCalled();
    t := OpenAtZero(t);
    t := FindNothing(t);
    t := FallAsleep(t);
    t := CloseCalled(t);
    ClosingLocks();
    var u := Then(START, t, Go(0));
    u := UnderflowFrom(START, t, 0, 1, 0);
  }
}
