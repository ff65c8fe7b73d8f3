/**
 What the four calls of kernel/semaphore.c return, and acquiresleep and releasesleep of
 kernel/sleeplock.c, in every interleaving of the state machine of SleepWakeup.
 */
module SemCalls {
  import opened Params
  import opened SleepWakeup

  // ------------------------------------------------------------------ the test under the lock

  /** The place in each call where the value is looked at for the last time. */
  predicate IsTest(at: Label) {
    at == DownTest || at == DownLoop || at == UpTest || at == OpenTest || at == CloseTest
  }

  /**
   The test of each call, under the semaphore's lock: on a closed semaphore sem_down, sem_up and sem_close
   fail and keep the value, as does sem_up of a full one and sem_open of an open one; at 0 sem_down goes
   to sleep. Otherwise the call succeeds and the value is one less, one more, the new one or closed. A
   sleep-lock is never closed.
   */
  lemma TestDecides(s: State, p: int)
    requires Inv(s) && IsProc(s, p) && Ready(s, p) && IsTest(s.procs[p].at)
    ensures IsSem(s, s.procs[p].sem) && s.sems[s.procs[p].sem].holder == p && IsSem(Advance(s, p), s.procs[p].sem)
    ensures var a, b, m, w := s.procs[p], Advance(s, p).procs[p], s.sems[s.procs[p].sem],
                              Advance(s, p).sems[s.procs[p].sem].value;
      && (m.binary ==> m.value == 0 || m.value == 1)
      && match a.at
         case DownTest => w == m.value && if m.value == -1 then b.at == DownRelease && !b.ok else b.at == DownLoop
         case DownLoop =>
           if m.value == 0 then b.at == SleepAcquire && w == 0
           else b.at == DownRelease && b.ok && m.value > 0 && w == m.value - 1
         case UpTest =>
           if m.binary then b.at == WakeNext && b.i == 0 && b.ok && w == 1
           else if m.value == -1 || m.value == 0x7fff_ffff then b.at == UpRelease && !b.ok && w == m.value
           else b.at == WakeNext && b.i == 0 && b.ok && w == m.value + 1
         case OpenTest => b.at == OpenRelease && b.ok == (m.value == -1) && w == if b.ok then a.arg else m.value
         case CloseTest => b.at == CloseRelease && b.ok == (m.value != -1) && w == -1
         case _ => true
  {
    var x := s.procs[p].sem;
    assert LocksOk(s, p) && LoopOk(s, p) && ValueOk(s.sems[x]);
    TestStep(s, p, x);
  }

  lemma TestStep(s: State, p: int, x: int)
    requires IsProc(s, p) && Ready(s, p) && IsTest(s.procs[p].at) && IsSem(s, x) && s.procs[p].sem == x
    ensures var a, m := s.procs[p], s.sems[x];
      Advance(s, p) == match a.at
                       case DownTest | DownLoop => GoDown(s, p)
                       case UpTest => GoUp(s, p)
                       case OpenTest => GoOpen(s, p)
                       case _ => GoClose(s, p)
  {
  }

  // ------------------------------------------------------------------ wakeup

  /** The step is wakeup's or kill's look at entry c, and c sleeps on that semaphore or is to be killed. */
  predicate Wakes(s: State, step: Step, c: int)
    requires IsProc(s, step.p) && IsProc(s, c)
  {
    var a, q := s.procs[step.p], s.procs[c];
    && step.Go? && c == a.i && q.state == SLEEPING
    && ((a.at == WakeCheck && q.chan == a.sem) || (a.at == KillCheck && c == a.arg))
  }

  /** A sleeper is woken by a wakeup on its semaphore, by its kill, and by nothing else. */
  lemma WhoWakes(s: State, step: Step, c: int)
    requires Inv(s) && Enabled(s, step) && IsProc(s, c) && s.procs[c].state == SLEEPING
    ensures |Apply(s, step).procs| == |s.procs|
    ensures Apply(s, step).procs[c].state == if Wakes(s, step, c) then RUNNABLE else SLEEPING
  {
    assert LocksOk(s, step.p);
    if step.Go? {
      WakeStep(s, step.p, c);
    }
  }

  lemma WakeStep(s: State, p: int, c: int)
    requires IsProc(s, p) && Ready(s, p) && LocksOk(s, p) && IsProc(s, c) && s.procs[c].state == SLEEPING
    ensures |Advance(s, p).procs| == |s.procs|
    ensures Advance(s, p).procs[c].state == if Wakes(s, Go(p), c) then RUNNABLE else SLEEPING
  {
    var at := s.procs[p].at;
    if at == WakeNext || at == WakeCheck || at == WakeRelease {
      WakeScan(s, p, c);
    } else if at == KillNext || at == KillCheck || at == KillRelease {
      KillScan(s, p, c);
    } else {
      QuietStep(s, p, c);
    }
  }

  lemma WakeScan(s: State, p: int, c: int)
    requires IsProc(s, p) && Ready(s, p) && IsProc(s, c) && s.procs[c].state == SLEEPING
    requires s.procs[p].at == WakeNext || s.procs[p].at == WakeCheck || s.procs[p].at == WakeRelease
    ensures GoWake(s, p).procs[c].state == if Wakes(s, Go(p), c) then RUNNABLE else SLEEPING
  {
  }

  lemma KillScan(s: State, p: int, c: int)
    requires IsProc(s, p) && Ready(s, p) && IsProc(s, c) && s.procs[c].state == SLEEPING
    requires s.procs[p].at == KillNext || s.procs[p].at == KillCheck || s.procs[p].at == KillRelease
    ensures GoKill(s, p).procs[c].state == if Wakes(s, Go(p), c) then RUNNABLE else SLEEPING
  {
  }

  lemma QuietStep(s: State, p: int, c: int)
    requires IsProc(s, p) && Ready(s, p) && IsProc(s, c) && s.procs[c].state == SLEEPING
    requires s.procs[p].at != WakeNext && s.procs[p].at != WakeCheck && s.procs[p].at != WakeRelease
    requires s.procs[p].at != KillNext && s.procs[p].at != KillCheck && s.procs[p].at != KillRelease
    ensures |Advance(s, p).procs| == |s.procs| && Advance(s, p).procs[c].state == SLEEPING
  {
  }

  // ------------------------------------------------------------------ a call as a whole

  /** What a call that succeeds does to the value of its semaphore. */
  predicate Effect(call: Step, binary: bool, v: int, w: int) {
    match call
    case Down(_, _) => 0 < v && w == v - 1
    case Up(_, _) => if binary then w == 1 else 0 <= v < INT_MAX && w == v + 1
    case Open(_, _, arg) => v == CLOSED && w == arg
    case Close(_, _) => v != CLOSED && w == CLOSED
    case _ => false
  }

  /** The last test of each call. */
  function TestOf(call: Step): Label {
    match call
    case Down(_, _) => DownLoop
    case Up(_, _) => UpTest
    case Open(_, _, _) => OpenTest
    case Close(_, _) => CloseTest
    case _ => Idle
  }

  /** The step of p is the one by which its call on x takes effect. */
  ghost predicate TakesEffect(s: State, step: Step, call: Step, x: int)
    requires Enabled(s, step)
  {
    && step.Go? && s.procs[step.p].at == TestOf(call) && s.procs[step.p].sem == x
    && IsSem(s, x) && IsSem(Apply(s, step), x)
    && Effect(call, s.sems[x].binary, s.sems[x].value, Apply(s, step).sems[x].value)
  }

  ghost predicate ValueSame(s: State, t: State, x: int) {
    IsSem(s, x) && IsSem(t, x) && t.sems[x].value == s.sems[x].value
  }

  function Count(b: bool): int {
    if b then 1 else 0
  }

  /** How often the call takes effect in a run. */
  ghost function Effects(s: State, steps: seq<Step>, call: Step, x: int): int
    decreases |steps|
  {
    if steps == [] || !Enabled(s, steps[0]) then 0
    else
      var first := steps[0].p == call.p && TakesEffect(s, steps[0], call, x);
      Count(first) + Effects(Apply(s, steps[0]), steps[1..], call, x)
  }

  /** The caller is in the call throughout the run, and its other steps keep the value of x. */
  ghost predicate InCall(s: State, steps: seq<Step>, p: int)
    decreases |steps|
  {
    && IsProc(s, p) && s.procs[p].at != Idle
    && (steps != [] ==> Enabled(s, steps[0]) && InCall(Apply(s, steps[0]), steps[1..], p))
  }

  ghost predicate OnlyEffects(s: State, steps: seq<Step>, call: Step, x: int)
    decreases |steps|
  {
    steps == [] || (Enabled(s, steps[0])
      && (steps[0].p == call.p ==> TakesEffect(s, steps[0], call, x) || ValueSame(s, Apply(s, steps[0]), x))
      && OnlyEffects(Apply(s, steps[0]), steps[1..], call, x))
  }

  predicate IsCall(call: Step, x: int) {
    match call
    case Down(_, y) => y == x
    case Up(_, y) => y == x
    case Open(_, y, v) => y == x && 0 <= v
    case Close(_, y) => y == x
    case _ => false
  }

  /** Where the call is after it has taken effect n times. */
  predicate Phase(a: Proc, call: Step, x: int, n: int) {
    && a.sem == x
    && match call
       case Down(_, _) =>
         ((a.at == DownAcquire || a.at == DownTest || InLoop(a.at)) && n == 0)
         || (a.at == DownRelease && n == Count(a.ok))
       case Up(_, _) =>
         ((a.at == UpAcquire || a.at == UpTest) && n == 0)
         || ((a.at == WakeNext || a.at == WakeCheck || a.at == WakeRelease) && n == 1 && a.ok)
         || (a.at == UpRelease && n == Count(a.ok))
       case Open(_, _, v) =>
         ((a.at == OpenAcquire || a.at == OpenTest) && n == 0 && a.arg == v)
         || (a.at == OpenRelease && n == Count(a.ok))
       case Close(_, _) =>
         ((a.at == CloseAcquire || a.at == CloseTest) && n == 0) || (a.at == CloseRelease && n == Count(a.ok))
       case _ => false
  }

  /** A step of the caller. */
  lemma PhaseDown(s: State, p: int, call: Step, x: int, n: int)
    requires IsProc(s, p) && Ready(s, p) && IsSem(s, x) && Phase(s.procs[p], call, x, n) && call.Down? && call.p == p
    requires s.procs[p].at == DownAcquire || s.procs[p].at == DownTest || s.procs[p].at == DownLoop
    requires LoopOk(s, p) && ValueOk(s.sems[x])
    ensures PhaseMoved(s, GoDown(s, p), call, x, n)
  {
  }

  /** The phase after a step of the caller, with what the step did. */
  ghost predicate PhaseMoved(s: State, t: State, call: Step, x: int, n: int) {
    && IsProc(s, call.p) && IsProc(t, call.p) && IsSem(s, x) && IsSem(t, x)
    && var e := s.procs[call.p].at == TestOf(call)
                && Effect(call, s.sems[x].binary, s.sems[x].value, t.sems[x].value);
       Phase(t.procs[call.p], call, x, n + Count(e)) && (e || t.sems[x].value == s.sems[x].value)
  }

  lemma PhaseSleep(s: State, p: int, call: Step, x: int, n: int)
    requires IsProc(s, p) && Ready(s, p) && IsSem(s, x) && Phase(s.procs[p], call, x, n) && call.Down? && call.p == p
    requires InLoop(s.procs[p].at) && s.procs[p].at != DownLoop
    ensures PhaseMoved(s, GoSleep(s, p), call, x, n)
  {
  }

  lemma PhaseUp(s: State, p: int, call: Step, x: int, n: int)
    requires IsProc(s, p) && Ready(s, p) && IsSem(s, x) && Phase(s.procs[p], call, x, n) && call.Up? && call.p == p
    requires s.procs[p].at == UpAcquire || s.procs[p].at == UpTest
    requires ValueOk(s.sems[x])
    ensures PhaseMoved(s, GoUp(s, p), call, x, n)
  {
  }

  lemma PhaseWake(s: State, p: int, call: Step, x: int, n: int)
    requires IsProc(s, p) && Ready(s, p) && IsSem(s, x) && Phase(s.procs[p], call, x, n) && call.Up? && call.p == p
    requires s.procs[p].at == WakeNext || s.procs[p].at == WakeCheck || s.procs[p].at == WakeRelease
    ensures PhaseMoved(s, GoWake(s, p), call, x, n)
  {
  }

  lemma PhaseOpen(s: State, p: int, call: Step, x: int, n: int)
    requires IsProc(s, p) && Ready(s, p) && IsSem(s, x) && Phase(s.procs[p], call, x, n) && call.Open? && call.p == p
    requires s.procs[p].at == OpenAcquire || s.procs[p].at == OpenTest
    requires 0 <= call.value
    ensures PhaseMoved(s, GoOpen(s, p), call, x, n)
  {
  }

  lemma PhaseClose(s: State, p: int, call: Step, x: int, n: int)
    requires IsProc(s, p) && Ready(s, p) && IsSem(s, x) && Phase(s.procs[p], call, x, n) && call.Close? && call.p == p
    requires s.procs[p].at == CloseAcquire || s.procs[p].at == CloseTest
    ensures PhaseMoved(s, GoClose(s, p), call, x, n)
  {
  }

  /** A release ends the call. */
  predicate Returns(at: Label) {
    at == DownRelease || at == UpRelease || at == OpenRelease || at == CloseRelease
  }

  lemma PhaseGo(s: State, p: int, call: Step, x: int, n: int)
    requires Inv(s) && IsProc(s, p) && Ready(s, p) && IsSem(s, x) && IsCall(call, x) && call.p == p
    requires Phase(s.procs[p], call, x, n) && !Returns(s.procs[p].at)
    ensures PhaseMoved(s, Advance(s, p), call, x, n)
  {
    assert LoopOk(s, p) && ValueOk(s.sems[x]);
    var at := s.procs[p].at;
    if at == DownAcquire || at == DownTest || at == DownLoop {
      PhaseDown(s, p, call, x, n);
    } else if InLoop(at) {
      PhaseSleep(s, p, call, x, n);
    } else if at == UpAcquire || at == UpTest {
      PhaseUp(s, p, call, x, n);
    } else if at == OpenAcquire || at == OpenTest {
      PhaseOpen(s, p, call, x, n);
    } else if at == CloseAcquire || at == CloseTest {
      PhaseClose(s, p, call, x, n);
    } else {
      PhaseWake(s, p, call, x, n);
    }
  }

  /** Any step of a run during the call. */
  lemma PhaseStep(s: State, step: Step, call: Step, x: int, n: int)
    requires Inv(s) && Enabled(s, step) && IsProc(s, call.p) && IsSem(s, x) && IsCall(call, x)
    requires Phase(s.procs[call.p], call, x, n)
    requires IsProc(Apply(s, step), call.p) && Apply(s, step).procs[call.p].at != Idle
    ensures IsSem(Apply(s, step), x)
    ensures var e := step.p == call.p && TakesEffect(s, step, call, x);
      && Phase(Apply(s, step).procs[call.p], call, x, n + Count(e))
      && (step.p == call.p && !e ==> ValueSame(s, Apply(s, step), x))
  {
    if step.p != call.p {
      PhaseOther(s, step, call, x, n);
    } else if step.Go? {
      PhaseOwn(s, call, x, n);
    } else {
      PhaseSched(s, step, call, x, n);
    }
  }

  lemma PhaseOther(s: State, step: Step, call: Step, x: int, n: int)
    requires Enabled(s, step) && IsProc(s, call.p) && IsSem(s, x) && step.p != call.p
    requires Phase(s.procs[call.p], call, x, n)
    ensures IsSem(Apply(s, step), x) && IsProc(Apply(s, step), call.p)
    ensures Phase(Apply(s, step).procs[call.p], call, x, n)
  {
    if step.Go? {
      OthersKept(s, step.p, call.p);
    }
  }

  /** A scheduler's step on the caller. */
  lemma PhaseSched(s: State, step: Step, call: Step, x: int, n: int)
    requires Enabled(s, step) && step.p == call.p && IsSem(s, x) && !step.Go? && s.procs[call.p].at != Idle
    requires Phase(s.procs[call.p], call, x, n)
    ensures ValueSame(s, Apply(s, step), x) && IsProc(Apply(s, step), call.p)
    ensures Phase(Apply(s, step).procs[call.p], call, x, n)
  {
  }

  lemma PhaseOwn(s: State, call: Step, x: int, n: int)
    requires Inv(s) && IsProc(s, call.p) && Ready(s, call.p) && IsSem(s, x) && IsCall(call, x)
    requires Phase(s.procs[call.p], call, x, n) && Advance(s, call.p).procs[call.p].at != Idle
    ensures PhaseMoved(s, Advance(s, call.p), call, x, n)
  {
    if Returns(s.procs[call.p].at) {
      ReturnIsIdle(s, call.p);
    } else {
      PhaseGo(s, call.p, call, x, n);
    }
  }

  lemma ReturnIsIdle(s: State, p: int)
    requires IsProc(s, p) && Ready(s, p) && Returns(s.procs[p].at)
    ensures Advance(s, p).procs[p].at == Idle && Advance(s, p).procs[p].ok == s.procs[p].ok
  {
  }

  lemma {:induction false} CallRun(s: State, steps: seq<Step>, t: State, call: Step, x: int, n: int)
    requires Inv(s) && Runs(s, steps, t) && CleanRun(s, steps) && InCall(s, steps, call.p)
    requires IsSem(s, x) && IsCall(call, x) && Phase(s.procs[call.p], call, x, n)
    ensures Inv(t) && IsProc(t, call.p) && IsSem(t, x)
    ensures Phase(t.procs[call.p], call, x, n + Effects(s, steps, call, x)) && OnlyEffects(s, steps, call, x)
    decreases |steps|
  {
    if steps != [] {
      var u := Apply(s, steps[0]);
      StepKeepsInvIff(s, steps[0]);
      PhaseStep(s, steps[0], call, x, n);
      CallRun(u, steps[1..], t, call, x, n + Count(steps[0].p == call.p && TakesEffect(s, steps[0], call, x)));
    }
  }

  /**
   What a call returns, however it is interleaved: from the call in s to its return from t the caller
   changes the value of x at most once, as the call's effect says, and it is told success if and only
   if it has.
   */
  lemma CallReturns(s: State, call: Step, x: int, steps: seq<Step>, t: State)
    requires Inv(s) && Enabled(s, call) && IsCall(call, x) && IsSem(s, x)
    requires Runs(Apply(s, call), steps, t) && CleanRun(Apply(s, call), steps) && InCall(Apply(s, call), steps, call.p)
    requires IsProc(t, call.p) && Ready(t, call.p) && Advance(t, call.p).procs[call.p].at == Idle
    ensures OnlyEffects(Apply(s, call), steps, call, x)
    ensures Effects(Apply(s, call), steps, call, x) == if Advance(t, call.p).procs[call.p].ok then 1 else 0
  {
    CallStarts(s, call, x);
    StepKeepsInvIff(s, call);
    CallRun(Apply(s, call), steps, t, call, x, 0);
    CallEnds(t, call, x, Effects(Apply(s, call), steps, call, x));
  }

  lemma CallStarts(s: State, call: Step, x: int)
    requires Enabled(s, call) && IsCall(call, x) && IsSem(s, x)
    ensures var t := Apply(s, call); IsSem(t, x) && IsProc(t, call.p) && Phase(t.procs[call.p], call, x, 0)
  {
  }

  lemma CallEnds(t: State, call: Step, x: int, n: int)
    requires Inv(t) && IsProc(t, call.p) && Ready(t, call.p) && IsSem(t, x) && IsCall(call, x)
    requires Phase(t.procs[call.p], call, x, n) && Advance(t, call.p).procs[call.p].at == Idle
    ensures n == Count(Advance(t, call.p).procs[call.p].ok)
  {
    if Returns(t.procs[call.p].at) {
      ReturnIsIdle(t, call.p);
    } else {
      PhaseGo(t, call.p, call, x, n);
    }
  }

  /** A call on no semaphore, and a sem_open with a negative value, fail at once and change nothing. */
  lemma BadCallFails(s: State, call: Step)
    requires Enabled(s, call) && (call.Down? || call.Up? || call.Open? || call.Close?)
    requires !IsSem(s, call.x) || (call.Open? && call.value < 0)
    ensures var t := Apply(s, call);
      t.sems == s.sems && IsProc(t, call.p) && t.procs == s.procs[call.p := s.procs[call.p].(ok := false)]
  {
  }

  // ------------------------------------------------------------------ no deadlock

  /** A process in a call goes on, or a scheduler lets go of a lock. */
  ghost predicate SomethingRuns(s: State) {
    exists step :: Enabled(s, step) && (step.SchedRelease? || step.Go?)
  }

  lemma ProcessRuns(s: State, p: int)
    requires IsProc(s, p) && Ready(s, p)
    ensures SomethingRuns(s)
  {
    assert Enabled(s, Go(p));
  }

  /** Whoever holds a p->lock needs no other lock to go on. */
  lemma LockIsGivenBack(s: State, e: int)
    requires AllLocks(s) && IsProc(s, e) && s.procs[e].lock != NOBODY
    ensures SomethingRuns(s)
  {
    var h := s.procs[e].lock;
    assert LocksOk(s, e);
    if h == SCHED {
      assert Enabled(s, SchedRelease(e));
    } else {
      assert LocksOk(s, h);
      ProcessRuns(s, h);
    }
  }

  /** Where a process waits for a p->lock, if it does not wait for the lock of a semaphore. */
  lemma WaitsForLock(s: State, p: int) returns (e: int)
    requires AllLocks(s) && IsProc(s, p) && !Ready(s, p) && s.procs[p].at != Idle && s.procs[p].at != Asleep
    requires UsesSem(s.procs[p].at) ==>
      IsSem(s, s.procs[p].sem) && (s.sems[s.procs[p].sem].holder == NOBODY || s.sems[s.procs[p].sem].holder == p)
    ensures IsProc(s, e) && s.procs[e].lock != NOBODY
  {
    var a := s.procs[p];
    assert LocksOk(s, p) && (UsesSem(a.at) ==> HolderOk(s, a.sem));
    e := if a.at == SleepAcquire then p else a.i;
  }

  /** No deadlock: as long as some process is in a call and not asleep, something goes on. */
  lemma NoDeadlock(s: State, p: int)
    requires Inv(s) && IsProc(s, p) && s.procs[p].at != Idle && s.procs[p].at != Asleep
    ensures SomethingRuns(s)
  {
    assert LocksOk(s, p);
    var q := p;
    if UsesSem(s.procs[p].at) && s.sems[s.procs[p].sem].holder != NOBODY {
      q := s.sems[s.procs[p].sem].holder;
      assert HolderOk(s, s.procs[p].sem) && LocksOk(s, q);
    }
    if Ready(s, q) {
      ProcessRuns(s, q);
    } else {
      var e := WaitsForLock(s, q);
      LockIsGivenBack(s, e);
    }
  }
}
