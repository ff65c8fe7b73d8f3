/**
 What fork, wait and kill of kernel/proc.c come to, for the state machine of ExitWait: whose child a
 new process is, when wait gives up and when it sleeps, and whom kill marks.
 */
module Outcomes {
  import opened ExitWait

  // ------------------------------------------------------------------ children

  ghost predicate HasChild(s: State, p: int) {
    exists c :: IsProc(s, c) && s.procs[c].parent == p
  }

  /** In wait, behind the test of havekids. */
  predicate Committed(at: Label) {
    at == WaitKilled || at == WaitDecided || at == SleepAcquire || at == SleepRelease
  }

  /** In fork, once the child has its parent and before it may run. */
  predicate Bearing(at: Label) {
    at == ForkRelease || at == ForkLock || at == ForkStart
  }

  /** havekids is true of the table as long as wait_lock is held; the entry fork is making is p's child. */
  ghost predicate KinOk(s: State, p: int)
    requires IsProc(s, p)
  {
    var a := s.procs[p];
    && (Scans(a.at) && a.haveKids ==> HasChild(s, p))
    && (Committed(a.at) ==> a.haveKids)
    && (Bearing(a.at) ==> IsProc(s, a.i) && s.procs[a.i].parent == p)
  }

  ghost predicate AllKin(s: State) {
    forall p {:trigger KinOk(s, p)} :: IsProc(s, p) ==> KinOk(s, p)
  }

  lemma ChildStays(s: State, t: State, p: int, c: int)
    requires IsProc(s, c) && |t.procs| == |s.procs| && s.procs[c].parent == p && t.procs[c].parent == p
    ensures HasChild(t, p)
  {
  }

  /** Another process's step. */
  lemma KinOther(s: State, p: int, q: int)
    requires Steps(s, p) && IsProc(s, q) && q != p && KinOk(s, q)
    ensures KinOk(Advance(s, p), q)
  {
    var t := Advance(s, p);
    assert LocksOk(s, q) && StateOk(s.procs[q], q) && StateOk(s.procs[p], p) && MakeOk(s, p) && ParentOk(s, p);
    KeptAdvance(s, p, q);
    if Scans(s.procs[q].at) && s.procs[q].haveKids {
      var c :| IsProc(s, c) && s.procs[c].parent == q;
      NotHolder(s, p, c);
      ChildStays(s, t, q, c);
    }
    if Bearing(s.procs[q].at) {
      assert MakeOk(s, q);
      KeptAdvance(s, p, s.procs[q].i);
    }
  }

  lemma KinOwnCheck(s: State, p: int)
    requires IsProc(s, p) && Ready(s, p) && ScanOk(s, p) && s.procs[p].at == WaitCheck && ParentOk(s, s.procs[p].i)
    ensures KinOk(GoWait(s, p), p)
  {
    ghost var t := GoWait(s, p);
    if t.procs[p].at == WaitPass {
      ChildStays(s, t, p, s.procs[p].i);
    }
  }

  lemma KinOwnScan(s: State, p: int)
    requires IsProc(s, p) && Ready(s, p) && KinOk(s, p) && AtWait(s.procs[p].at) && s.procs[p].at != WaitCheck
    ensures KinOk(GoWait(s, p), p)
  {
    if Scans(s.procs[p].at) && s.procs[p].haveKids {
      var c :| IsProc(s, c) && s.procs[c].parent == p;
      ChildStays(s, GoWait(s, p), p, c);
    }
  }

  lemma KinOwnDecide(s: State, p: int)
    requires IsProc(s, p) && Ready(s, p) && KinOk(s, p) && AtDecide(s.procs[p].at)
    ensures KinOk(GoDecide(s, p), p)
  {
    if s.procs[p].haveKids {
      var c :| IsProc(s, c) && s.procs[c].parent == p;
      ChildStays(s, GoDecide(s, p), p, c);
    }
  }

  lemma KinOwnSleep(s: State, p: int)
    requires IsProc(s, p) && Ready(s, p) && KinOk(s, p) && AtSleep(s.procs[p].at)
    ensures KinOk(GoSleep(s, p), p)
  {
    if s.procs[p].at == SleepAcquire {
      var c :| IsProc(s, c) && s.procs[c].parent == p;
      ChildStays(s, GoSleep(s, p), p, c);
    } else {
      FlowSleep(s, p);
    }
  }

  lemma FlowSleep(s: State, p: int)
    requires IsProc(s, p) && Ready(s, p) && AtSleep(s.procs[p].at) && s.procs[p].at != SleepAcquire
    ensures !Scans(GoSleep(s, p).procs[p].at) && !Bearing(GoSleep(s, p).procs[p].at)
  {
  }

  lemma KinOwnFork(s: State, p: int)
    requires IsProc(s, p) && Ready(s, p) && KinOk(s, p) && AtStart(s.procs[p].at) && MakeOk(s, p)
    ensures KinOk(GoForkStart(s, p), p)
  {
  }

  lemma KinOwn(s: State, p: int)
    requires IsProc(s, p) && MayStep(s, p) && KinOk(s, p) && ScanOk(s, p)
    requires s.procs[p].at == WaitCheck ==> ParentOk(s, s.procs[p].i)
    ensures KinOk(Advance(s, p), p)
  {
    if AtWait(s.procs[p].at) {
      KinOwnWait(s, p);
    } else if AtDecide(s.procs[p].at) || AtSleep(s.procs[p].at) {
      KinOwnSleeper(s, p);
    } else if AtStart(s.procs[p].at) {
      KinOwnFork(s, p);
    } else {
      KinOwnElse(s, p);
    }
  }

  lemma KinOwnWait(s: State, p: int)
    requires IsProc(s, p) && Ready(s, p) && KinOk(s, p) && ScanOk(s, p) && AtWait(s.procs[p].at)
    requires s.procs[p].at == WaitCheck ==> ParentOk(s, s.procs[p].i)
    ensures KinOk(Advance(s, p), p)
  {
    if s.procs[p].at == WaitCheck {
      KinOwnCheck(s, p);
    } else {
      KinOwnScan(s, p);
    }
  }

  lemma KinOwnSleeper(s: State, p: int)
    requires IsProc(s, p) && Ready(s, p) && KinOk(s, p) && (AtDecide(s.procs[p].at) || AtSleep(s.procs[p].at))
    ensures KinOk(Advance(s, p), p)
  {
    if AtDecide(s.procs[p].at) {
      KinOwnDecide(s, p);
    } else {
      KinOwnSleep(s, p);
    }
  }

  lemma KinOwnElse(s: State, p: int)
    requires IsProc(s, p) && MayStep(s, p)
    requires !AtWait(s.procs[p].at) && !AtDecide(s.procs[p].at) && !AtSleep(s.procs[p].at) && !AtStart(s.procs[p].at)
    ensures KinOk(Advance(s, p), p)
  {
    MovesAdvance(s, p, p);
    FlowElse(p, s.procs[p], Advance(s, p).procs[p]);
  }

  lemma FlowElse(p: int, a: Proc, b: Proc)
    requires Flow(p, a, b) && !AtWait(a.at) && !AtDecide(a.at) && !AtSleep(a.at) && !AtStart(a.at)
    ensures !Scans(b.at) && !Committed(b.at) && !Bearing(b.at)
  {
  }

  lemma KinFail(s: State, t: State, p: int, q: int)
    requires AllFamilies(s) && FailShape(s, t, p) && IsProc(s, q) && KinOk(s, q)
    ensures KinOk(t, q)
  {
    assert FailKept(p, s.procs[p], q, s.procs[q], t.procs[q]);
    if Scans(s.procs[q].at) && s.procs[q].haveKids {
      var c :| IsProc(s, c) && s.procs[c].parent == q;
      FailSame(s, t, p, c);
      ChildStays(s, t, q, c);
    }
    if Bearing(s.procs[q].at) {
      FailSame(s, t, p, s.procs[q].i);
    }
  }

  lemma KinOutside(s: State, t: State, p: int, q: int)
    requires IsProc(s, p) && IsProc(s, q) && |t.procs| == |s.procs| && t == Put(s, p, t.procs[p])
    requires Outside(s.procs[p], t.procs[p], p) && KinOk(s, q)
    requires t.procs[p].at != s.procs[p].at ==> !Committed(t.procs[p].at) && !Bearing(t.procs[p].at)
    ensures KinOk(t, q)
  {
    if Scans(s.procs[q].at) && s.procs[q].haveKids {
      var c :| IsProc(s, c) && s.procs[c].parent == q;
      ChildStays(s, t, q, c);
    }
  }

  lemma StepKeepsKin(s: State, step: Step)
    requires Inv(s) && AllKin(s) && Enabled(s, step)
    ensures AllKin(Apply(s, step))
  {
    var p, t := step.p, Apply(s, step);
    assert StateOk(s.procs[p], p) && ScanOk(s, p) && ExitOk(s, p) && KinOk(s, p);
    if step.Fail? {
      FailHasShape(s, p);
    } else if !step.Go? {
      OutsideHasShape(s, step);
    }
    forall q | IsProc(t, q)
      ensures KinOk(t, q)
    {
      KinStep(s, step, q);
    }
  }

  lemma KinStep(s: State, step: Step, q: int)
    requires Inv(s) && AllKin(s) && Enabled(s, step) && IsProc(s, q)
    ensures |Apply(s, step).procs| == |s.procs| && KinOk(Apply(s, step), q)
  {
    if step.Go? {
      KinAdvance(s, step.p, q);
    } else {
      KinElse(s, step, q);
    }
  }

  lemma KinElse(s: State, step: Step, q: int)
    requires Inv(s) && AllKin(s) && Enabled(s, step) && IsProc(s, q) && !step.Go?
    ensures |Apply(s, step).procs| == |s.procs| && KinOk(Apply(s, step), q)
  {
    var p, t := step.p, Apply(s, step);
    assert KinOk(s, q) && StateOk(s.procs[p], p) && ExitOk(s, p);
    if step.Fail? {
      FailHasShape(s, p);
      KinFail(s, t, p, q);
    } else {
      KinCall(s, step, q);
    }
  }

  lemma KinCall(s: State, step: Step, q: int)
    requires Enabled(s, step) && !step.Go? && !step.Fail? && IsProc(s, q) && KinOk(s, q)
    requires StateOk(s.procs[step.p], step.p) && ExitOk(s, step.p)
    ensures |Apply(s, step).procs| == |s.procs| && KinOk(Apply(s, step), q)
  {
    OutsideHasShape(s, step);
    KinOutside(s, Apply(s, step), step.p, q);
  }

  lemma KinAdvance(s: State, p: int, q: int)
    requires Inv(s) && AllKin(s) && IsProc(s, p) && Ready(s, p) && IsProc(s, q)
    ensures KinOk(Advance(s, p), q)
  {
    assert KinOk(s, q);
    if q == p {
      assert StateOk(s.procs[p], p) && ScanOk(s, p) && MakeOk(s, p) && ParentOk(s, p);
      assert s.procs[p].at == WaitCheck ==> ParentOk(s, s.procs[p].i);
      KinOwn(s, p);
    } else {
      KinOther(s, p, q);
    }
  }

  lemma {:induction false} RunKeepsKin(s: State, steps: seq<Step>, t: State)
    requires Inv(s) && AllKin(s) && Runs(s, steps, t)
    ensures Inv(t) && AllKin(t)
    decreases |steps|
  {
    if steps != [] {
      StepKeepsInv(s, steps[0]);
      StepKeepsKin(s, steps[0]);
      RunKeepsKin(Apply(s, steps[0]), steps[1..], t);
    }
  }

  lemma InitialKin(s: State)
    requires Initial(s)
    ensures AllKin(s)
  {
  }

  // ------------------------------------------------------------------ wait

  /**
   wait sleeps only as long as there is something to wait for: in every run, a process about to sleep
   in wait has a child, and none that is a zombie.
   */
  lemma SleepsWithChild(s: State, steps: seq<Step>, t: State, p: int)
    requires Initial(s) && Runs(s, steps, t) && IsProc(t, p)
    requires t.procs[p].at == SleepAcquire || t.procs[p].at == SleepRelease
    ensures t.waiter == p && HasChild(t, p)
    ensures forall c :: IsProc(t, c) && t.procs[c].parent == p ==> t.procs[c].state != ZOMBIE
  {
    InitialInv(s);
    InitialKin(s);
    RunKeepsKin(s, steps, t);
    assert KinOk(t, p) && ScanOk(t, p) && LocksOk(t, p);
    SleeperKin(t, p);
  }

  lemma SleeperKin(t: State, p: int)
    requires IsProc(t, p) && KinOk(t, p) && ScanOk(t, p) && Committed(t.procs[p].at)
    ensures HasChild(t, p)
    ensures forall c :: IsProc(t, c) && t.procs[c].parent == p ==> t.procs[c].state != ZOMBIE
  {
  }

  /** After a scan without a zombie, wait gives up if and only if there is no child or p has been killed. */
  lemma WaitDecides(s: State, p: int)
    requires Inv(s) && AllKin(s) && IsProc(s, p) && Ready(s, p) && AtDecide(s.procs[p].at)
    ensures forall c :: IsProc(s, c) && s.procs[c].parent == p ==> s.procs[c].state != ZOMBIE
    ensures var next := Advance(s, p).procs[p].at;
      if s.procs[p].at == WaitDecide then next == if HasChild(s, p) then WaitKilled else WaitQuit
      else
        && HasChild(s, p)
        && next == if s.procs[p].at == WaitKilled then WaitDecided
                   else if s.procs[p].killed then WaitQuit else SleepAcquire
  {
    assert ScanOk(s, p) && KinOk(s, p) && Advance(s, p) == GoDecide(s, p);
  }

  // ------------------------------------------------------------------ parents

  /** Process p makes r the parent of c. */
  predicate NewParent(s: State, p: int, c: int, r: int)
    requires IsProc(s, p) && IsProc(s, c)
  {
    var a, q := s.procs[p], s.procs[c];
    match a.at
    case ForkParent => c == a.i && q.maker == p && q.state == USED && q.parent == NONE && r == p
    case ReparentNext => c == a.r && q.parent == p && r == INIT
    case WaitCheck => c == a.i && q.state == ZOMBIE && q.parent == p && r == NONE
    case _ => false
  }

  /**
   A parent changes in three places: fork gives the child it has just made to itself, exit its own
   children to init, and wait frees the entry of a zombie child of its own.
   */
  lemma WhoChangesParent(s: State, step: Step, c: int)
    requires Inv(s) && Enabled(s, step) && IsProc(s, c)
    ensures |Apply(s, step).procs| == |s.procs|
    ensures Apply(s, step).procs[c].parent != s.procs[c].parent ==>
      step.Go? && s.waiter == step.p && NewParent(s, step.p, c, Apply(s, step).procs[c].parent)
  {
    var p, t := step.p, Apply(s, step);
    assert StateOk(s.procs[p], p) && MakeOk(s, p) && ParentOk(s, p) && ExitOk(s, p) && LocksOk(s, p) && ScanOk(s, p);
    if step.Fail? {
      FailHasShape(s, p);
      FailSame(s, t, p, c);
    } else if !step.Go? {
      OutsideHasShape(s, step);
    } else {
      KeptAdvance(s, p, c);
      if s.waiter != p {
        NotHolder(s, p, c);
      }
    }
  }

  /**
   allocproc looks at every entry once, in order, and takes the first it finds unused: its pid is one that
   no process has or had, it has no parent yet, and it is marked if the entry was. Without one it fails.
   */
  lemma ForkTakes(s: State, p: int)
    requires Inv(s) && IsProc(s, p) && Ready(s, p)
    requires s.procs[p].at == ForkNext || s.procs[p].at == ForkCheck || s.procs[p].at == ForkPass
    ensures var a, b := s.procs[p], Advance(s, p).procs[p];
      if a.at == ForkNext then b.i == a.i && b.at == if IsProc(s, a.i) then ForkCheck else Idle
      else if a.at == ForkPass then b.i == a.i + 1 && b.at == ForkNext
      else b.i == a.i && IsProc(s, a.i) && b.at == if s.procs[a.i].state == UNUSED then ForkCopy else ForkPass
    ensures Advance(s, p).procs[p].at == ForkCopy ==> Taken(s, Advance(s, p), s.procs[p].i, p)
    ensures Advance(s, p).procs[p].at == ForkPass ==>
      Advance(s, p) == s.(procs := s.procs[p := s.procs[p].(at := ForkPass)])
  {
    assert LocksOk(s, p) && StateOk(s.procs[p], p) && Advance(s, p) == GoForkAlloc(s, p);
    if s.procs[p].at == ForkCheck {
      var c := s.procs[p].i;
      assert PidOk(s, c) && ParentOk(s, c);
      forall q | IsProc(s, q)
        ensures s.procs[q].pid != s.nextPid
      {
        assert PidOk(s, q);
      }
    }
  }

  /** Entry c is p's new one, with a new pid. */
  ghost predicate Taken(s: State, t: State, c: int, p: int) {
    && IsProc(s, c) && c != p && |t.procs| == |s.procs|
    && t.procs[c].state == USED && t.procs[c].maker == p && t.procs[c].parent == NONE
    && t.procs[c].pid == s.nextPid < t.nextPid && s.nextPid !in s.exited && t.procs[c].killed == s.procs[c].killed
    && forall q :: IsProc(s, q) ==> s.procs[q].pid != s.nextPid && (q != p && q != c ==> t.procs[q] == s.procs[q])
  }

  /** The process fork starts is the entry it made, with the pid it was given and fork's caller as its parent. */
  lemma ForkStarts(s: State, p: int)
    requires Inv(s) && AllKin(s) && IsProc(s, p) && Ready(s, p) && s.procs[p].at == ForkStart
    ensures var c, t := s.procs[p].i, Advance(s, p);
      && IsProc(s, c) && c != p && s.procs[c].maker == p && s.procs[c].state == USED && s.procs[c].lock == p
      && t.procs[c] == s.procs[c].(state := RUNNABLE) && t.procs[c].parent == p && t.procs[c].pid != 0
      && forall q :: IsProc(s, q) && q != p && q != c ==> t.procs[q] == s.procs[q]
  {
    assert KinOk(s, p) && MakeOk(s, p) && LocksOk(s, p) && PidOk(s, s.procs[p].i);
    assert Advance(s, p) == GoForkStart(s, p);
  }

  /** A process that turns zombie leaves no child behind. */
  lemma ZombieHasNoChild(s: State, p: int)
    requires Inv(s) && IsProc(s, p) && !Live(s.procs[p])
    ensures !HasChild(s, p)
  {
    forall c | IsProc(s, c)
      ensures s.procs[c].parent != p
    {
      assert ParentOk(s, c);
    }
  }

  // ------------------------------------------------------------------ wakeup

  /** The step is wakeup's or kill's look at entry c, and c sleeps on that channel or has that pid. */
  predicate Wakes(s: State, step: Step, c: int)
    requires IsProc(s, step.p) && IsProc(s, c)
  {
    var a, q := s.procs[step.p], s.procs[c];
    && step.Go? && c == a.i && q.state == SLEEPING
    && ((a.at == WakeCheck && q.chan == a.target) || (a.at == KillCheck && q.pid == a.target))
  }

  /** A sleeper is woken by a wakeup on its channel, by a kill of its pid, and by nothing else. */
  lemma WhoWakes(s: State, step: Step, c: int)
    requires Inv(s) && Enabled(s, step) && IsProc(s, c) && s.procs[c].state == SLEEPING
    ensures |Apply(s, step).procs| == |s.procs|
    ensures Apply(s, step).procs[c].state == if Wakes(s, step, c) then RUNNABLE else SLEEPING
  {
    var p := step.p;
    assert StateOk(s.procs[p], p) && StateOk(s.procs[c], c) && MakeOk(s, p) && ParentOk(s, p) && MakeOk(s, c);
    if step.Go? {
      assert LocksOk(s, p) && LocksOk(s, c);
      WakeStep(s, p, c);
    } else if step.Fail? {
      FailHasShape(s, p);
      assert FailKept(p, s.procs[p], c, s.procs[c], Apply(s, step).procs[c]);
    }
  }

  lemma WakeStep(s: State, p: int, c: int)
    requires IsProc(s, p) && MayStep(s, p) && LocksOk(s, p) && IsProc(s, c)
    requires s.procs[c].state == SLEEPING && StateOk(s.procs[c], c) && MakeOk(s, c)
    ensures Advance(s, p).procs[c].state == if Wakes(s, Go(p), c) then RUNNABLE else SLEEPING
  {
    MovesAdvance(s, p, c);
    if s.procs[p].at == WakeCheck || s.procs[p].at == KillCheck {
      Looks(s, p);
    }
  }

  lemma Looks(s: State, p: int)
    requires IsProc(s, p) && Ready(s, p) && (s.procs[p].at == WakeCheck || s.procs[p].at == KillCheck)
    requires s.procs[p].state == RUNNING
    ensures var a, q, t := s.procs[p], s.procs[s.procs[p].i], Advance(s, p);
      t.procs[a.i].state ==
        if q.state == SLEEPING && (if a.at == WakeCheck then q.chan == a.target else q.pid == a.target) then RUNNABLE
        else q.state
  {
    assert Advance(s, p) == if s.procs[p].at == WakeCheck then GoWake(s, p) else GoKill(s, p);
  }

  // ------------------------------------------------------------------ kill

  /**
   An entry is marked only where a kill has found the pid it looks for, or by a fault of its own process,
   and the mark goes when the entry is freed, and only then. Whose entry that may be, over runs, is in Marks.
   */
  lemma WhoIsKilled(s: State, step: Step, c: int)
    requires Inv(s) && Enabled(s, step) && IsProc(s, c)
    ensures |Apply(s, step).procs| == |s.procs|
    ensures var a, t := s.procs[step.p], Apply(s, step);
      && (t.procs[c].killed && !s.procs[c].killed ==>
          step.Go? && ((a.at == KillCheck && c == a.i && s.procs[c].pid == a.target)
                       || (a.at == FaultMark && c == step.p)))
      && (s.procs[c].killed && !t.procs[c].killed ==> s.procs[c].state != UNUSED && t.procs[c].state == UNUSED)
      && (s.procs[c].state != UNUSED && t.procs[c].state == UNUSED ==> !t.procs[c].killed)
  {
    var p := step.p;
    if step.Go? {
      KilledInStep(s, p, c);
    } else if step.Fail? {
      FailHasShape(s, p);
      assert FailKept(p, s.procs[p], c, s.procs[c], Apply(s, step).procs[c]);
    }
  }

  /** What a step of p does to the mark of c. */
  predicate MarkKept(s: State, t: State, p: int, c: int)
    requires IsProc(s, p) && IsProc(s, c)
  {
    && |t.procs| == |s.procs|
    && (t.procs[c].killed == s.procs[c].killed
        || (t.procs[c].killed && s.procs[p].at == KillCheck && c == s.procs[p].i && s.procs[c].pid == s.procs[p].target)
        || (t.procs[c].killed && s.procs[p].at == FaultMark && c == p)
        || (!t.procs[c].killed && t.procs[c].state == UNUSED && s.procs[c].state != UNUSED))
    && (s.procs[c].state != UNUSED && t.procs[c].state == UNUSED ==> !t.procs[c].killed)
  }

  lemma KilledInStep(s: State, p: int, c: int)
    requires Inv(s) && IsProc(s, p) && Ready(s, p) && IsProc(s, c)
    ensures MarkKept(s, Advance(s, p), p, c)
  {
    var at := s.procs[p].at;
    if AtAlloc(at) {
      MarkInAlloc(s, p, c);
    } else if AtStart(at) {
      MarkInStart(s, p, c);
    } else if AtExit(at) || Waking(at) {
      MarkInExit(s, p, c);
    } else if AtWait(at) {
      MarkInWait(s, p, c);
    } else if AtDecide(at) || AtSleep(at) {
      MarkInSleep(s, p, c);
    } else if AtFault(at) {
      MarkInFault(s, p, c);
    } else {
      MarkInKill(s, p, c);
    }
  }

  lemma MarkInAlloc(s: State, p: int, c: int)
    requires IsProc(s, p) && Ready(s, p) && AtAlloc(s.procs[p].at) && IsProc(s, c)
    ensures MarkKept(s, GoForkAlloc(s, p), p, c)
  {
  }

  lemma MarkInStart(s: State, p: int, c: int)
    requires IsProc(s, p) && Ready(s, p) && AtStart(s.procs[p].at) && IsProc(s, c)
    ensures MarkKept(s, GoForkStart(s, p), p, c)
  {
  }

  lemma MarkInExit(s: State, p: int, c: int)
    requires IsProc(s, p) && Ready(s, p) && IsProc(s, c)
    ensures AtExit(s.procs[p].at) ==> MarkKept(s, GoExit(s, p), p, c)
    ensures Waking(s.procs[p].at) ==> MarkKept(s, GoWake(s, p), p, c)
  {
  }

  lemma MarkInSleep(s: State, p: int, c: int)
    requires IsProc(s, p) && Ready(s, p) && IsProc(s, c)
    ensures AtDecide(s.procs[p].at) ==> MarkKept(s, GoDecide(s, p), p, c)
    ensures AtSleep(s.procs[p].at) ==> MarkKept(s, GoSleep(s, p), p, c)
  {
  }

  lemma MarkInKill(s: State, p: int, c: int)
    requires IsProc(s, p) && Ready(s, p) && IsProc(s, c) && AtKill(s.procs[p].at)
    ensures MarkKept(s, GoKill(s, p), p, c)
  {
  }

  lemma MarkInFault(s: State, p: int, c: int)
    requires IsProc(s, p) && Ready(s, p) && IsProc(s, c) && AtFault(s.procs[p].at)
    ensures MarkKept(s, GoFault(s, p), p, c)
  {
  }

  lemma MarkInWait(s: State, p: int, c: int)
    requires IsProc(s, p) && Ready(s, p) && AtWait(s.procs[p].at) && IsProc(s, c)
    requires AllWaits(s) && AllFamilies(s)
    ensures MarkKept(s, GoWait(s, p), p, c)
  {
    assert ScanOk(s, p);
    if s.procs[p].at == WaitCheck {
      assert ParentOk(s, s.procs[p].i);
    }
  }

  /**
   kill's look at one entry: exactly the process with the pid is marked, and made runnable if it sleeps.
   Then kill is over; on any other entry it goes on to the next.
   */
  lemma KillMarks(s: State, p: int)
    requires Inv(s) && IsProc(s, p) && Ready(s, p) && (s.procs[p].at == KillCheck || s.procs[p].at == KillRelease)
    ensures IsProc(s, s.procs[p].i) && s.procs[s.procs[p].i].lock == p
    ensures var a, c, t := s.procs[p], s.procs[p].i, Advance(s, p);
      if a.at == KillRelease then
        && t.procs[p].at == (if s.procs[c].pid == a.target then Idle else KillNext) && t.procs[p].i == c + 1
        && t.procs[c].lock == NOBODY && t.procs[c].killed == s.procs[c].killed
      else
        && t.procs[p].at == KillRelease && t.procs[p].i == c
        && t.procs[c].killed == (s.procs[c].killed || s.procs[c].pid == a.target)
        && (t.procs[c].state ==
            if s.procs[c].pid == a.target && s.procs[c].state == SLEEPING then RUNNABLE else s.procs[c].state)
  {
    assert LocksOk(s, p) && StateOk(s.procs[p], p);
    if s.procs[p].at == KillRelease {
      LetGo(s, p);
    } else {
      LookAt(s, p);
    }
  }

  lemma LetGo(s: State, p: int)
    requires IsProc(s, p) && Ready(s, p) && s.procs[p].at == KillRelease
    ensures var a, c, t := s.procs[p], s.procs[p].i, Advance(s, p);
      && t.procs[p].at == (if s.procs[c].pid == a.target then Idle else KillNext) && t.procs[p].i == c + 1
      && t.procs[c].lock == NOBODY && t.procs[c].killed == s.procs[c].killed
  {
  }

  lemma LookAt(s: State, p: int)
    requires IsProc(s, p) && Ready(s, p) && s.procs[p].at == KillCheck && StateOk(s.procs[p], p)
    ensures var a, c, t := s.procs[p], s.procs[p].i, Advance(s, p);
      && t.procs[p].at == KillRelease && t.procs[p].i == c
      && t.procs[c].killed == (s.procs[c].killed || s.procs[c].pid == a.target)
      && (t.procs[c].state ==
          if s.procs[c].pid == a.target && s.procs[c].state == SLEEPING then RUNNABLE else s.procs[c].state)
  {
  }

  /** kill of a pid given out before n has not passed an entry with that pid, or has marked it. */
  ghost predicate Killing(s: State, p: int, n: int)
    requires IsProc(s, p)
  {
    var a := s.procs[p];
    && AtKill(a.at) && n <= s.nextPid && 0 <= a.i
    && (0 < a.target < n ==> forall c :: IsProc(s, c) && c < a.i ==> s.procs[c].pid != a.target)
    && (a.at == KillRelease && IsProc(s, a.i) && s.procs[a.i].pid == a.target ==> s.procs[a.i].killed)
  }

  /** No step but a fork's gives an entry a pid, and that is the next one. */
  lemma PidGiven(s: State, step: Step, c: int)
    requires Inv(s) && Enabled(s, step) && IsProc(s, c)
    ensures |Apply(s, step).procs| == |s.procs| && s.nextPid <= Apply(s, step).nextPid
    ensures var pid := Apply(s, step).procs[c].pid;
      pid == s.procs[c].pid || pid == 0 || (pid == s.nextPid && s.procs[c].pid == 0)
  {
    var p := step.p;
    assert PidOk(s, c) && StateOk(s.procs[p], p) && MakeOk(s, p) && ParentOk(s, p);
    if step.Go? {
      if s.procs[p].at == ForkCheck || s.procs[p].at == WaitCheck || s.procs[p].at == ExitZombie {
      } else {
        LogKept(s, p);
        KeptAdvance(s, p, c);
      }
    }
  }

  /** The entry whose lock a kill holds keeps its pid and its mark. */
  lemma HeldByKill(s: State, step: Step, p: int)
    requires Inv(s) && Enabled(s, step) && IsProc(s, p) && step.p != p && HoldsOther(s.procs[p].at)
    ensures IsProc(s, s.procs[p].i) && |Apply(s, step).procs| == |s.procs|
    ensures var c := s.procs[p].i;
      Apply(s, step).procs[c].pid == s.procs[c].pid && (s.procs[c].killed ==> Apply(s, step).procs[c].killed)
  {
    if step.Go? {
      HeldInGo(s, step.p, p);
    } else {
      HeldElse(s, step, p);
    }
  }

  lemma HeldInGo(s: State, q: int, p: int)
    requires Inv(s) && IsProc(s, p) && IsProc(s, q) && q != p && HoldsOther(s.procs[p].at) && Ready(s, q)
    ensures IsProc(s, s.procs[p].i) && |Advance(s, q).procs| == |s.procs|
    ensures var b, a := s.procs[s.procs[p].i], Advance(s, q).procs[s.procs[p].i];
      a.pid == b.pid && (b.killed ==> a.killed)
  {
    HeldByOther(s, q, p);
    KilledInStep(s, q, s.procs[p].i);
  }

  lemma HeldElse(s: State, step: Step, p: int)
    requires Inv(s) && Enabled(s, step) && IsProc(s, p) && step.p != p && HoldsOther(s.procs[p].at) && !step.Go?
    ensures IsProc(s, s.procs[p].i) && |Apply(s, step).procs| == |s.procs|
    ensures var c := s.procs[p].i;
      Apply(s, step).procs[c].pid == s.procs[c].pid && (s.procs[c].killed ==> Apply(s, step).procs[c].killed)
  {
    assert LocksOk(s, p) && LocksOk(s, step.p);
  }

  lemma HeldByOther(s: State, q: int, p: int)
    requires Inv(s) && IsProc(s, p) && IsProc(s, q) && q != p && HoldsOther(s.procs[p].at) && Ready(s, q)
    ensures IsProc(s, s.procs[p].i) && |Advance(s, q).procs| == |s.procs|
    ensures var b, a := s.procs[s.procs[p].i], Advance(s, q).procs[s.procs[p].i];
      a.pid == b.pid && (a.state == UNUSED ==> b.state == UNUSED)
  {
    var c := s.procs[p].i;
    assert LocksOk(s, p) && LocksOk(s, q) && StateOk(s.procs[q], q) && MakeOk(s, q) && ParentOk(s, q);
    KeptAdvance(s, q, c);
  }

  lemma KillingOther(s: State, step: Step, p: int, n: int)
    requires Inv(s) && Enabled(s, step) && IsProc(s, p) && Killing(s, p, n) && step.p != p
    ensures |Apply(s, step).procs| == |s.procs| && Killing(Apply(s, step), p, n)
  {
    var t := Apply(s, step);
    assert StateOk(s.procs[p], p) && StateOk(s.procs[step.p], step.p);
    PidGiven(s, step, p);
    if 0 < s.procs[p].target < n {
      forall c | IsProc(s, c) && c < s.procs[p].i
        ensures t.procs[c].pid != s.procs[p].target
      {
        PidGiven(s, step, c);
      }
    }
    SameCall(s, step, p);
    if s.procs[p].at == KillRelease {
      HeldByKill(s, step, p);
    }
  }

  /** Another process's step leaves p where it is. */
  lemma SameCall(s: State, step: Step, p: int)
    requires Inv(s) && Enabled(s, step) && IsProc(s, p) && step.p != p && AtKill(s.procs[p].at)
    ensures |Apply(s, step).procs| == |s.procs|
    ensures var a, b := s.procs[p], Apply(s, step).procs[p]; b.at == a.at && b.i == a.i && b.target == a.target
  {
    var q := step.p;
    assert StateOk(s.procs[p], p) && StateOk(s.procs[q], q) && MakeOk(s, q) && ParentOk(s, q);
    if step.Go? {
      SameCallGo(s, q, p);
    } else if step.Fail? {
      FailHasShape(s, q);
      assert FailKept(q, s.procs[q], p, s.procs[p], Apply(s, step).procs[p]);
    }
  }

  lemma SameCallGo(s: State, q: int, p: int)
    requires IsProc(s, p) && IsProc(s, q) && q != p && MayStep(s, q) && AtKill(s.procs[p].at)
    requires StateOk(s.procs[p], p)
    ensures var a, b := s.procs[p], Advance(s, q).procs[p]; b.at == a.at && b.i == a.i && b.target == a.target
  {
    KeptAdvance(s, q, p);
  }

  lemma KillingOwn(s: State, step: Step, n: int)
    requires Enabled(s, step) && Killing(s, step.p, n) && StateOk(s.procs[step.p], step.p) && LocksOk(s, step.p)
    requires IsProc(Apply(s, step), step.p) && AtKill(Apply(s, step).procs[step.p].at)
    ensures Killing(Apply(s, step), step.p, n)
  {
    if step.Go? {
      assert Apply(s, step) == GoKill(s, step.p);
      KillingGo(s, step.p, n);
    } else {
      KillingElse(s, step, n);
    }
  }

  lemma KillingElse(s: State, step: Step, n: int)
    requires Enabled(s, step) && Killing(s, step.p, n) && StateOk(s.procs[step.p], step.p) && !step.Go?
    ensures |Apply(s, step).procs| == |s.procs| && Killing(Apply(s, step), step.p, n)
  {
  }

  lemma KillingGo(s: State, p: int, n: int)
    requires IsProc(s, p) && Ready(s, p) && Killing(s, p, n) && LocksOk(s, p) && AtKill(GoKill(s, p).procs[p].at)
    ensures Killing(GoKill(s, p), p, n)
  {
  }

  /** p is in one call of kill throughout the run. */
  ghost predicate StaysInKill(s: State, steps: seq<Step>, p: int)
    decreases |steps|
  {
    && IsProc(s, p) && AtKill(s.procs[p].at)
    && (steps != [] ==> Enabled(s, steps[0]) && StaysInKill(Apply(s, steps[0]), steps[1..], p))
  }

  lemma {:induction false} KillingRun(s: State, steps: seq<Step>, t: State, p: int, n: int)
    requires Inv(s) && Runs(s, steps, t) && StaysInKill(s, steps, p) && Killing(s, p, n)
    ensures Inv(t) && IsProc(t, p) && Killing(t, p, n)
    decreases |steps|
  {
    if steps != [] {
      StepKeepsInv(s, steps[0]);
      if steps[0].p == p {
        assert StateOk(s.procs[p], p) && LocksOk(s, p);
        KillingOwn(s, steps[0], n);
      } else {
        KillingOther(s, steps[0], p, n);
      }
      KillingRun(Apply(s, steps[0]), steps[1..], t, p, n);
    }
  }

  /**
   kill of any pid, from its call in state s to its return from state t, however it is interleaved: it
   returns 0 at an entry with that pid, which is marked, and that entry is unused if the pid is 0. It
   returns -1 only behind the last entry, and then, if the pid had been given out before the call or is
   negative, no process has it.
   */
  lemma KillFinds(s: State, p: int, pid: int, steps: seq<Step>, t: State)
    requires Inv(s) && Enabled(s, Kill(p, pid))
    requires Runs(Apply(s, Kill(p, pid)), steps, t) && StaysInKill(Apply(s, Kill(p, pid)), steps, p)
    requires IsProc(t, p) && Ready(t, p) && Advance(t, p).procs[p].at == Idle
    ensures var c := t.procs[p].i;
      if IsProc(t, c) then
        && t.procs[p].at == KillRelease && t.procs[c].pid == pid && t.procs[c].killed
        && (pid == 0 <==> t.procs[c].state == UNUSED)
      else
        && t.procs[p].at == KillNext
        && (pid != 0 && pid < s.nextPid ==> forall d :: IsProc(t, d) ==> t.procs[d].pid != pid)
  {
    var s1 := Apply(s, Kill(p, pid));
    StepKeepsInv(s, Kill(p, pid));
    KillingRun(s1, steps, t, p, s.nextPid);
    TargetStays(s1, steps, t, p);
    KillEnds(t, p, s.nextPid);
    forall d | IsProc(t, d)
      ensures t.procs[d].pid >= 0 && (t.procs[d].pid == 0 <==> t.procs[d].state == UNUSED)
    {
      assert PidOk(t, d);
    }
  }

  lemma KillEnds(t: State, p: int, n: int)
    requires IsProc(t, p) && Ready(t, p) && Killing(t, p, n) && Advance(t, p).procs[p].at == Idle
    ensures var a := t.procs[p];
      if IsProc(t, a.i) then a.at == KillRelease && t.procs[a.i].pid == a.target && t.procs[a.i].killed
      else a.at == KillNext && (0 < a.target < n ==> forall d :: IsProc(t, d) ==> t.procs[d].pid != a.target)
  {
    assert Advance(t, p) == GoKill(t, p);
  }

  lemma {:induction false} TargetStays(s: State, steps: seq<Step>, t: State, p: int)
    requires Inv(s) && Runs(s, steps, t) && StaysInKill(s, steps, p)
    ensures IsProc(t, p) && t.procs[p].target == s.procs[p].target
    decreases |steps|
  {
    if steps != [] {
      StepKeepsInv(s, steps[0]);
      if steps[0].p == p {
        TargetInStep(s, steps[0]);
      } else {
        SameCall(s, steps[0], p);
      }
      TargetStays(Apply(s, steps[0]), steps[1..], t, p);
    }
  }

  lemma TargetInStep(s: State, step: Step)
    requires Enabled(s, step) && AtKill(s.procs[step.p].at)
    ensures |Apply(s, step).procs| == |s.procs| && Apply(s, step).procs[step.p].target == s.procs[step.p].target
  {
    if step.Go? {
      TargetInKill(s, step.p);
    }
  }

  lemma TargetInKill(s: State, p: int)
    requires IsProc(s, p) && Ready(s, p) && AtKill(s.procs[p].at)
    ensures Advance(s, p) == GoKill(s, p) && GoKill(s, p).procs[p].target == s.procs[p].target
  {
  }

  // ------------------------------------------------------------------ no deadlock

  /** Inside a call of the kernel, on a CPU. */
  predicate InKernel(at: Label) {
    at != Newborn && at != Idle && at != Asleep && at != Gone
  }

  /** A process in the kernel goes on, or a scheduler lets go of a lock. */
  ghost predicate SomethingRuns(s: State) {
    exists step :: Enabled(s, step) && (step.SchedRelease? || (step.Go? && InKernel(s.procs[step.p].at)))
  }

  lemma ProcessRuns(s: State, p: int)
    requires IsProc(s, p) && Ready(s, p)
    ensures SomethingRuns(s)
  {
    assert Enabled(s, Go(p));
  }

  /** Whoever holds a p->lock needs no other lock to go on. */
  lemma LockIsGivenBack(s: State, e: int)
    requires AllLocks(s) && IsProc(s, e) && s.procs[e].lock != NOBODY
    ensures SomethingRuns(s)
  {
    var h := s.procs[e].lock;
    assert LocksOk(s, e);
    if h == SCHED {
      assert Enabled(s, SchedRelease(e));
    } else {
      assert LocksOk(s, h);
      ProcessRuns(s, h);
    }
  }

  /** Where a process that holds no p->lock may have to wait for one. */
  lemma WaitsForLock(s: State, p: int) returns (e: int)
    requires AllLocks(s) && IsProc(s, p) && InKernel(s.procs[p].at) && MakeOk(s, p) && !Ready(s, p)
    requires s.waiter == NOBODY || s.waiter == p
    ensures IsProc(s, e) && s.procs[e].lock != NOBODY
  {
    var a := s.procs[p];
    assert LocksOk(s, p);
    e := if a.at == ExitLock || a.at == WaitKilled || a.at == SleepAcquire || a.at == FaultLock then p else a.i;
  }

  /** No deadlock, in every reachable state: as long as some process is in the kernel, something goes on. */
  lemma NoDeadlock(s: State, p: int)
    requires Inv(s) && IsProc(s, p) && InKernel(s.procs[p].at)
    ensures SomethingRuns(s)
  {
    var q := if s.waiter != NOBODY then s.waiter else p;
    assert MakeOk(s, q);
    if Ready(s, q) {
      ProcessRuns(s, q);
    } else {
      var e := WaitsForLock(s, q);
      LockIsGivenBack(s, e);
    }
  }
}
