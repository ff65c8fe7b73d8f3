/**
 Which processes are marked as killed, over whole runs of ExitWait: those that a kill of their pid finds and
 those that fault. And what a kill of pid 0 does: unused entries have pid 0, so it marks one of them, and the
 mark is still there when fork takes the entry.
 */
module Marks {
  import opened ExitWait
  import opened Outcomes

  // ------------------------------------------------------------------ entries in nobody's use

  /** No unused entry is marked. */
  ghost predicate Clean(s: State) {
    forall c :: IsProc(s, c) && s.procs[c].killed ==> s.procs[c].state != UNUSED
  }

  /** A kill of pid 0 is at an unused entry. */
  predicate MarksUnused(s: State, step: Step) {
    && step.Go? && IsProc(s, step.p) && s.procs[step.p].at == KillCheck && s.procs[step.p].target == 0
    && IsProc(s, s.procs[step.p].i) && s.procs[s.procs[step.p].i].state == UNUSED
  }

  /** That is the one step after which an unused entry is marked. */
  lemma StepKeepsCleanIff(s: State, step: Step)
    requires Inv(s) && Clean(s) && Enabled(s, step)
    ensures Clean(Apply(s, step)) <==> !MarksUnused(s, step)
  {
    var t := Apply(s, step);
    if MarksUnused(s, step) {
      ZeroMarks(s, step.p);
    } else {
      forall c | IsProc(t, c) && t.procs[c].killed
        ensures t.procs[c].state != UNUSED
      {
        StaysClean(s, step, c);
      }
    }
  }

  lemma StaysClean(s: State, step: Step, c: int)
    requires Inv(s) && Clean(s) && Enabled(s, step) && !MarksUnused(s, step) && IsProc(s, c)
    ensures |Apply(s, step).procs| == |s.procs|
    ensures Apply(s, step).procs[c].killed ==> Apply(s, step).procs[c].state != UNUSED
  {
    assert PidOk(s, c) && StateOk(s.procs[step.p], step.p);
    WhoIsKilled(s, step, c);
  }

  /** What kill of pid 0 does to an unused entry: it is marked and stays unused, and kill returns 0. */
  lemma ZeroMarks(s: State, p: int)
    requires Inv(s) && MarksUnused(s, Go(p)) && Ready(s, p)
    ensures var c, t := s.procs[p].i, Advance(s, p);
      && |t.procs| == |s.procs| && t.procs[c].killed && t.procs[c].state == UNUSED && t.procs[c].pid == 0
      && t.procs[p].at == KillRelease && t.procs[p].i == c && t.procs[p].target == 0
  {
    assert PidOk(s, s.procs[p].i) && StateOk(s.procs[p], p) && Advance(s, p) == GoKill(s, p);
  }

  /** The process that fork takes an entry for is marked from birth if and only if the entry is. */
  lemma BornMarkedIff(s: State, p: int)
    requires Inv(s) && IsProc(s, p) && Ready(s, p) && s.procs[p].at == ForkCheck
    requires s.procs[s.procs[p].i].state == UNUSED
    ensures var c, t := s.procs[p].i, Advance(s, p);
      && |t.procs| == |s.procs| && t.procs[c].state == USED && t.procs[c].pid == s.nextPid
      && (t.procs[c].killed <==> s.procs[c].killed)
  {
    ForkTakes(s, p);
  }

  // ------------------------------------------------------------------ over runs

  /** The step is that of a kill of pid, which looks at entry c, and the entry has that pid. */
  predicate Finds(s: State, step: Step, c: int, pid: int) {
    && step.Go? && IsProc(s, step.p) && IsProc(s, c) && s.procs[step.p].at == KillCheck && s.procs[step.p].i == c
    && s.procs[step.p].target == pid == s.procs[c].pid
  }

  /** The step is setkilled's of the process in entry c, and that has the pid. */
  predicate Faults(s: State, step: Step, c: int, pid: int) {
    step.Go? && step.p == c && IsProc(s, c) && s.procs[c].at == FaultMark && s.procs[c].pid == pid
  }

  /** In the run a kill finds pid in entry c. */
  ghost predicate FoundIn(s: State, steps: seq<Step>, c: int, pid: int)
    decreases |steps|
  {
    && steps != [] && Enabled(s, steps[0])
    && (Finds(s, steps[0], c, pid) || FoundIn(Apply(s, steps[0]), steps[1..], c, pid))
  }

  /** In the run the process in entry c faults, and has the pid. */
  ghost predicate FaultedIn(s: State, steps: seq<Step>, c: int, pid: int)
    decreases |steps|
  {
    && steps != [] && Enabled(s, steps[0])
    && (Faults(s, steps[0], c, pid) || FaultedIn(Apply(s, steps[0]), steps[1..], c, pid))
  }

  /** No kill of pid 0 is under way. */
  ghost predicate NoneOfZero(s: State) {
    forall p :: IsProc(s, p) && AtKill(s.procs[p].at) ==> s.procs[p].target != 0
  }

  predicate Names(steps: seq<Step>, pid: int) {
    exists k :: 0 <= k < |steps| && steps[k].Kill? && steps[k].pid == pid
  }

  /** A process gets into kill only by the call. */
  lemma IntoKill(s: State, step: Step, q: int)
    requires Inv(s) && Enabled(s, step) && IsProc(s, q) && |Apply(s, step).procs| == |s.procs|
    requires AtKill(Apply(s, step).procs[q].at)
    ensures var b := Apply(s, step).procs[q];
      (AtKill(s.procs[q].at) && b.target == s.procs[q].target) || step == Kill(q, b.target)
  {
    var p := step.p;
    if p != q {
      OtherInKill(s, step, q);
    } else if step.Go? {
      assert StateOk(s.procs[p], p) && MakeOk(s, p) && ParentOk(s, p);
      MovesAdvance(s, p, p);
      FlowIntoKill(p, s.procs[p], Advance(s, p).procs[p]);
      TargetInKill(s, p);
    }
  }

  lemma FlowIntoKill(p: int, a: Proc, b: Proc)
    requires Flow(p, a, b) && AtKill(b.at)
    ensures AtKill(a.at)
  {
  }

  lemma OtherInKill(s: State, step: Step, q: int)
    requires Inv(s) && Enabled(s, step) && IsProc(s, q) && step.p != q && |Apply(s, step).procs| == |s.procs|
    requires AtKill(Apply(s, step).procs[q].at)
    ensures AtKill(s.procs[q].at) && Apply(s, step).procs[q].target == s.procs[q].target
  {
    var p := step.p;
    assert StateOk(s.procs[p], p) && MakeOk(s, p) && ParentOk(s, p);
    if step.Go? {
      KeptAdvance(s, p, q);
    } else if step.Fail? {
      FailHasShape(s, p);
      assert FailKept(p, s.procs[p], q, s.procs[q], Apply(s, step).procs[q]);
    }
  }

  lemma StepKeepsNoneOfZero(s: State, step: Step)
    requires Inv(s) && NoneOfZero(s) && Enabled(s, step) && !(step.Kill? && step.pid == 0)
    ensures NoneOfZero(Apply(s, step))
  {
    var t := Apply(s, step);
    forall q | IsProc(t, q) && AtKill(t.procs[q].at)
      ensures t.procs[q].target != 0
    {
      WhoIsKilled(s, step, q);
      IntoKill(s, step, q);
    }
  }

  /** A marked process had its mark before the step, with its pid, or gets it from a kill of that pid or a fault. */
  lemma MarkFromStep(s: State, step: Step, c: int)
    requires Inv(s) && Clean(s) && NoneOfZero(s) && Enabled(s, step) && IsProc(s, c)
    ensures |Apply(s, step).procs| == |s.procs|
    ensures var b := Apply(s, step).procs[c];
      b.killed ==>
        (s.procs[c].killed && s.procs[c].pid == b.pid) || Finds(s, step, c, b.pid) || Faults(s, step, c, b.pid)
  {
    WhoIsKilled(s, step, c);
    PidGiven(s, step, c);
    if Apply(s, step).procs[c].killed {
      PidOfMarked(s, step, c);
    }
  }

  /** A process that the step marks, or that was marked, keeps its pid. */
  lemma PidOfMarked(s: State, step: Step, c: int)
    requires Inv(s) && Clean(s) && NoneOfZero(s) && Enabled(s, step) && IsProc(s, c)
    requires |Apply(s, step).procs| == |s.procs| && Apply(s, step).procs[c].killed
    ensures Apply(s, step).procs[c].pid == s.procs[c].pid
  {
    assert PidOk(s, c) && StateOk(s.procs[step.p], step.p);
    WhoIsKilled(s, step, c);
    PidGiven(s, step, c);
    StepKeepsInv(s, step);
    assert PidOk(Apply(s, step), c);
  }

  /** A pid once given up is never had again. */
  lemma {:induction false} PidNeverBack(s: State, steps: seq<Step>, t: State, c: int, pid: int)
    requires Inv(s) && Runs(s, steps, t) && IsProc(s, c) && 0 < pid < s.nextPid && s.procs[c].pid != pid
    ensures IsProc(t, c) && t.procs[c].pid != pid
    decreases |steps|
  {
    if steps != [] {
      StepKeepsInv(s, steps[0]);
      PidGiven(s, steps[0], c);
      PidNeverBack(Apply(s, steps[0]), steps[1..], t, c, pid);
    }
  }

  /** A mark stays as long as the process has its pid. */
  lemma {:induction false} MarkStays(s: State, steps: seq<Step>, t: State, c: int)
    requires Inv(s) && Runs(s, steps, t) && IsProc(s, c) && IsProc(t, c)
    requires s.procs[c].killed && s.procs[c].pid == t.procs[c].pid != 0
    ensures t.procs[c].killed
    decreases |steps|
  {
    if steps != [] {
      var u := Apply(s, steps[0]);
      StepKeepsInv(s, steps[0]);
      PidGiven(s, steps[0], c);
      assert PidOk(s, c) && PidOk(u, c);
      WhoIsKilled(s, steps[0], c);
      if u.procs[c].pid == s.procs[c].pid {
        MarkStays(u, steps[1..], t, c);
      } else {
        PidNeverBack(u, steps[1..], t, c, s.procs[c].pid);
      }
    }
  }

  lemma FoundIsMarked(s: State, step: Step, c: int, pid: int)
    requires Inv(s) && Enabled(s, step) && (Finds(s, step, c, pid) || Faults(s, step, c, pid))
    ensures IsProc(Apply(s, step), c) && Apply(s, step).procs[c].killed && Apply(s, step).procs[c].pid == pid
  {
    var p := step.p;
    if Finds(s, step, c, pid) {
      assert Advance(s, p) == GoKill(s, p);
    } else {
      assert Advance(s, p) == GoFault(s, p);
    }
  }

  lemma {:induction false} MarkedIsMarked(s: State, steps: seq<Step>, t: State, c: int, pid: int)
    requires Inv(s) && Runs(s, steps, t) && IsProc(t, c) && t.procs[c].pid == pid != 0
    requires FoundIn(s, steps, c, pid) || FaultedIn(s, steps, c, pid)
    ensures t.procs[c].killed
    decreases |steps|
  {
    var u := Apply(s, steps[0]);
    StepKeepsInv(s, steps[0]);
    if Finds(s, steps[0], c, pid) || Faults(s, steps[0], c, pid) {
      FoundIsMarked(s, steps[0], c, pid);
      MarkStays(u, steps[1..], t, c);
    } else {
      MarkedIsMarked(u, steps[1..], t, c, pid);
    }
  }

  /** What is marked as killed in state t, in entry c, has been marked with its own pid since state s. */
  ghost predicate OwnMark(s: State, steps: seq<Step>, t: State, c: int)
    requires IsProc(s, c) && IsProc(t, c)
  {
    var pid := t.procs[c].pid;
    (s.procs[c].killed && s.procs[c].pid == pid) || FoundIn(s, steps, c, pid) || FaultedIn(s, steps, c, pid)
  }

  /**
   Without kills of pid 0, no unused entry is ever marked, and a process is marked if and only if, under the
   pid it has, it was marked when the run began, or was found by a kill in the run, or faulted in it.
   */
  lemma MarksAreOwn(s: State, steps: seq<Step>, t: State)
    requires Inv(s) && Clean(s) && NoneOfZero(s) && Runs(s, steps, t) && !Names(steps, 0)
    ensures Inv(t) && Clean(t) && |t.procs| == |s.procs|
    ensures forall c :: IsProc(t, c) && t.procs[c].state != UNUSED ==>
      (t.procs[c].killed <==> OwnMark(s, steps, t, c))
  {
    MarksFrom(s, steps, t);
    forall c | IsProc(t, c) && t.procs[c].state != UNUSED
      ensures t.procs[c].killed <==> OwnMark(s, steps, t, c)
    {
      assert PidOk(t, c);
      if FoundIn(s, steps, c, t.procs[c].pid) || FaultedIn(s, steps, c, t.procs[c].pid) {
        MarkedIsMarked(s, steps, t, c, t.procs[c].pid);
      } else if OwnMark(s, steps, t, c) {
        MarkStays(s, steps, t, c);
      }
    }
  }

  lemma {:induction false} MarksFrom(s: State, steps: seq<Step>, t: State)
    requires Inv(s) && Clean(s) && NoneOfZero(s) && Runs(s, steps, t) && !Names(steps, 0)
    ensures Inv(t) && Clean(t) && |t.procs| == |s.procs|
    ensures forall c :: IsProc(t, c) && t.procs[c].killed ==> OwnMark(s, steps, t, c)
    decreases |steps|
  {
    if steps != [] {
      var u, rest := Apply(s, steps[0]), steps[1..];
      NamesLess(steps, 0);
      StepKeepsInv(s, steps[0]);
      StepKeepsCleanIff(s, steps[0]);
      StepKeepsNoneOfZero(s, steps[0]);
      MarksFrom(u, rest, t);
      forall c | IsProc(t, c) && t.procs[c].killed
        ensures |u.procs| == |s.procs|
        ensures OwnMark(s, steps, t, c)
      {
        WhoIsKilled(s, steps[0], INIT);
        MarkFromStep(s, steps[0], c);
      }
    }
  }

  lemma NamesLess(steps: seq<Step>, pid: int)
    requires steps != [] && !Names(steps, pid)
    ensures !Names(steps[1..], pid) && !(steps[0].Kill? && steps[0].pid == pid)
  {
    forall k | 0 <= k < |steps| - 1
      ensures !(steps[1..][k].Kill? && steps[1..][k].pid == pid)
    {
      assert steps[k + 1] == steps[1..][k];
    }
  }

  /** Every kill under way is of a pid in the set. */
  ghost predicate Targets(s: State, pids: set<int>) {
    forall p :: IsProc(s, p) && AtKill(s.procs[p].at) ==> s.procs[p].target in pids
  }

  lemma {:induction false} FoundIsNamed(s: State, steps: seq<Step>, t: State, c: int, pid: int, pids: set<int>)
    requires Inv(s) && Runs(s, steps, t) && FoundIn(s, steps, c, pid) && Targets(s, pids)
    requires forall k :: 0 <= k < |steps| && steps[k].Kill? ==> steps[k].pid in pids
    ensures pid in pids
    decreases |steps|
  {
    if !Finds(s, steps[0], c, pid) {
      var u := Apply(s, steps[0]);
      StepKeepsInv(s, steps[0]);
      forall q | IsProc(u, q) && AtKill(u.procs[q].at)
        ensures u.procs[q].target in pids
      {
        WhoIsKilled(s, steps[0], INIT);
        IntoKill(s, steps[0], q);
      }
      FoundIsNamed(u, steps[1..], t, c, pid, pids);
    }
  }

  ghost predicate NoMarks(s: State) {
    forall c :: IsProc(s, c) ==> !s.procs[c].killed
  }

  /**
   From the start, without kills of pid 0: every marked entry is a process, and either some kill in the run
   named its pid and found it in this entry, or the process faulted in the run.
   */
  lemma OnlyTheNamedAreKilled(s: State, steps: seq<Step>, t: State, c: int)
    requires Initial(s) && NoMarks(s) && Runs(s, steps, t) && !Names(steps, 0) && IsProc(t, c) && t.procs[c].killed
    ensures t.procs[c].state != UNUSED
    ensures var pid := t.procs[c].pid;
      (Names(steps, pid) && FoundIn(s, steps, c, pid)) || FaultedIn(s, steps, c, pid)
  {
    InitialInv(s);
    MarksFrom(s, steps, t);
    if FoundIn(s, steps, c, t.procs[c].pid) {
      var pids := set k | 0 <= k < |steps| && steps[k].Kill? :: steps[k].pid;
      FoundIsNamed(s, steps, t, c, t.procs[c].pid, pids);
    }
  }

  // ------------------------------------------------------------------ a process marked from birth

  predicate OnlyZero(steps: seq<Step>) {
    forall k :: 0 <= k < |steps| && steps[k].Kill? ==> steps[k].pid == 0
  }

  /** A run that names no pid but 0 leads from s to t. */
  ghost predicate Leads(s: State, t: State) {
    exists steps: seq<Step> :: Runs(s, steps, t) && OnlyZero(steps)
  }

  lemma {:induction false} RunThen(s: State, steps: seq<Step>, t: State, step: Step)
    requires Runs(s, steps, t) && Enabled(t, step)
    ensures Runs(s, steps + [step], Apply(t, step))
    decreases |steps|
  {
    if steps == [] {
      assert (steps + [step])[1..] == [];
    } else {
      RunThen(Apply(s, steps[0]), steps[1..], t, step);
      assert (steps + [step])[1..] == steps[1..] + [step];
    }
  }

  lemma Then(s: State, t: State, step: Step)
    requires Leads(s, t) && Enabled(t, step) && (step.Kill? ==> step.pid == 0)
    ensures Leads(s, Apply(t, step))
  {
    var steps: seq<Step> :| Runs(s, steps, t) && OnlyZero(steps);
    RunThen(s, steps, t, step);
    assert OnlyZero(steps + [step]);
  }

  /** initproc is in a scan, and it and entry 1, with these holders of their locks, are as at the start but for this. */
  ghost predicate Scanning(s: State, at: Label, i: int, marked: bool, lock0: int, lock1: int) {
    && 2 <= |s.procs| && s.waiter == NOBODY && s.nextPid == 2
    && s.procs[0].at == at && s.procs[0].i == i && s.procs[0].target == 0 && s.procs[0].pid == 1
    && s.procs[0].lock == lock0 && s.procs[0].state == RUNNING
    && s.procs[1].state == UNUSED && s.procs[1].pid == 0 && s.procs[1].lock == lock1 && s.procs[1].killed == marked
  }

  /** Three steps of a scan at initproc's own entry: lock it, look, unlock it and go on. */
  lemma PassOwn(s: State, t: State, at: Label, marked: bool) returns (u: State)
    requires Leads(s, t) && Scanning(t, at, 0, marked, NOBODY, NOBODY) && (at == KillNext || at == ForkNext)
    ensures Leads(s, u) && Scanning(u, at, 1, marked, NOBODY, NOBODY)
  {
    u := LockOwn(s, t, at, marked);
    u := LookAtOwn(s, u, at, marked);
    u := PassOn(s, u, at, marked);
  }

  lemma LockOwn(s: State, t: State, at: Label, marked: bool) returns (u: State)
    requires Leads(s, t) && (at == KillNext || at == ForkNext) && Scanning(t, at, 0, marked, NOBODY, NOBODY)
    ensures Leads(s, u) && Scanning(u, if at == KillNext then KillCheck else ForkCheck, 0, marked, 0, NOBODY)
  {
    Then(s, t, Go(0));
    u := if at == KillNext then GoKill(t, 0) else GoForkAlloc(t, 0);
  }

  lemma PassOn(s: State, t: State, at: Label, marked: bool) returns (u: State)
    requires Leads(s, t) && (at == KillNext || at == ForkNext)
    requires Scanning(t, if at == KillNext then KillRelease else ForkPass, 0, marked, 0, NOBODY)
    ensures Leads(s, u) && Scanning(u, at, 1, marked, NOBODY, NOBODY)
  {
    Then(s, t, Go(0));
    u := if at == KillNext then GoKill(t, 0) else GoForkAlloc(t, 0);
  }

  lemma LookAtOwn(s: State, t: State, at: Label, marked: bool) returns (u: State)
    requires Leads(s, t) && (at == KillNext || at == ForkNext)
    requires Scanning(t, if at == KillNext then KillCheck else ForkCheck, 0, marked, 0, NOBODY)
    ensures Leads(s, u) && Scanning(u, if at == KillNext then KillRelease else ForkPass, 0, marked, 0, NOBODY)
  {
    Then(s, t, Go(0));
    u := if at == KillNext then GoKill(t, 0) else GoForkAlloc(t, 0);
  }

  /** kill of pid 0 finds entry 1, marks it and returns. */
  lemma MarkUnused(s: State, t: State) returns (u: State)
    requires Leads(s, t) && Scanning(t, KillNext, 1, false, NOBODY, NOBODY)
    ensures Leads(s, u) && Scanning(u, Idle, 2, true, NOBODY, NOBODY)
  {
    Then(s, t, Go(0));
    u := MarkIt(s, GoKill(t, 0));
    u := MarkDone(s, u);
  }

  lemma MarkDone(s: State, t: State) returns (u: State)
    requires Leads(s, t) && Scanning(t, KillRelease, 1, true, NOBODY, 0)
    ensures Leads(s, u) && Scanning(u, Idle, 2, true, NOBODY, NOBODY)
  {
    Then(s, t, Go(0));
    u := GoKill(t, 0);
  }

  lemma MarkIt(s: State, t: State) returns (u: State)
    requires Leads(s, t) && Scanning(t, KillCheck, 1, false, NOBODY, 0)
    ensures Leads(s, u) && Scanning(u, KillRelease, 1, true, NOBODY, 0)
  {
    Then(s, t, Go(0));
    u := GoKill(t, 0);
  }

  /** fork takes the entry. */
  lemma TakeMarked(s: State, t: State) returns (u: State)
    requires Leads(s, t) && Scanning(t, ForkNext, 1, true, NOBODY, NOBODY)
    ensures Leads(s, u) && 2 <= |u.procs| && u.procs[1].state == USED && u.procs[1].pid == 2 && u.procs[1].killed
  {
    Then(s, t, Go(0));
    u := Advance(t, 0);
    Then(s, u, Go(0));
    u := Advance(u, 0);
  }

  /**
   Wherever the table has more than one entry: initproc calls kill(0), then fork, and its child is marked,
   although no kill has named its pid.
   */
  lemma BornMarked(s: State)
    requires Initial(s) && NoMarks(s) && 2 <= |s.procs|
    ensures exists t ::
      Leads(s, t) && IsProc(t, 1) && t.procs[1].state == USED && t.procs[1].pid == 2 && t.procs[1].killed
  {
    assert Runs(s, [], s) && OnlyZero([]);
    Then(s, s, Kill(0, 0));
    var t := PassOwn(s, Apply(s, Kill(0, 0)), KillNext, false);
    t := MarkUnused(s, t);
    Then(s, t, Fork(0));
    t := PassOwn(s, Apply(t, Fork(0)), ForkNext, true);
    t := TakeMarked(s, t);
  }
}
