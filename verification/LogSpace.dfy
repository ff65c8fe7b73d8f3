/**
 Admission control of kernel/log.c as a state machine over the critical sections of log.lock,
 for any number of concurrent operations. `size` is log.size, the superblock's nlog.
 */
module LogSpace {
  import opened Params

  /** ops[i] counts the blocks that the i-th running operation added to the log. */
  datatype State = State(logged: set<nat>, n: nat, ops: seq<nat>, outstanding: nat,
                         committing: bool, panicked: bool)

  datatype Step =
    | Begin
    | BeginSleeps
    | Write(op: nat, b: nat)
    | End(op: nat)
    | CommitClears
    | CommitEnds

  const INIT := State({}, 0, [], 0, false, false)

  /** begin_op's test. */
  predicate Admits(s: State) {
    !s.committing && s.n + (s.outstanding + 1) * MAXOPBLOCKS <= LOGSIZE
  }

  /** log_write's first test, before absorption. */
  predicate Full(s: State, size: nat) {
    s.n >= LOGSIZE || s.n >= size - 1
  }

  /** An operation keeps its quota when every block it adds is one of its first MAXOPBLOCKS. */
  predicate WithinQuota(s: State, op: nat, b: nat)
    requires op < |s.ops|
  {
    b in s.logged || s.ops[op] < MAXOPBLOCKS
  }

  predicate Enabled(s: State, step: Step) {
    !s.panicked &&
    match step
    case Begin => Admits(s)
    case BeginSleeps => !Admits(s)
    case Write(op, b) => op < |s.ops| && WithinQuota(s, op, b)
    case End(op) => op < |s.ops|
    case CommitClears => s.committing
    case CommitEnds => s.committing && s.n == 0
  }

  function Apply(s: State, step: Step, size: nat): State
    requires Enabled(s, step)
  {
    match step
    case Begin => s.(ops := s.ops + [0], outstanding := s.outstanding + 1)
    case BeginSleeps => s
    case Write(op, b) =>
      if Full(s, size) || s.outstanding < 1 then s.(panicked := true)
      else if b in s.logged then s
      else s.(logged := s.logged + {b}, n := s.n + 1, ops := s.ops[op := s.ops[op] + 1])
    case End(op) =>
      if s.committing || s.outstanding == 0 then s.(panicked := true)
      else s.(ops := s.ops[..op] + s.ops[op + 1..], outstanding := s.outstanding - 1,
              committing := s.outstanding == 1)
    case CommitClears => s.(logged := {}, n := 0)
    case CommitEnds => s.(committing := false)
  }

  /** The blocks the running operations may still add. */
  function Reserved(ops: seq<nat>): int {
    if ops == [] then 0 else (MAXOPBLOCKS - ops[0]) + Reserved(ops[1..])
  }

  ghost predicate Inv(s: State) {
    && s.n == |s.logged|
    && s.outstanding == |s.ops|
    && (forall i :: 0 <= i < |s.ops| ==> s.ops[i] <= MAXOPBLOCKS)
    && s.n + Reserved(s.ops) <= LOGSIZE
    && (s.committing ==> s.ops == [])
  }

  lemma {:induction false} ReservedAppend(x: seq<nat>, y: seq<nat>)
    ensures Reserved(x + y) == Reserved(x) + Reserved(y)
  {
    if x == [] {
      assert x + y == y;
    } else {
      assert (x + y)[1..] == x[1..] + y;
      ReservedAppend(x[1..], y);
    }
  }

  lemma ReservedSplit(ops: seq<nat>, i: nat)
    requires i < |ops|
    ensures Reserved(ops) == Reserved(ops[..i]) + (MAXOPBLOCKS - ops[i]) + Reserved(ops[i + 1..])
  {
    assert ops == ops[..i] + ([ops[i]] + ops[i + 1..]);
    ReservedAppend(ops[..i], [ops[i]] + ops[i + 1..]);
  }

  lemma {:induction false} ReservedNonNegative(ops: seq<nat>)
    requires forall i :: 0 <= i < |ops| ==> ops[i] <= MAXOPBLOCKS
    ensures 0 <= Reserved(ops) <= MAXOPBLOCKS * |ops|
  {
    if ops != [] {
      ReservedNonNegative(ops[1..]);
    }
  }

  /** Room is left for the rest of any one operation's quota. */
  lemma RoomForOp(s: State, op: nat)
    requires Inv(s) && op < |s.ops|
    ensures s.n + (MAXOPBLOCKS - s.ops[op]) <= LOGSIZE
  {
    ReservedSplit(s.ops, op);
    ReservedNonNegative(s.ops[..op]);
    ReservedNonNegative(s.ops[op + 1..]);
  }

  lemma BeginKeepsInv(s: State, size: nat)
    requires Inv(s) && Enabled(s, Begin)
    ensures Inv(Apply(s, Begin, size))
  {
    ReservedAppend(s.ops, [0]);
    ReservedNonNegative(s.ops);
  }

  lemma WriteKeepsInv(s: State, op: nat, b: nat, size: nat)
    requires Inv(s) && Enabled(s, Write(op, b))
    ensures Inv(Apply(s, Write(op, b), size))
  {
    var t := Apply(s, Write(op, b), size);
    if t.ops != s.ops {
      ReservedSplit(s.ops, op);
      ReservedSplit(t.ops, op);
      assert t.ops[..op] == s.ops[..op] && t.ops[op + 1..] == s.ops[op + 1..];
    }
  }

  lemma EndKeepsInv(s: State, op: nat, size: nat)
    requires Inv(s) && Enabled(s, End(op))
    ensures Inv(Apply(s, End(op), size)) && !Apply(s, End(op), size).panicked
  {
    ReservedSplit(s.ops, op);
    ReservedAppend(s.ops[..op], s.ops[op + 1..]);
  }

  lemma StepKeepsInv(s: State, step: Step, size: nat)
    requires Inv(s) && Enabled(s, step)
    ensures Inv(Apply(s, step, size))
  {
    match step
    case Begin => BeginKeepsInv(s, size);
    case Write(op, b) => WriteKeepsInv(s, op, b, size);
    case End(op) => EndKeepsInv(s, op, size);
    case _ => ReservedNonNegative(s.ops);
  }

  /** Every interleaving of operations is a list of steps. */
  ghost predicate Runs(s: State, steps: seq<Step>, t: State, size: nat)
    decreases |steps|
  {
    if steps == [] then s == t
    else Enabled(s, steps[0]) && Runs(Apply(s, steps[0], size), steps[1..], t, size)
  }

  ghost predicate Reachable(s: State, size: nat) {
    exists steps :: Runs(INIT, steps, s, size)
  }

  lemma {:induction false} RunKeepsInv(s: State, steps: seq<Step>, t: State, size: nat)
    requires Inv(s) && Runs(s, steps, t, size)
    ensures Inv(t)
    decreases |steps|
  {
    if steps != [] {
      StepKeepsInv(s, steps[0], size);
      RunKeepsInv(Apply(s, steps[0], size), steps[1..], t, size);
    }
  }

  /**
   In every interleaving: the logged blocks and all outstanding quotas fit in LOGSIZE, commit
   only runs with no operation outstanding, and end_op never finds a commit in progress.
   */
  lemma ReachableInv(s: State, size: nat)
    requires Reachable(s, size)
    ensures Inv(s)
    ensures s.committing ==> s.outstanding == 0
    ensures forall op :: Enabled(s, End(op)) ==> !Apply(s, End(op), size).panicked
  {
    var steps :| Runs(INIT, steps, s, size);
    RunKeepsInv(INIT, steps, s, size);
    forall op | Enabled(s, End(op))
      ensures !Apply(s, End(op), size).panicked
    {
      EndKeepsInv(s, op, size);
    }
  }

  /** A log with no operation running is being committed or empty. */
  predicate Settled(s: State) {
    s.ops == [] && !s.committing ==> s.n == 0
  }

  lemma {:induction false} RunSettles(s: State, steps: seq<Step>, t: State, size: nat)
    requires Inv(s) && Settled(s) && Runs(s, steps, t, size)
    ensures Settled(t)
    decreases |steps|
  {
    if steps != [] {
      StepKeepsInv(s, steps[0], size);
      RunSettles(Apply(s, steps[0], size), steps[1..], t, size);
    }
  }

  /**
   begin_op lets an operation in if and only if no commit is running and the blocks logged leave room
   for 10 blocks of each operation running and of the new one. One that has to sleep sleeps on
   somebody: an operation runs, or a commit.
   */
  lemma BeginAdmitsIff(s: State, size: nat)
    requires Reachable(s, size) && !s.panicked
    ensures Enabled(s, Begin) <==> !s.committing && |s.logged| + 10 * (|s.ops| + 1) <= 30
    ensures Enabled(s, BeginSleeps) <==> !Enabled(s, Begin)
    ensures Enabled(s, BeginSleeps) ==> s.committing || s.ops != []
  {
    ReachableInv(s, size);
    var steps :| Runs(INIT, steps, s, size);
    RunSettles(INIT, steps, s, size);
  }

  /** The last operation out starts the commit, and no other does; the commit empties the log. */
  lemma LastOutCommits(s: State, op: nat, size: nat)
    requires Reachable(s, size) && Enabled(s, End(op))
    ensures var t := Apply(s, End(op), size);
      && !t.panicked && t.logged == s.logged && t.ops == s.ops[..op] + s.ops[op + 1..]
      && (t.committing <==> |s.ops| == 1)
  {
    ReachableInv(s, size);
  }

  /** At place i of the run block b is written, and no commit empties the log from there on. */
  predicate WrittenAt(steps: seq<Step>, i: int, b: nat) {
    0 <= i < |steps| && steps[i].Write? && steps[i].b == b && CommitClears !in steps[i..]
  }

  ghost predicate WrittenLast(steps: seq<Step>, b: nat) {
    exists i :: WrittenAt(steps, i, b)
  }

  lemma WrittenShift(steps: seq<Step>, b: nat)
    requires steps != []
    ensures WrittenLast(steps, b) <==>
      WrittenLast(steps[1..], b) || (steps[0].Write? && steps[0].b == b && CommitClears !in steps[1..])
  {
    if i :| WrittenAt(steps, i, b) {
      if i > 0 {
        assert steps[1..][i - 1..] == steps[i..];
        assert WrittenAt(steps[1..], i - 1, b);
      } else {
        assert steps[0..] == [steps[0]] + steps[1..];
      }
    }
    if i :| WrittenAt(steps[1..], i, b) {
      assert steps[1..][i..] == steps[i + 1..];
      assert WrittenAt(steps, i + 1, b);
    }
    if steps[0].Write? && steps[0].b == b && CommitClears !in steps[1..] {
      assert steps[0..] == [steps[0]] + steps[1..];
      assert WrittenAt(steps, 0, b);
    }
  }

  /**
   Nothing that was logged is lost but by a commit: over any run that does not panic the log has exactly the
   blocks written since a commit last emptied it, and those it had at the start if none has.
   */
  lemma {:induction false} LoggedIff(s: State, steps: seq<Step>, t: State, size: nat, b: nat)
    requires Runs(s, steps, t, size) && !t.panicked
    ensures b in t.logged <==> WrittenLast(steps, b) || (b in s.logged && CommitClears !in steps)
    decreases |steps|
  {
    if steps != [] {
      assert steps == [steps[0]] + steps[1..];
      WrittenShift(steps, b);
      LoggedIff(Apply(s, steps[0], size), steps[1..], t, size, b);
    } else {
      assert !WrittenLast(steps, b);
    }
  }

  /** How many operations have begun, less how many have ended. */
  function Balance(steps: seq<Step>): int {
    if steps == [] then 0
    else Balance(steps[1..]) + (if steps[0].Begin? then 1 else if steps[0].End? then -1 else 0)
  }

  /** The operations counted as outstanding are those that have begun and not ended. */
  lemma {:induction false} OutstandingIs(s: State, steps: seq<Step>, t: State, size: nat)
    requires Runs(s, steps, t, size) && Inv(s)
    ensures t.outstanding == |t.ops| == |s.ops| + Balance(steps)
    decreases |steps|
  {
    if steps != [] {
      StepKeepsInv(s, steps[0], size);
      OutstandingIs(Apply(s, steps[0], size), steps[1..], t, size);
    }
  }

  /** The blocks the log has room for, beside its header. */
  function Room(size: nat): int {
    if size - 1 < LOGSIZE then size - 1 else LOGSIZE
  }

  lemma Started(size: nat)
    ensures Reachable(INIT, size)
  {
    assert Runs(INIT, [], INIT, size);
  }

  lemma {:induction false} RunFits(s: State, steps: seq<Step>, t: State, size: nat)
    requires size > 0 && s.n <= Room(size) && Runs(s, steps, t, size)
    ensures t.n <= Room(size)
    decreases |steps|
  {
    if steps != [] {
      RunFits(Apply(s, steps[0], size), steps[1..], t, size);
    }
  }

  lemma ReachableFits(s: State, size: nat)
    requires size > 0 && Reachable(s, size)
    ensures s.n <= Room(size)
  {
    var steps :| Runs(INIT, steps, s, size);
    RunFits(INIT, steps, s, size);
  }

  /**
   A write within quota makes log_write panic exactly when the log is full. If the log has more
   than LOGSIZE blocks, that never happens to a fresh block, only to one that is already logged.
   */
  lemma WritePanics(s: State, op: nat, b: nat, size: nat)
    requires size > 0 && Reachable(s, size) && Enabled(s, Write(op, b))
    ensures Apply(s, Write(op, b), size).panicked <==> s.n == Room(size)
    ensures size > LOGSIZE && s.n == Room(size) ==> b in s.logged
  {
    ReachableInv(s, size);
    ReachableFits(s, size);
    RoomForOp(s, op);
  }

  /** Three operations have begun and between them added the blocks 0..k in order. */
  function Filled(k: nat): State
    requires k <= LOGSIZE
  {
    State(Below(k), k, [Quota(k, 0), Quota(k, 1), Quota(k, 2)], 3, false, false)
  }

  function Below(k: nat): (r: set<nat>)
    ensures |r| == k && forall b: nat :: b in r <==> b < k
  {
    if k == 0 then {} else Below(k - 1) + {k - 1}
  }

  function Quota(k: nat, op: nat): nat {
    if k <= op * MAXOPBLOCKS then 0
    else if k >= (op + 1) * MAXOPBLOCKS then MAXOPBLOCKS
    else k - op * MAXOPBLOCKS
  }

  lemma {:induction false} RunAppend(s: State, steps: seq<Step>, t: State, last: Step, size: nat)
    requires Runs(s, steps, t, size) && Enabled(t, last)
    ensures Runs(s, steps + [last], Apply(t, last, size), size)
    decreases |steps|
  {
    if steps == [] {
      assert [last][1..] == [];
    } else {
      RunAppend(Apply(s, steps[0], size), steps[1..], t, last, size);
      assert (steps + [last])[1..] == steps[1..] + [last];
    }
  }

  lemma ReachableStep(s: State, step: Step, size: nat)
    requires Reachable(s, size) && Enabled(s, step)
    ensures Reachable(Apply(s, step, size), size)
  {
    var steps :| Runs(INIT, steps, s, size);
    RunAppend(INIT, steps, s, step, size);
  }

  lemma ThreeBegin(size: nat)
    ensures Reachable(Filled(0), size)
  {
    Started(size);
    var one, two, three := INIT.(ops := [0], outstanding := 1), INIT.(ops := [0, 0], outstanding := 2), Filled(0);
    ReachableBegin(INIT, one, size);
    ReachableBegin(one, two, size);
    ReachableBegin(two, three, size);
  }

  lemma ReachableBegin(s: State, t: State, size: nat)
    requires Reachable(s, size) && Enabled(s, Begin) && t == s.(ops := s.ops + [0], outstanding := s.outstanding + 1)
    ensures Reachable(t, size)
  {
    ReachableStep(s, Begin, size);
  }

  lemma FillQuota(k: nat, op: nat)
    requires 0 < k <= LOGSIZE && op == (k - 1) / MAXOPBLOCKS
    ensures op < 3 && Filled(k - 1).ops[op] < MAXOPBLOCKS
    ensures Filled(k - 1).ops[op := Filled(k - 1).ops[op] + 1] == Filled(k).ops
  {
    assert op * MAXOPBLOCKS <= k - 1 < (op + 1) * MAXOPBLOCKS;
  }

  /** The write that adds block k - 1. */
  lemma FillOne(k: nat, op: nat, size: nat)
    requires 0 < k <= LOGSIZE && k < size && op == (k - 1) / MAXOPBLOCKS
    ensures Enabled(Filled(k - 1), Write(op, k - 1)) && Apply(Filled(k - 1), Write(op, k - 1), size) == Filled(k)
  {
    assert Filled(k - 1).logged + {k - 1} == Below(k);
    FillQuota(k, op);
  }

  lemma {:induction false} FilledReachable(k: nat, size: nat)
    requires k <= LOGSIZE && k < size
    ensures Reachable(Filled(k), size)
  {
    if k == 0 {
      ThreeBegin(size);
    } else {
      FilledReachable(k - 1, size);
      FillOne(k, (k - 1) / MAXOPBLOCKS, size);
      ReachableStep(Filled(k - 1), Write((k - 1) / MAXOPBLOCKS, k - 1), size);
    }
  }

  /**
   Fresh blocks within quota are always accepted if and only if the log has more than LOGSIZE
   blocks. mkfs makes it exactly LOGSIZE, header included, which is one short.
   */
  lemma QuotaIsSafeIff(size: nat)
    requires size > 0
    ensures (forall s, op, b :: Reachable(s, size) && Enabled(s, Write(op, b)) && b !in s.logged
                                ==> !Apply(s, Write(op, b), size).panicked)
            <==> size > LOGSIZE
  {
    if size > LOGSIZE {
      forall s, op, b | Reachable(s, size) && Enabled(s, Write(op, b)) && b !in s.logged
        ensures !Apply(s, Write(op, b), size).panicked
      {
        WritePanics(s, op, b, size);
      }
    } else {
      var k := size - 1;
      FilledReachable(k, size);
      var s := Filled(k);
      assert Enabled(s, Write(k / MAXOPBLOCKS, k)) && k !in s.logged;
      assert Apply(s, Write(k / MAXOPBLOCKS, k), size).panicked;
    }
  }

  /** The full log of WritePanics is reachable with operations still running, whatever its size. */
  lemma AbsorbedWriteCanPanic(size: nat)
    requires size > 1
    ensures var s := Filled(Room(size));
      Reachable(s, size) && Enabled(s, Write(0, 0)) && 0 in s.logged && Apply(s, Write(0, 0), size).panicked
  {
    FilledReachable(Room(size), size);
  }

  /** Some run fills all the LOGSIZE places that begin_op hands out if and only if the log has a block for each. */
  lemma AllLoggedIff(size: nat)
    requires size > 0
    ensures (exists s :: Reachable(s, size) && |s.logged| == LOGSIZE) <==> size > LOGSIZE
  {
    if s :| Reachable(s, size) && |s.logged| == LOGSIZE {
      ReachableInv(s, size);
      ReachableFits(s, size);
    }
    if size > LOGSIZE {
      FilledReachable(LOGSIZE, size);
      assert Reachable(Filled(LOGSIZE), size) && |Filled(LOGSIZE).logged| == LOGSIZE;
    }
  }

  // ------------------------------------------------------------------ asleep in begin_op

  /** The log, and which processes are asleep on &log. */
  datatype Sleepers = Sleepers(log: State, asleep: set<int>)

  /** Process p in begin_op makes its test, or is woken by a kill; the other steps are those of the log. */
  datatype Turn = Test(p: int) | Rouse(p: int) | Do(step: Step)

  /** End and CommitEnds call wakeup(&log), but for the end that starts a commit. */
  predicate WakesAll(s: State, step: Step) {
    (step.End? && s.outstanding != 1) || step.CommitEnds?
  }

  predicate MayTurn(x: Sleepers, turn: Turn) {
    match turn
    case Test(p) => !x.log.panicked && p !in x.asleep
    case Rouse(p) => p in x.asleep
    case Do(step) => Enabled(x.log, step) && !step.Begin? && !step.BeginSleeps?
  }

  function After(x: Sleepers, turn: Turn, size: nat): Sleepers
    requires MayTurn(x, turn)
  {
    match turn
    case Test(p) =>
      if Admits(x.log) then x.(log := Apply(x.log, Begin, size)) else x.(asleep := x.asleep + {p})
    case Rouse(p) => x.(asleep := x.asleep - {p})
    case Do(step) =>
      Sleepers(Apply(x.log, step, size), if WakesAll(x.log, step) then {} else x.asleep)
  }

  ghost predicate Turns(x: Sleepers, turns: seq<Turn>, y: Sleepers, size: nat)
    decreases |turns|
  {
    if turns == [] then x == y
    else MayTurn(x, turns[0]) && Turns(After(x, turns[0], size), turns[1..], y, size)
  }

  lemma TurnKeepsSleep(x: Sleepers, turn: Turn, size: nat)
    requires Inv(x.log) && MayTurn(x, turn) && (x.asleep != {} ==> !Admits(x.log))
    ensures After(x, turn, size).asleep != {} ==> !Admits(After(x, turn, size).log)
  {
  }

  lemma {:induction false} TurnsKeepSleep(x: Sleepers, turns: seq<Turn>, y: Sleepers, size: nat)
    requires Reachable(x.log, size) && (x.asleep != {} ==> !Admits(x.log)) && Turns(x, turns, y, size)
    ensures Reachable(y.log, size) && (y.asleep != {} ==> !Admits(y.log))
    decreases |turns|
  {
    if turns != [] {
      ReachableInv(x.log, size);
      TurnKeepsSleep(x, turns[0], size);
      match turns[0] {
        case Test(p) =>
          if Admits(x.log) {
            ReachableStep(x.log, Begin, size);
          }
        case Rouse(p) =>
        case Do(step) => ReachableStep(x.log, step, size);
      }
      TurnsKeepSleep(After(x, turns[0], size), turns[1..], y, size);
    }
  }

  /**
   No lost wakeup: in every interleaving, as long as some process is asleep in begin_op, its test would fail,
   and an operation or a commit is under way whose end wakes it.
   */
  lemma NoLostWakeup(turns: seq<Turn>, x: Sleepers, size: nat)
    requires Turns(Sleepers(INIT, {}), turns, x, size) && x.asleep != {}
    ensures !Admits(x.log) && (x.log.panicked || x.log.committing || x.log.ops != [])
  {
    Started(size);
    TurnsKeepSleep(Sleepers(INIT, {}), turns, x, size);
    if !x.log.panicked {
      BeginAdmitsIff(x.log, size);
    }
  }
}
