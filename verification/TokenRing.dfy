/**
 The token protocol of user/pingpong.c and user/tateti.c, for any number of processes.

 Process j waits on semaphore j, prints its word one character at a time and gives a unit to
 semaphore j + 1; the last process makes the others by fork, gives to semaphore 0, and in the end waits for
 the others and closes the semaphores. When a fork fails it exits at once. Semaphore 0 starts at 1, the
 others at 0. The four semaphore calls are single steps, as SleepWakeup.StepIsAtomic justifies.
 */
module TokenRing {
  const CLOSED := -1

  /** Forking and Failed are for the last process, Unborn for the others. */
  datatype Place = Unborn | Forking | Failed | Loop | Printing(pos: nat) | Exited | Reaped | Waiting

  /**
   `turns[j]` is the loop counter of process j, `forked` how many processes fork has made, `closed` how many
   semaphores are closed.
   */
  datatype State = State(at: seq<Place>, forked: nat, turns: seq<nat>, value: seq<int>, out: string, closed: nat)

  datatype Step =
    | Fork | ForkFails | Down(j: int) | PutChar(j: int) | Up(j: int) | LeaveLoop(j: int) | Reap(j: int) | Close

  /** What the program prints, by process, and how often. */
  datatype Config = Config(words: seq<string>, count: nat)

  predicate ConfigOk(c: Config) {
    |c.words| >= 2 && c.count > 0
  }

  predicate Shape(c: Config, s: State) {
    |s.at| == |s.turns| == |s.value| == |c.words|
  }

  function Initial(c: Config): (s: State)
    requires ConfigOk(c)
    ensures Shape(c, s)
  {
    var k := |c.words|;
    State(seq(k, j => if j + 1 == k then Forking else Unborn), 0, seq(k, _ => 0),
          seq(k, j => if j == 0 then 1 else 0), "", 0)
  }

  function Next(c: Config, j: int): int {
    if j + 1 == |c.words| then 0 else j + 1
  }

  predicate Enabled(c: Config, s: State, step: Step) {
    && Shape(c, s) && ConfigOk(c)
    && match step
       case Fork | ForkFails => s.at[|s.at| - 1].Forking? && s.forked < |s.at| - 1
       case Down(j) => 0 <= j < |s.at| && s.at[j].Loop? && s.turns[j] < c.count && s.value[j] > 0
       case PutChar(j) => 0 <= j < |s.at| && s.at[j].Printing? && s.at[j].pos < |c.words[j]|
       case Up(j) => 0 <= j < |s.at| && s.at[j].Printing? && s.at[j].pos >= |c.words[j]|
       case LeaveLoop(j) => 0 <= j < |s.at| && s.at[j].Loop? && s.turns[j] >= c.count
       case Reap(j) => 0 <= j < |s.at| - 1 && s.at[|s.at| - 1].Waiting? && s.at[j].Exited?
       case Close => s.at[|s.at| - 1].Waiting? && ReapedCount(s.at[..|s.at| - 1]) == |s.at| - 1 && s.closed < |s.value|
  }

  /** How many calls of wait have returned. */
  function ReapedCount(at: seq<Place>): (n: nat)
    ensures n <= |at|
  {
    if at == [] then 0 else (if at[0].Reaped? then 1 else 0) + ReapedCount(at[1..])
  }

  function Apply(c: Config, s: State, step: Step): (t: State)
    requires Enabled(c, s, step)
    ensures Shape(c, t)
  {
    match step
    case Fork =>
      var last := |s.at| - 1;
      s.(at := s.at[s.forked := Loop][last := if s.forked + 1 == last then Loop else Forking], forked := s.forked + 1)
    case ForkFails => s.(at := s.at[|s.at| - 1 := Failed])
    case Down(j) => s.(at := s.at[j := Printing(0)], value := s.value[j := s.value[j] - 1])
    case PutChar(j) => s.(at := s.at[j := Printing(s.at[j].pos + 1)], out := s.out + [c.words[j][s.at[j].pos]])
    case Up(j) =>
      var n := Next(c, j);
      s.(at := s.at[j := Loop], turns := s.turns[j := s.turns[j] + 1],
         value := if s.value[n] == CLOSED then s.value else s.value[n := s.value[n] + 1])
    case LeaveLoop(j) => s.(at := s.at[j := if j + 1 == |s.at| then Waiting else Exited])
    case Reap(j) => s.(at := s.at[j := Reaped])
    case Close => s.(value := s.value[s.closed := CLOSED], closed := s.closed + 1)
  }

  /** The first n words. */
  function Cat(words: seq<string>, n: nat): string
    requires n <= |words|
  {
    if n == 0 then "" else Cat(words, n - 1) + words[n - 1]
  }

  /** r rounds of all words. */
  function Rounds(words: seq<string>, r: nat): string {
    if r == 0 then "" else Rounds(words, r - 1) + Cat(words, |words|)
  }

  /** What a process has printed of its word. */
  function Partial(word: string, at: Place): string {
    if at.Printing? && at.pos <= |word| then word[..at.pos] else ""
  }

  /** The token is in round r at process t. */
  ghost predicate Token(c: Config, s: State, r: nat, t: nat) {
    && Shape(c, s) && ConfigOk(c)
    && t < |s.at| && t <= s.forked && (if t == 0 then r <= c.count else r < c.count)
    && (forall j :: 0 <= j < |s.at| ==> s.turns[j] == if j < t then r + 1 else r)
    && (forall j :: 0 <= j < |s.at| && j != t ==> !s.at[j].Printing?)
    && (forall j :: 0 <= j < |s.at| ==> PlaceOk(c, s, j))
    && (s.closed == 0 ==> forall j :: 0 <= j < |s.at| ==> s.value[j] == if j == t && !s.at[t].Printing? then 1 else 0)
    && (s.closed > 0 ==> forall j :: 0 <= j < |s.at| - 1 ==> s.at[j].Reaped?)
    && s.forked <= |s.at| - 1 && (s.forked == |s.at| - 1 <==> !s.at[|s.at| - 1].Forking? && !s.at[|s.at| - 1].Failed?)
    && s.closed <= |s.at| && (s.closed > 0 ==> s.at[|s.at| - 1].Waiting?)
    && s.out == Rounds(c.words, r) + Cat(c.words, t) + Partial(c.words[t], s.at[t])
  }

  predicate PlaceOk(c: Config, s: State, j: int)
    requires Shape(c, s) && 0 <= j < |s.at|
  {
    match s.at[j]
    case Unborn => s.forked <= j && j + 1 < |s.at| && s.turns[j] == 0
    case Forking | Failed => j + 1 == |s.at| && s.turns[j] == 0
    case Loop => j < s.forked || j + 1 == |s.at|
    case Printing(pos) => s.turns[j] < c.count && pos <= |c.words[j]| && (j < s.forked || j + 1 == |s.at|)
    case Exited => j + 1 < |s.at| && j < s.forked && s.turns[j] == c.count
    case Reaped => j + 1 < |s.at| && j < s.forked && s.turns[j] == c.count && s.at[|s.at| - 1].Waiting?
    case Waiting => j + 1 == |s.at| && s.turns[j] == c.count
  }

  ghost predicate Inv(c: Config, s: State) {
    exists r: nat, t: nat :: Token(c, s, r, t)
  }

  lemma {:induction false} AllReaped(at: seq<Place>)
    requires ReapedCount(at) == |at|
    ensures forall j :: 0 <= j < |at| ==> at[j].Reaped?
  {
    if at != [] {
      AllReaped(at[1..]);
      assert forall j :: 1 <= j < |at| ==> at[j] == at[1..][j - 1];
    }
  }

  lemma {:induction false} NotAllReaped(at: seq<Place>) returns (j: int)
    requires ReapedCount(at) < |at|
    ensures 0 <= j < |at| && !at[j].Reaped?
  {
    if !at[0].Reaped? {
      j := 0;
    } else {
      j := NotAllReaped(at[1..]);
      j := j + 1;
    }
  }

  lemma DownMoves(c: Config, s: State, r: nat, t: nat, j: int)
    requires Token(c, s, r, t) && Enabled(c, s, Down(j))
    ensures j == t && Token(c, Apply(c, s, Down(j)), r, t)
  {
    assert PlaceOk(c, s, j);
    var u := Apply(c, s, Down(j));
    forall i | 0 <= i < |u.at|
      ensures PlaceOk(c, u, i)
    {
      assert PlaceOk(c, s, i);
    }
  }

  lemma PutCharMoves(c: Config, s: State, r: nat, t: nat, j: int)
    requires Token(c, s, r, t) && Enabled(c, s, PutChar(j))
    ensures j == t && Token(c, Apply(c, s, PutChar(j)), r, t)
  {
    var pos := s.at[t].pos;
    assert c.words[t][..pos] + [c.words[t][pos]] == c.words[t][..pos + 1];
    var u := Apply(c, s, PutChar(j));
    forall i | 0 <= i < |u.at|
      ensures PlaceOk(c, u, i)
    {
      assert PlaceOk(c, s, i);
    }
  }

  lemma WordPrinted(words: seq<string>, r: nat, t: nat, out: string)
    requires t < |words| && out == Rounds(words, r) + Cat(words, t) + words[t]
    ensures if t + 1 < |words| then out == Rounds(words, r) + Cat(words, t + 1) else out == Rounds(words, r + 1)
  {
    assert out == Rounds(words, r) + Cat(words, t + 1);
  }

  lemma UpMoves(c: Config, s: State, r: nat, t: nat, j: int)
    requires Token(c, s, r, t) && Enabled(c, s, Up(j))
    ensures j == t
    ensures Token(c, Apply(c, s, Up(j)), if t + 1 == |s.at| then r + 1 else r, Next(c, t))
  {
    var u := Apply(c, s, Up(j));
    assert PlaceOk(c, s, t);
    assert s.out == Rounds(c.words, r) + Cat(c.words, t) + c.words[t] by {
      assert c.words[t][..s.at[t].pos] == c.words[t];
    }
    WordPrinted(c.words, r, t, s.out);
    assert s.closed == 0;
    var r', t' := if t + 1 == |s.at| then r + 1 else r, Next(c, t);
    assert u.out == Rounds(c.words, r') + Cat(c.words, t') + "";
    forall i | 0 <= i < |u.at|
      ensures PlaceOk(c, u, i)
    {
      assert PlaceOk(c, s, i);
    }
  }

  lemma RestMoves(c: Config, s: State, r: nat, t: nat, step: Step)
    requires Token(c, s, r, t) && Enabled(c, s, step) && (step.LeaveLoop? || step.Reap?)
    ensures Token(c, Apply(c, s, step), r, t)
  {
    var u := Apply(c, s, step);
    forall i | 0 <= i < |u.at|
      ensures PlaceOk(c, u, i)
    {
      assert PlaceOk(c, s, i);
    }
  }

  lemma ForkMoves(c: Config, s: State, r: nat, t: nat, step: Step)
    requires Token(c, s, r, t) && Enabled(c, s, step) && (step.Fork? || step.ForkFails?)
    ensures Token(c, Apply(c, s, step), r, t)
  {
    var u := Apply(c, s, step);
    assert PlaceOk(c, s, s.forked) && PlaceOk(c, s, |s.at| - 1);
    assert s.at[s.forked].Unborn?;
    forall i | 0 <= i < |u.at|
      ensures PlaceOk(c, u, i)
    {
      assert PlaceOk(c, s, i);
    }
  }

  lemma CloseMoves(c: Config, s: State, r: nat, t: nat)
    requires Token(c, s, r, t) && Enabled(c, s, Close)
    ensures Token(c, Apply(c, s, Close), r, t)
    ensures forall j :: 0 <= j < |s.at| ==> s.at[j].Reaped? || s.at[j].Waiting?
  {
    AllReaped(s.at[..|s.at| - 1]);
    var u := Apply(c, s, Close);
    forall i | 0 <= i < |u.at|
      ensures PlaceOk(c, u, i)
    {
      assert PlaceOk(c, s, i);
    }
  }

  lemma StepKeepsInv(c: Config, s: State, step: Step)
    requires Inv(c, s) && Enabled(c, s, step)
    ensures Inv(c, Apply(c, s, step))
  {
    var r: nat, t: nat :| Token(c, s, r, t);
    match step
    case Down(j) => DownMoves(c, s, r, t, j);
    case PutChar(j) => PutCharMoves(c, s, r, t, j);
    case Up(j) => UpMoves(c, s, r, t, j);
    case Close => CloseMoves(c, s, r, t);
    case Fork | ForkFails => ForkMoves(c, s, r, t, step);
    case _ => RestMoves(c, s, r, t, step);
  }

  ghost predicate Runs(c: Config, s: State, steps: seq<Step>, t: State)
    decreases |steps|
  {
    if steps == [] then s == t
    else Enabled(c, s, steps[0]) && Runs(c, Apply(c, s, steps[0]), steps[1..], t)
  }

  lemma {:induction false} RunKeepsInv(c: Config, s: State, steps: seq<Step>, t: State)
    requires Inv(c, s) && Runs(c, s, steps, t)
    ensures Inv(c, t)
    decreases |steps|
  {
    if steps != [] {
      StepKeepsInv(c, s, steps[0]);
      RunKeepsInv(c, Apply(c, s, steps[0]), steps[1..], t);
    }
  }

  lemma Reachable(c: Config, steps: seq<Step>, s: State)
    requires ConfigOk(c) && Runs(c, Initial(c), steps, s)
    ensures Inv(c, s)
  {
    assert Token(c, Initial(c), 0, 0);
    RunKeepsInv(c, Initial(c), steps, s);
  }

  // ------------------------------------------------------------------ what is printed

  lemma {:induction false} CatPrefix(words: seq<string>, t: nat, n: nat, pos: nat)
    requires t < n <= |words| && pos <= |words[t]|
    ensures Cat(words, t) + words[t][..pos] <= Cat(words, n)
    decreases n
  {
    if t + 1 < n {
      CatPrefix(words, t, n - 1, pos);
    } else {
      assert Cat(words, n) == Cat(words, t) + words[t];
    }
  }

  lemma {:induction false} RoundsPrefix(words: seq<string>, r: nat, count: nat)
    requires r <= count
    ensures Rounds(words, r) <= Rounds(words, count)
    decreases count
  {
    if r < count {
      RoundsPrefix(words, r, count - 1);
    }
  }

  /** A whole round, and a prefix of the next. */
  lemma PartialRound(words: seq<string>, r: nat, t: nat, pos: nat, count: nat)
    requires r < count && t < |words| && pos <= |words[t]|
    ensures Rounds(words, r) + (Cat(words, t) + words[t][..pos]) <= Rounds(words, count)
  {
    CatPrefix(words, t, |words|, pos);
    RoundsPrefix(words, r + 1, count);
    assert Rounds(words, r + 1) == Rounds(words, r) + Cat(words, |words|);
  }

  lemma TokenPrefix(c: Config, s: State, r: nat, t: nat)
    requires Token(c, s, r, t)
    ensures s.out <= Rounds(c.words, c.count)
  {
    assert PlaceOk(c, s, t);
    if r == c.count {
      assert s.out == Rounds(c.words, r);
    } else {
      var pos := if s.at[t].Printing? then s.at[t].pos else 0;
      assert Partial(c.words[t], s.at[t]) == c.words[t][..pos];
      PartialRound(c.words, r, t, pos, c.count);
      assert s.out == Rounds(c.words, r) + (Cat(c.words, t) + c.words[t][..pos]);
    }
  }

  /** In every interleaving the output is a prefix of count rounds of the words, down to the character. */
  lemma OutputOrder(c: Config, steps: seq<Step>, s: State)
    requires ConfigOk(c) && Runs(c, Initial(c), steps, s)
    ensures s.out <= Rounds(c.words, c.count)
  {
    Reachable(c, steps, s);
    var r: nat, t: nat :| Token(c, s, r, t);
    TokenPrefix(c, s, r, t);
  }

  // ------------------------------------------------------------------ what rounds are

  /** All words in a row: those of u and then those of v, and of one word that word. */
  lemma {:induction false} CatIs(u: seq<string>, v: seq<string>)
    ensures u == [] ==> Cat(u, |u|) == ""
    ensures forall w :: u == [w] ==> Cat(u, |u|) == w
    ensures Cat(u + v, |u + v|) == Cat(u, |u|) + Cat(v, |v|)
    decreases |v|
  {
    if v == [] {
      assert u + v == u;
    } else {
      var n := |v| - 1;
      CatIs(u, v[..n]);
      CatFront(u + v, |u| + n);
      CatFront(v, n);
      assert (u + v)[..|u| + n] == u + v[..n];
    }
    if |u| == 1 {
      assert Cat(u, 0) + u[0] == u[0];
    }
  }

  lemma {:induction false} CatFront(words: seq<string>, n: nat)
    requires n <= |words|
    ensures Cat(words[..n], n) == Cat(words, n)
    decreases n
  {
    if n > 0 {
      CatFront(words, n - 1);
      CatFront(words[..n], n - 1);
      assert words[..n][..n - 1] == words[..n - 1];
    }
  }

  /** Rounds come one after the other, and one round is all words in a row. */
  lemma {:induction false} RoundsAre(words: seq<string>, m: nat, n: nat)
    ensures Rounds(words, 0) == "" && Rounds(words, 1) == Cat(words, |words|)
    ensures Rounds(words, m + n) == Rounds(words, m) + Rounds(words, n)
    decreases n
  {
    assert Rounds(words, 1) == Rounds(words, 0) + Cat(words, |words|);
    if n > 0 {
      RoundsAre(words, m, n - 1);
    }
  }

  lemma CatPair(a: string, b: string)
    ensures Cat([a, b], 2) == a + b
  {
    assert Cat([a, b], 1) == Cat([a, b], 0) + a == a;
  }

  lemma CatTriple(a: string, b: string, c: string)
    ensures Cat([a, b, c], 3) == a + b + c
  {
    assert Cat([a, b, c], 1) == Cat([a, b, c], 0) + a == a;
    assert Cat([a, b, c], 2) == a + b;
  }

  lemma NextRound(words: seq<string>, r: nat, round: string)
    requires Cat(words, |words|) == round
    ensures Rounds(words, 0) == "" && Rounds(words, r + 1) == Rounds(words, r) + round
  {
  }

  /** A round of two words, and one of three. */
  lemma RoundIs(a: string, b: string, c: string, r: nat)
    ensures Rounds([a, b], 0) == "" && Rounds([a, b], r + 1) == Rounds([a, b], r) + (a + b)
    ensures Rounds([a, b, c], 0) == "" && Rounds([a, b, c], r + 1) == Rounds([a, b, c], r) + (a + b + c)
  {
    CatPair(a, b);
    NextRound([a, b], r, a + b);
    CatTriple(a, b, c);
    NextRound([a, b, c], r, a + b + c);
  }

  function TotalLength(words: seq<string>): nat {
    if words == [] then 0 else |words[0]| + TotalLength(words[1..])
  }

  lemma {:induction false} CatLength(words: seq<string>)
    ensures |Cat(words, |words|)| == TotalLength(words)
    decreases |words|
  {
    if words != [] {
      CatIs([words[0]], words[1..]);
      CatIs([], []);
      assert [words[0]] + words[1..] == words;
      CatLength(words[1..]);
    }
  }

  /** r rounds are r times as long as the words are together. */
  lemma {:induction false} RoundsLength(words: seq<string>, r: nat)
    ensures |Rounds(words, r)| == r * TotalLength(words)
    decreases r
  {
    CatLength(words);
    if r > 0 {
      RoundsLength(words, r - 1);
    }
  }

  lemma CatSplit(words: seq<string>, j: nat) returns (before: string, after: string)
    requires j < |words|
    ensures Cat(words, |words|) == before + (words[j] + after) && |before| == TotalLength(words[..j])
  {
    var u, v := words[..j], words[j + 1..];
    before, after := Cat(u, |u|), Cat(v, |v|);
    assert [words[j]] + v == words[j..] && u + words[j..] == words;
    CatIs([words[j]], v);
    CatIs(u, words[j..]);
    CatLength(u);
  }

  lemma CatAt(words: seq<string>, j: nat, pos: nat)
    requires j < |words| && pos < |words[j]|
    ensures var k := TotalLength(words[..j]) + pos;
      k < |Cat(words, |words|)| && Cat(words, |words|)[k] == words[j][pos]
  {
    var before, after := CatSplit(words, j);
    assert (before + (words[j] + after))[|before| + pos] == words[j][pos];
  }

  lemma RoundsSplit(words: seq<string>, r: nat, i: nat)
    requires i < r
    ensures Rounds(words, r) == Rounds(words, i) + (Cat(words, |words|) + Rounds(words, r - i - 1))
  {
    RoundsAre(words, i, r - i);
    RoundsAre(words, 1, r - i - 1);
  }

  /** Where character pos of word j is printed in round i: behind i rounds, and the words in front of it. */
  lemma RoundsAt(words: seq<string>, r: nat, i: nat, j: nat, pos: nat)
    requires i < r && j < |words| && pos < |words[j]|
    ensures var k := |Rounds(words, i)| + (TotalLength(words[..j]) + pos);
      k < |Rounds(words, r)| && Rounds(words, r)[k] == words[j][pos]
  {
    RoundsSplit(words, r, i);
    CatAt(words, j, pos);
    InMiddle(Rounds(words, i), Cat(words, |words|), Rounds(words, r - i - 1), TotalLength(words[..j]) + pos);
  }

  lemma InMiddle(a: string, b: string, c: string, k: nat)
    requires k < |b|
    ensures |a| + k < |a + (b + c)| && (a + (b + c))[|a| + k] == b[k]
  {
  }

  /** The rounds start with the words in a row and repeat them. */
  lemma {:induction false} Periodic(words: seq<string>, r: nat)
    ensures Repeats(Rounds(words, r), Cat(words, |words|))
    decreases r
  {
    if r > 1 {
      Periodic(words, r - 1);
      RoundsAre(words, 1, r - 1);
      RoundsAre(words, r - 1, 1);
      LongerRepeats(Rounds(words, r - 1), Cat(words, |words|), Rounds(words, r));
    } else if r == 1 {
      RoundsAre(words, 0, 1);
    }
  }

  /** out repeats line, over and over, up to some character of it. */
  predicate Repeats(out: string, line: string) {
    && (forall k :: 0 <= k < |out| && k < |line| ==> out[k] == line[k])
    && (forall k :: |line| <= k < |out| ==> out[k] == out[k - |line|])
  }

  lemma LongerRepeats(out: string, line: string, longer: string)
    requires Repeats(out, line) && longer == line + out == out + line
    ensures Repeats(longer, line)
  {
    forall k | |line| <= k < |longer|
      ensures longer[k] == longer[k - |line|]
    {
      assert (line + out)[k] == out[k - |line|] == (out + line)[k - |line|];
    }
  }

  lemma RoundsRepeat(words: seq<string>, r: nat, line: string, out: string)
    requires line == Cat(words, |words|) && out <= Rounds(words, r)
    ensures |out| <= r * |line| && Repeats(out, line) && (out == Rounds(words, r) ==> |out| == r * |line|)
  {
    CatLength(words);
    RoundsLength(words, r);
    Periodic(words, r);
    assert forall k :: 0 <= k < |out| ==> out[k] == Rounds(words, r)[k];
  }

  /** pingpong prints (ping pong)^count, however its two processes are scheduled. */
  lemma PingPongOrder(count: nat, steps: seq<Step>, s: State)
    requires count > 0
    requires Runs(Config(["ping\n", "\tpong\n"], count), Initial(Config(["ping\n", "\tpong\n"], count)), steps, s)
    ensures |s.out| <= count * 11 && Repeats(s.out, "ping\n\tpong\n")
    ensures Enabled(Config(["ping\n", "\tpong\n"], count), s, Close) ==> |s.out| == count * 11
  {
    var c := Config(["ping\n", "\tpong\n"], count);
    OutputOrder(c, steps, s);
    CatPair("ping\n", "\tpong\n");
    RoundsRepeat(c.words, count, "ping\n\tpong\n", s.out);
    if Enabled(c, s, Close) {
      CloseIsLast(c, steps, s);
    }
  }

  /** tateti prints (TA TE TI)^count, however its three processes are scheduled. */
  lemma TatetiOrder(count: nat, steps: seq<Step>, s: State)
    requires count > 0
    requires Runs(Config(["TA ", "TE ", "TI\n"], count), Initial(Config(["TA ", "TE ", "TI\n"], count)), steps, s)
    ensures |s.out| <= count * 9 && Repeats(s.out, "TA TE TI\n")
    ensures Enabled(Config(["TA ", "TE ", "TI\n"], count), s, Close) ==> |s.out| == count * 9
  {
    var c := Config(["TA ", "TE ", "TI\n"], count);
    OutputOrder(c, steps, s);
    CatTriple("TA ", "TE ", "TI\n");
    RoundsRepeat(c.words, count, "TA TE TI\n", s.out);
    if Enabled(c, s, Close) {
      CloseIsLast(c, steps, s);
    }
  }

  // ------------------------------------------------------------------ one token, progress, closing

  function Sum(value: seq<int>): int {
    if value == [] then 0 else value[0] + Sum(value[1..])
  }

  function InSection(at: seq<Place>): nat {
    if at == [] then 0 else (if at[0].Printing? then 1 else 0) + InSection(at[1..])
  }

  lemma {:induction false} SumOne(value: seq<int>, at: seq<Place>, t: int)
    requires |value| == |at|
    requires forall j :: 0 <= j < |at| && j != t ==> value[j] == 0 && !at[j].Printing?
    requires 0 <= t < |at| ==> value[t] == if at[t].Printing? then 0 else 1
    ensures Sum(value) + InSection(at) == if 0 <= t < |at| then 1 else 0
    decreases |value|
  {
    if value != [] {
      SumOne(value[1..], at[1..], t - 1);
    }
  }

  /** Until the semaphores are closed there is exactly one token, in a semaphore or with the one process that prints. */
  lemma OneToken(c: Config, steps: seq<Step>, s: State)
    requires ConfigOk(c) && Runs(c, Initial(c), steps, s) && s.closed == 0
    ensures Sum(s.value) + InSection(s.at) == 1
  {
    Reachable(c, steps, s);
    var r: nat, t: nat :| Token(c, s, r, t);
    SumOne(s.value, s.at, t);
  }

  /** sem_close runs only when every other process has exited and been waited for. */
  lemma CloseIsLast(c: Config, steps: seq<Step>, s: State)
    requires ConfigOk(c) && Runs(c, Initial(c), steps, s) && Enabled(c, s, Close)
    ensures forall j :: 0 <= j < |s.at| - 1 ==> s.at[j].Reaped?
    ensures s.out == Rounds(c.words, c.count)
  {
    Reachable(c, steps, s);
    var r: nat, t: nat :| Token(c, s, r, t);
    AllReaped(s.at[..|s.at| - 1]);
    assert PlaceOk(c, s, |s.at| - 1) && PlaceOk(c, s, t) && PlaceOk(c, s, 0);
    assert r == c.count && t == 0;
    assert s.out == Rounds(c.words, r) + "" + "";
  }

  /** Process j has had its turn, and waits for another one or has exited. */
  predicate HadTurn(c: Config, s: State, j: int)
    requires 0 <= j < |s.at| && |s.turns| == |s.at|
  {
    s.turns[j] == 1 && if c.count == 1 then s.at[j].Exited? else s.at[j].Loop?
  }

  /** A fork has failed, and the processes there are wait for a unit that the missing ones do not give. */
  predicate Stuck(c: Config, s: State)
    requires Shape(c, s) && ConfigOk(c)
  {
    s.at[|s.at| - 1].Failed? && forall j :: 0 <= j < s.forked && j < |s.at| ==> HadTurn(c, s, j)
  }

  ghost predicate CanGoOn(c: Config, s: State) {
    exists step :: Enabled(c, s, step)
  }

  lemma LiveGoesOn(c: Config, s: State, r: nat, t: nat) returns (step: Step)
    requires Token(c, s, r, t) && s.closed < |s.value| && s.forked == |s.at| - 1
    ensures Enabled(c, s, step)
  {
    var k := |s.at|;
    assert PlaceOk(c, s, t) && PlaceOk(c, s, k - 1);
    if s.at[t].Printing? {
      step := if s.at[t].pos < |c.words[t]| then PutChar(t) else Up(t);
    } else if s.at[t].Loop? && r < c.count {
      step := Down(t);
    } else if i :| 0 <= i < k && s.at[i].Loop? {
      step := LeaveLoop(i);
    } else if ReapedCount(s.at[..k - 1]) < k - 1 {
      var j := NotAllReaped(s.at[..k - 1]);
      assert PlaceOk(c, s, j);
      step := Reap(j);
    } else {
      step := Close;
    }
  }

  /** When a fork has failed, the first round ends at the first process that is missing. */
  lemma FailedGoesOn(c: Config, s: State, r: nat, t: nat)
    requires Token(c, s, r, t) && s.at[|s.at| - 1].Failed?
    ensures r == 0 && t <= s.forked && s.closed == 0
    ensures CanGoOn(c, s) <==> !Stuck(c, s)
    ensures Stuck(c, s) ==> t == s.forked && s.at[t].Unborn?
  {
    var k := |s.at|;
    assert PlaceOk(c, s, k - 1) && PlaceOk(c, s, t);
    if t < s.forked {
      assert s.turns[t] == 0 && !HadTurn(c, s, t);
      assert Enabled(c, s, if s.at[t].Loop? then Down(t) else if s.at[t].pos < |c.words[t]| then PutChar(t) else Up(t));
    } else {
      forall j | 0 <= j < t
        ensures s.turns[j] == 1 && (s.at[j].Loop? || s.at[j].Exited?) && (s.at[j].Exited? ==> c.count == 1)
      {
        assert PlaceOk(c, s, j);
      }
      if j :| 0 <= j < t && !HadTurn(c, s, j) {
        assert PlaceOk(c, s, j);
        assert Enabled(c, s, LeaveLoop(j));
      } else {
        NothingEnabled(c, s, t);
      }
    }
  }

  lemma NothingEnabled(c: Config, s: State, t: nat)
    requires Token(c, s, 0, t) && Stuck(c, s) && t == s.forked && PlaceOk(c, s, t)
    ensures !CanGoOn(c, s)
  {
    forall step
      ensures !Enabled(c, s, step)
    {
      if (step.Down? || step.PutChar? || step.Up? || step.LeaveLoop?) && 0 <= step.j < |s.at| {
        assert PlaceOk(c, s, step.j) && (step.j < s.forked ==> HadTurn(c, s, step.j));
      }
    }
  }

  /**
   Until all semaphores are closed some process can go on, but for one case: a fork has failed, and each
   process that was made has had one turn. The semaphores are then never closed, and whoever wants another
   turn waits for ever.
   */
  lemma Progress(c: Config, steps: seq<Step>, s: State)
    requires ConfigOk(c) && Runs(c, Initial(c), steps, s) && s.closed < |s.value|
    ensures Shape(c, s) && (CanGoOn(c, s) <==> !Stuck(c, s))
    ensures s.forked <= |c.words| && (Stuck(c, s) ==> s.closed == 0 && s.out == Cat(c.words, s.forked))
  {
    Reachable(c, steps, s);
    var r: nat, t: nat :| Token(c, s, r, t);
    var k := |s.at|;
    if s.at[k - 1].Failed? {
      FailedGoesOn(c, s, r, t);
    } else if s.at[k - 1].Forking? {
      assert Enabled(c, s, Fork);
    } else {
      var step := LiveGoesOn(c, s, r, t);
    }
  }

  ghost predicate Leads(c: Config, s: State, t: State) {
    exists steps: seq<Step> :: Runs(c, s, steps, t)
  }

  lemma {:induction false} RunThen(c: Config, s: State, steps: seq<Step>, t: State, step: Step)
    requires Runs(c, s, steps, t) && Enabled(c, t, step)
    ensures Runs(c, s, steps + [step], Apply(c, t, step))
    decreases |steps|
  {
    if steps == [] {
      assert (steps + [step])[1..] == [];
    } else {
      RunThen(c, Apply(c, s, steps[0]), steps[1..], t, step);
      assert (steps + [step])[1..] == steps[1..] + [step];
    }
  }

  lemma Then(c: Config, s: State, t: State, step: Step)
    requires Leads(c, s, t) && Enabled(c, t, step)
    ensures Leads(c, s, Apply(c, t, step))
  {
    var steps: seq<Step> :| Runs(c, s, steps, t);
    RunThen(c, s, steps, t, step);
  }

  /** The first process is the only one that was made, and is in its first turn with the token. */
  predicate Alone(c: Config, s: State) {
    && Shape(c, s) && |s.at| > 2 && s.forked == 1 && s.at[|s.at| - 1].Failed? && s.closed == 0
    && s.turns[0] == 0 && s.value[0] == 0 && s.at[0].Printing? && s.at[0].pos <= |c.words[0]|
  }

  lemma {:induction false} PrintWord(c: Config, s: State, t: State) returns (u: State)
    requires ConfigOk(c) && Leads(c, s, t) && Alone(c, t)
    ensures Leads(c, s, u) && Alone(c, u) && u.at[0].pos == |c.words[0]|
    decreases if t.at[0].Printing? then |c.words[0]| - t.at[0].pos else 0
  {
    if t.at[0].pos == |c.words[0]| {
      return t;
    }
    Then(c, s, t, PutChar(0));
    u := PrintWord(c, s, Apply(c, t, PutChar(0)));
  }

  /** Only the second fork fails. */
  lemma ForkOnce(c: Config) returns (u: State)
    requires ConfigOk(c) && |c.words| > 2
    ensures Leads(c, Initial(c), u) && Alone(c, u)
  {
    u := Initial(c);
    assert Runs(c, u, [], u);
    Then(c, Initial(c), u, Fork);
    u := Apply(c, u, Fork);
    Then(c, Initial(c), u, ForkFails);
    u := Apply(c, u, ForkFails);
    Then(c, Initial(c), u, Down(0));
    u := Apply(c, u, Down(0));
  }

  /**
   With three processes or more and two rounds or more: when the second fork fails, the first process prints
   its word and then sleeps for ever, as the first child of tateti does.
   */
  lemma SecondForkFails(c: Config) returns (u: State)
    requires ConfigOk(c) && |c.words| > 2 && c.count > 1
    ensures Leads(c, Initial(c), u) && Shape(c, u) && Stuck(c, u)
    ensures u.at[0].Loop? && u.turns[0] == 1 < c.count && u.value[0] == 0
  {
    u := ForkOnce(c);
    u := PrintWord(c, Initial(c), u);
    Then(c, Initial(c), u, Up(0));
    u := Apply(c, u, Up(0));
  }
}
