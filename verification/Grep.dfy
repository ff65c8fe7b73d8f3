/**
 The regular-expression matcher of user/grep.c.

 A C string is a `string` together with an index that plays the pointer; reading the
 terminating NUL is the test that the index has reached the end.
 */
module Grep {

  /** What one step of a pattern asks of the text. */
  datatype Item = One(c: char) | Star(c: char) | End

  /** The declarative reading of the pattern that starts at re[r]. */
  function Items(re: string, r: nat): seq<Item>
    requires r <= |re|
    decreases |re| - r
  {
    if r == |re| then []
    else if r + 1 < |re| && re[r + 1] == '*' then [Star(re[r])] + Items(re, r + 2)
    else if re[r] == '$' && r + 1 == |re| then [End]
    else [One(re[r])] + Items(re, r + 1)
  }

  predicate Accepts(c: char, x: char) {
    c == '.' || c == x
  }

  /** text[a..b] is a piece the item stands for. */
  predicate Piece(item: Item, text: string, a: nat, b: nat) {
    && a <= b <= |text|
    && match item
       case One(c) => b == a + 1 && Accepts(c, text[a])
       case Star(c) => forall k :: a <= k < b ==> Accepts(c, text[k])
       case End => a == b == |text|
  }

  /** cuts splits text[cuts[0]..] into consecutive pieces, one per item. */
  ghost predicate IsSplit(items: seq<Item>, text: string, cuts: seq<nat>) {
    && |cuts| == |items| + 1
    && cuts[0] <= |text|
    && forall i :: 0 <= i < |items| ==> Piece(items[i], text, cuts[i], cuts[i + 1])
  }

  ghost predicate HasSplit(items: seq<Item>, text: string, t: nat) {
    exists cuts :: IsSplit(items, text, cuts) && cuts[0] == t
  }

  /** The meaning of a whole pattern: a leading ^ anchors the first cut at 0. */
  ghost predicate Found(re: string, text: string) {
    if re != [] && re[0] == '^' then HasSplit(Items(re, 1), text, 0)
    else exists t: nat :: t <= |text| && HasSplit(Items(re, 0), text, t)
  }

  lemma SplitNil(text: string, t: nat)
    requires t <= |text|
    ensures HasSplit([], text, t)
  {
    assert IsSplit([], text, [t]);
  }

  lemma SplitConsIntro(item: Item, rest: seq<Item>, text: string, t: nat, u: nat)
    requires Piece(item, text, t, u) && HasSplit(rest, text, u)
    ensures HasSplit([item] + rest, text, t)
  {
    var cuts :| IsSplit(rest, text, cuts) && cuts[0] == u;
    var all := [t] + cuts;
    forall i | 0 <= i < |[item] + rest|
      ensures Piece(([item] + rest)[i], text, all[i], all[i + 1])
    {
      if i > 0 {
        assert Piece(rest[i - 1], text, cuts[i - 1], cuts[i]);
      }
    }
    assert IsSplit([item] + rest, text, all);
  }

  lemma SplitConsElim(item: Item, rest: seq<Item>, text: string, t: nat) returns (u: nat)
    requires HasSplit([item] + rest, text, t)
    ensures Piece(item, text, t, u) && HasSplit(rest, text, u)
  {
    var cuts :| IsSplit([item] + rest, text, cuts) && cuts[0] == t;
    u := cuts[1];
    assert Piece(([item] + rest)[0], text, cuts[0], cuts[1]);
    forall i | 0 <= i < |rest|
      ensures Piece(rest[i], text, cuts[1..][i], cuts[1..][i + 1])
    {
      assert Piece(([item] + rest)[i + 1], text, cuts[i + 1], cuts[i + 2]);
    }
    assert IsSplit(rest, text, cuts[1..]);
  }

  /** matchhere: does the pattern at re[r] match at text[t]? */
  method MatchHere(re: string, r: nat, text: string, t: nat) returns (b: bool)
    requires r <= |re| && t <= |text|
    ensures b == HasSplit(Items(re, r), text, t)
    decreases |re| - r, |text| - t, 0
  {
    if r == |re| {
      SplitNil(text, t);
      return true;
    }
    if r + 1 < |re| && re[r + 1] == '*' {
      b := MatchStar(re[r], re, r + 2, text, t);
      return;
    }
    if re[r] == '$' && r + 1 == |re| {
      EndOnly(text, t);
      return t == |text|;
    }
    if t < |text| && (re[r] == '.' || re[r] == text[t]) {
      b := MatchHere(re, r + 1, text, t + 1);
      OneStep(re[r], Items(re, r + 1), text, t);
      return;
    }
    OneStep(re[r], Items(re, r + 1), text, t);
    return false;
  }

  /** matchstar: does c* followed by the pattern at re[r] match at text[t]? */
  method MatchStar(c: char, re: string, r: nat, text: string, t: nat) returns (b: bool)
    requires r <= |re| && t <= |text|
    ensures b == HasSplit([Star(c)] + Items(re, r), text, t)
    decreases |re| - r, |text| - t, 1
  {
    var u := t;
    while true
      invariant t <= u <= |text|
      invariant Piece(Star(c), text, t, u)
      invariant forall v: nat :: t <= v < u ==> !HasSplit(Items(re, r), text, v)
      decreases |text| - u
    {
      var here := MatchHere(re, r, text, u);
      if here {
        SplitConsIntro(Star(c), Items(re, r), text, t, u);
        return true;
      }
      if !(u < |text| && (text[u] == c || c == '.')) {
        break;
      }
      u := u + 1;
    }
    if HasSplit([Star(c)] + Items(re, r), text, t) {
      ghost var v := SplitConsElim(Star(c), Items(re, r), text, t);
      assert false;
    }
    return false;
  }

  lemma EndOnly(text: string, t: nat)
    requires t <= |text|
    ensures HasSplit([End], text, t) <==> t == |text|
  {
    assert [End] == [End] + [];
    if HasSplit([End], text, t) {
      var _ := SplitConsElim(End, [], text, t);
    }
    if t == |text| {
      SplitNil(text, t);
      SplitConsIntro(End, [], text, t, t);
    }
  }

  lemma OneStep(c: char, rest: seq<Item>, text: string, t: nat)
    requires t <= |text|
    ensures HasSplit([One(c)] + rest, text, t)
            <==> t < |text| && Accepts(c, text[t]) && HasSplit(rest, text, t + 1)
  {
    if HasSplit([One(c)] + rest, text, t) {
      var _ := SplitConsElim(One(c), rest, text, t);
    }
    if t < |text| && Accepts(c, text[t]) && HasSplit(rest, text, t + 1) {
      SplitConsIntro(One(c), rest, text, t, t + 1);
    }
  }

  /** match: 1 exactly when some part of the text is described by the pattern. */
  method Match(re: string, text: string) returns (b: bool)
    ensures b == Found(re, text)
  {
    if re != [] && re[0] == '^' {
      b := MatchHere(re, 1, text, 0);
      return;
    }
    var t := 0;
    while true
      invariant t <= |text|
      invariant forall v: nat :: v < t ==> !HasSplit(Items(re, 0), text, v)
      decreases |text| - t
    {
      var here := MatchHere(re, 0, text, t);
      if here {
        return true;
      }
      if t == |text| {
        return false;
      }
      t := t + 1;
    }
  }

  // ------------------------------------------------------------------ what patterns mean, character by character

  predicate NoStar(re: string, r: nat) {
    forall k :: r <= k < |re| ==> re[k] != '*'
  }

  /** Where the pattern ends, but for a closing $. */
  function Body(re: string, r: nat): (m: nat)
    requires r <= |re|
    ensures r <= m <= |re|
  {
    if r < |re| && re[|re| - 1] == '$' then |re| - 1 else |re|
  }

  /** re[r..m] and the text from t on agree, '.' being any character. */
  predicate Agree(re: string, r: nat, m: nat, text: string, t: nat)
    requires r <= m <= |re|
  {
    t + (m - r) <= |text| && forall k :: r <= k < m ==> re[k] == '.' || re[k] == text[t + (k - r)]
  }

  /** The characters of re from r on are those of text from t on, and a closing $ is the end. */
  predicate FitsAt(re: string, r: nat, text: string, t: nat)
    requires r <= |re|
  {
    var m := Body(re, r);
    Agree(re, r, m, text, t) && (m < |re| ==> t + (m - r) == |text|)
  }

  lemma {:induction false} StarlessHere(re: string, r: nat, text: string, t: nat)
    requires r <= |re| && t <= |text| && NoStar(re, r)
    ensures HasSplit(Items(re, r), text, t) <==> FitsAt(re, r, text, t)
    decreases |re| - r
  {
    if r == |re| {
      SplitNil(text, t);
    } else if re[r] == '$' && r + 1 == |re| {
      EndOnly(text, t);
    } else {
      OneStep(re[r], Items(re, r + 1), text, t);
      if t < |text| {
        StarlessHere(re, r + 1, text, t + 1);
        AgreeStep(re, r, Body(re, r), text, t);
      }
    }
  }

  lemma AgreeStep(re: string, r: nat, m: nat, text: string, t: nat)
    requires r < m <= |re| && t < |text|
    ensures Agree(re, r, m, text, t) <==> (re[r] == '.' || re[r] == text[t]) && Agree(re, r + 1, m, text, t + 1)
  {
    if (re[r] == '.' || re[r] == text[t]) && Agree(re, r + 1, m, text, t + 1) {
      forall k | r <= k < m
        ensures re[k] == '.' || re[k] == text[t + (k - r)]
      {
        assert k > r ==> text[t + (k - r)] == text[t + 1 + (k - (r + 1))];
      }
    }
    if Agree(re, r, m, text, t) {
      forall k | r + 1 <= k < m
        ensures re[k] == '.' || re[k] == text[t + 1 + (k - (r + 1))]
      {
        assert text[t + (k - r)] == text[t + 1 + (k - (r + 1))];
      }
    }
  }

  /**
   A pattern without * is found where its characters are, '.' standing for any one; behind a leading ^
   only at the start of the text, with a closing $ only at its end.
   */
  lemma StarlessIs(re: string, text: string)
    requires NoStar(re, 0)
    ensures re != [] && re[0] == '^' ==> (Found(re, text) <==> FitsAt(re, 1, text, 0))
    ensures re == [] || re[0] != '^' ==> (Found(re, text) <==> exists t: nat :: t <= |text| && FitsAt(re, 0, text, t))
  {
    if re != [] && re[0] == '^' {
      StarlessHere(re, 1, text, 0);
    } else {
      forall t: nat | t <= |text|
        ensures HasSplit(Items(re, 0), text, t) <==> FitsAt(re, 0, text, t)
      {
        StarlessHere(re, 0, text, t);
      }
    }
  }

  predicate AllAre(c: char, text: string, t: nat, u: nat) {
    t <= u <= |text| && forall k :: t <= k < u ==> c == '.' || text[k] == c
  }

  /** c* stands for any number of characters, each c, or any if c is '.'; the rest of the pattern follows them. */
  lemma StarIs(re: string, r: nat, text: string, t: nat)
    requires r + 1 < |re| && re[r + 1] == '*' && t <= |text|
    ensures HasSplit(Items(re, r), text, t) <==>
      exists u: nat :: AllAre(re[r], text, t, u) && HasSplit(Items(re, r + 2), text, u)
  {
    var rest := Items(re, r + 2);
    if HasSplit([Star(re[r])] + rest, text, t) {
      var u := SplitConsElim(Star(re[r]), rest, text, t);
      assert AllAre(re[r], text, t, u);
    }
    if u: nat :| AllAre(re[r], text, t, u) && HasSplit(rest, text, u) {
      SplitConsIntro(Star(re[r]), rest, text, t, u);
    }
  }

  /** The empty pattern matches anywhere, and a closing $ at the end of the text only. */
  lemma EndIs(re: string, r: nat, text: string, t: nat)
    requires r <= |re| && t <= |text|
    ensures r == |re| ==> HasSplit(Items(re, r), text, t)
    ensures r + 1 == |re| && re[r] == '$' ==> (HasSplit(Items(re, r), text, t) <==> t == |text|)
  {
    if r == |re| {
      SplitNil(text, t);
    } else {
      EndOnly(text, t);
    }
  }

  /**
   Any other character that no * follows, wherever it stands, takes one character of the text, that one or,
   if it is '.', any; the rest of the pattern follows it.
   */
  lemma PlainIs(re: string, r: nat, text: string, t: nat)
    requires r < |re| && t <= |text| && (r + 1 < |re| ==> re[r + 1] != '*') && (r + 1 == |re| ==> re[r] != '$')
    ensures HasSplit(Items(re, r), text, t) <==>
      t < |text| && (re[r] == '.' || re[r] == text[t]) && HasSplit(Items(re, r + 1), text, t + 1)
  {
    OneStep(re[r], Items(re, r + 1), text, t);
  }

  /** A run of plain characters in front of more pattern is matched one by one. */
  lemma {:induction false} RunIs(re: string, r: nat, m: nat, text: string, t: nat)
    requires r <= m < |re| && t <= |text| && forall k :: r < k <= m ==> re[k] != '*'
    ensures HasSplit(Items(re, r), text, t) <==>
      Agree(re, r, m, text, t) && HasSplit(Items(re, m), text, t + (m - r))
    decreases m - r
  {
    if r < m {
      PlainIs(re, r, text, t);
      if t < |text| {
        RunIs(re, r + 1, m, text, t + 1);
        AgreeStep(re, r, m, text, t);
      }
    }
  }

  /**
   The characters from re[from] on agree with the text from t on up to the one that the * at re[k] repeats,
   which text[t + (k - 1 - from)..u] consists of, and the pattern behind the * matches at u.
   */
  ghost predicate StarFits(re: string, from: nat, k: nat, text: string, t: nat, u: nat)
    requires from < k < |re|
  {
    && Agree(re, from, k - 1, text, t) && AllAre(re[k - 1], text, t + (k - 1 - from), u)
    && HasSplit(Items(re, k + 1), text, u)
  }

  lemma StarHere(re: string, from: nat, k: nat, text: string, t: nat)
    requires from < k < |re| && re[k] == '*' && (forall j :: from < j < k ==> re[j] != '*') && t <= |text|
    ensures HasSplit(Items(re, from), text, t) <==> exists u: nat :: StarFits(re, from, k, text, t, u)
  {
    RunIs(re, from, k - 1, text, t);
    if Agree(re, from, k - 1, text, t) {
      StarIs(re, k - 1, text, t + (k - 1 - from));
      if HasSplit(Items(re, k - 1), text, t + (k - 1 - from)) {
        var u: nat :| AllAre(re[k - 1], text, t + (k - 1 - from), u) && HasSplit(Items(re, k + 1), text, u);
        assert StarFits(re, from, k, text, t, u);
      }
    }
  }

  /**
   What a pattern with a * finds, from its first * on: behind ^ the characters in front agree with the start of
   the text, and otherwise with some place of it; then come the repetitions, and then the rest.
   */
  lemma FoundIs(re: string, text: string, k: nat)
    requires k < |re| && re[k] == '*'
    requires var from := if re[0] == '^' then 1 else 0; from < k && forall j :: from < j < k ==> re[j] != '*'
    ensures re[0] == '^' ==> (Found(re, text) <==> exists u: nat :: StarFits(re, 1, k, text, 0, u))
    ensures re[0] != '^' ==> (Found(re, text) <==> exists t: nat, u: nat :: StarFits(re, 0, k, text, t, u))
  {
    if re[0] == '^' {
      StarHere(re, 1, k, text, 0);
    } else {
      forall t: nat | t <= |text|
        ensures HasSplit(Items(re, 0), text, t) <==> exists u: nat :: StarFits(re, 0, k, text, t, u)
      {
        StarHere(re, 0, k, text, t);
      }
      if t: nat, u: nat :| StarFits(re, 0, k, text, t, u) {
        assert HasSplit(Items(re, 0), text, t);
      }
      if Found(re, text) {
        var t: nat :| t <= |text| && HasSplit(Items(re, 0), text, t);
        var u: nat :| StarFits(re, 0, k, text, t, u);
      }
    }
  }

  const BUF_SIZE := 1024

  /** The index of the first newline of s at or after a, or b when there is none before b. */
  function LineEnd(s: string, a: nat, b: nat): (i: nat)
    requires a <= b <= |s|
    ensures a <= i <= b
    ensures forall k :: a <= k < i ==> s[k] != '\n'
    ensures i < b ==> s[i] == '\n'
    decreases b - a
  {
    if a == b || s[a] == '\n' then a else LineEnd(s, a + 1, b)
  }

  /** `before` and then what grep should print for s[a..b]: the newline-terminated lines that are Found. */
  ghost function Selected(re: string, s: string, a: nat, b: nat, before: string): string
    requires a <= b <= |s|
    decreases b - a
  {
    var i := LineEnd(s, a, b);
    if i == b then before else Selected(re, s, i + 1, b, before + Line(re, s, a, i))
  }

  /** The line s[a..i + 1], if it is to be printed. */
  ghost function Line(re: string, s: string, a: nat, i: nat): string
    requires a <= i < |s|
  {
    if Found(re, s[a..i]) then s[a..i + 1] else ""
  }

  /** What is to be printed, line by line: a line with its newline if the pattern is found in it, else nothing. */
  lemma SelectedIs(re: string, s: string, a: nat, i: nat, b: nat, before: string)
    requires a <= i < b <= |s| && s[i] == '\n' && forall k :: a <= k < i ==> s[k] != '\n'
    ensures Selected(re, s, a, b, before)
            == Selected(re, s, i + 1, b, before + if Found(re, s[a..i]) then s[a..i] + "\n" else "")
  {
    assert LineEnd(s, a, b) == i;
    assert s[a..i] + "\n" == s[a..i + 1];
  }

  /** Characters behind the last newline are not printed. */
  lemma SelectedEnds(re: string, s: string, a: nat, b: nat, before: string)
    requires a <= b <= |s| && forall k :: a <= k < b ==> s[k] != '\n'
    ensures Selected(re, s, a, b, before) == before
  {
    assert LineEnd(s, a, b) == b;
  }

  /** b is the start of a line of s[a..]. */
  predicate LineStart(s: string, a: nat, b: nat) {
    a <= b <= |s| && (a < b ==> s[b - 1] == '\n')
  }

  lemma {:induction false} SelectedAppend(re: string, s: string, a: nat, b: nat, c: nat, before: string)
    requires LineStart(s, a, b) && b <= c <= |s|
    ensures Selected(re, s, a, c, before) == Selected(re, s, b, c, Selected(re, s, a, b, before))
    decreases b - a
  {
    if a < b {
      var i := LineEnd(s, a, b);
      assert i < b by { assert s[b - 1] == '\n'; }
      assert LineEnd(s, a, c) == i;
      SelectedAppend(re, s, i + 1, b, c, before + Line(re, s, a, i));
    }
  }

  /** Where a C string that starts at s[a] ends: at its first NUL. */
  function TextEnd(s: string, a: nat): (z: nat)
    requires a <= |s|
    ensures a <= z <= |s| && (z < |s| ==> s[z] == '\0')
    ensures forall k :: a <= k < z ==> s[k] != '\0'
    decreases |s| - a
  {
    if a == |s| || s[a] == '\0' then a else TextEnd(s, a + 1)
  }

  function Min(a: nat, b: nat): nat {
    if a < b then a else b
  }

  /** output is what grep should have printed for the lines of s[..at], none of which has a NUL. */
  ghost predicate Printed(re: string, s: string, at: nat, output: string) {
    LineStart(s, 0, at) && at <= TextEnd(s, 0) && output == Selected(re, s, 0, at, "")
  }

  /** strchr over the NUL-terminated string at buf[p]. */
  method StrChr(buf: array<char>, p: nat, c: char, ghost end: nat) returns (q: int)
    requires p <= end < buf.Length && c != '\0'
    requires buf[end] == '\0' && forall k :: p <= k < end ==> buf[k] != '\0'
    ensures q < 0 ==> forall k :: p <= k < end ==> buf[k] != c
    ensures 0 <= q ==> p <= q < end && buf[q] == c && forall k :: p <= k < q ==> buf[k] != c
  {
    q := p;
    while buf[q] != '\0'
      invariant p <= q <= end
      invariant forall k :: p <= k < q ==> buf[k] != c
      decreases end - q
    {
      if buf[q] == c {
        return;
      }
      q := q + 1;
    }
    return -1;
  }

  /** buf[p..m] holds s[at..at + m - p]. */
  predicate Holds(buf: array<char>, p: nat, m: nat, s: string, at: nat)
    requires p <= m <= buf.Length && at + m - p <= |s|
    reads buf
  {
    forall k :: p <= k < m ==> buf[k] == s[at + k - p]
  }

  /** read: appends at most cap bytes of the file, at least one unless it or the room is exhausted. */
  method ReadSome(buf: array<char>, m: nat, input: string, used: nat, ghost at: nat) returns (n: nat)
    requires m < buf.Length && at + m == used <= |input| && Holds(buf, 0, m, input, at)
    modifies buf
    ensures used + n <= |input| && m + n < buf.Length
    ensures n == 0 <==> used == |input| || m + 1 == buf.Length
    ensures Holds(buf, 0, m + n, input, at)
  {
    var left, cap := |input| - used, buf.Length - m - 1;
    n := if left < cap then left else cap;
    if n > 1 {
      var fewer: nat :| 1 <= fewer <= n;
      n := fewer;
    }
    forall k | 0 <= k < n {
      buf[m + k] := input[used + k];
    }
  }

  /** memmove(buf, buf + p, m - p). */
  method Shift(buf: array<char>, p: nat, m: nat, ghost s: string, ghost at: nat)
    requires p <= m <= buf.Length && at + m - p <= |s| && Holds(buf, p, m, s, at)
    modifies buf
    ensures Holds(buf, 0, m - p, s, at)
  {
    forall k | 0 <= k < m - p {
      buf[k] := buf[p + k];
    }
  }

  /** s has no newline in [a, b) that strchr can see. */
  predicate NoLineEnd(s: string, a: nat, b: nat)
    requires b <= |s|
  {
    forall k :: a <= k < Min(b, TextEnd(s, 0)) ==> s[k] != '\n'
  }

  /** A line starts at i whose end is not among the bytes the buffer has room for, and there are more. */
  predicate TooLong(s: string, i: nat) {
    && LineStart(s, 0, i) && i <= TextEnd(s, 0)
    && i + (BUF_SIZE - 1) < |s| && NoLineEnd(s, i, i + (BUF_SIZE - 1))
  }

  ghost predicate NoneTooLong(s: string, at: nat) {
    forall i :: 0 <= i < at ==> !TooLong(s, i)
  }

  /**
   grep's buffer loop. However read splits the input, what is printed is exactly the selected
   lines of the part that was read, up to the first NUL; and some of the input is never read if
   and only if there is a line too long for the buffer.
   */
  method Grep(re: string, input: string) returns (output: string, used: nat)
    ensures used <= |input| && output == Selected(re, input, 0, Min(used, TextEnd(input, 0)), "")
    ensures used < |input| <==> exists i: nat :: TooLong(input, i)
  {
    var buf := new char[BUF_SIZE];
    var m: nat := 0;
    ghost var at: nat := 0;
    output, used := "", 0;
    while true
      invariant m < BUF_SIZE && at + m == used <= |input|
      invariant Holds(buf, 0, m, input, at)
      invariant Printed(re, input, at, output)
      invariant NoLineEnd(input, at, used)
      invariant NoneTooLong(input, at)
      decreases |input| - used
    {
      var n := ReadSome(buf, m, input, used, at);
      if n == 0 {
        break;
      }
      m, used := m + n, used + n;
      buf[m] := '\0';
      var p;
      p, output, at := PrintLines(re, buf, m, input, at, output);
      if m > 0 {
        Shift(buf, p, m, input, at);
        m := m - p;
      }
    }
    AllPrinted(re, input, at, used, output);
    StoppedIff(input, at, used);
  }

  lemma AllPrinted(re: string, s: string, at: nat, used: nat, output: string)
    requires Printed(re, s, at, output) && at <= used <= |s| && NoLineEnd(s, at, used)
    ensures output == Selected(re, s, 0, Min(used, TextEnd(s, 0)), "")
  {
    SelectedAppend(re, s, 0, at, Min(used, TextEnd(s, 0)), "");
  }

  lemma StoppedIff(s: string, at: nat, used: nat)
    requires at <= used <= |s| && LineStart(s, 0, at) && at <= TextEnd(s, 0)
    requires NoLineEnd(s, at, used) && NoneTooLong(s, at)
    requires used - at < BUF_SIZE && (used < |s| ==> used - at == BUF_SIZE - 1)
    ensures used < |s| <==> exists i: nat :: TooLong(s, i)
  {
    if used < |s| {
      assert TooLong(s, at);
    }
    if i: nat :| TooLong(s, i) {
      assert i >= at;
      if i > at {
        assert s[i - 1] == '\n';
      }
    }
  }

  /** The inner loop: prints the complete lines of buf[..m] and returns the start of the rest. */
  method PrintLines(re: string, buf: array<char>, m: nat, ghost input: string, ghost start: nat, printed: string)
    returns (p: nat, output: string, ghost at: nat)
    requires m < buf.Length == BUF_SIZE && start + m <= |input| && buf[m] == '\0'
    requires Holds(buf, 0, m, input, start)
    requires Printed(re, input, start, printed) && NoneTooLong(input, start)
    modifies buf
    ensures p <= m && at - start == p && Holds(buf, p, m, input, at)
    ensures Printed(re, input, at, output) && NoneTooLong(input, at)
    ensures NoLineEnd(input, at, start + m)
  {
    p, output, at := 0, printed, start;
    while true
      invariant p <= m && buf[m] == '\0'
      invariant at - start == p
      invariant Holds(buf, p, m, input, at)
      invariant Printed(re, input, at, output)
      invariant NoneTooLong(input, at)
      decreases m - p
    {
      var q, i := FindNewline(buf, p, m, input, at);
      if q < 0 {
        break;
      }
      PrintedNext(re, input, at, i, start + m, output);
      ShortLine(input, at, i);
      var text := MatchLine(re, buf, p, q, m, input, at, i);
      assert text == Line(re, input, at, i);
      p, at, output := q + 1, i + 1, output + text;
    }
  }

  method FindNewline(buf: array<char>, p: nat, m: nat, ghost s: string, ghost at: nat)
    returns (q: int, ghost i: nat)
    requires p <= m < buf.Length && buf[m] == '\0' && at <= TextEnd(s, 0)
    requires at + m - p <= |s| && Holds(buf, p, m, s, at)
    ensures q < 0 ==> NoLineEnd(s, at, at + m - p)
    ensures 0 <= q ==> p <= q < m && at <= i < TextEnd(s, 0) && i - at == q - p
    ensures 0 <= q ==> LineEnd(s, at, at + m - p) == i < at + m - p
  {
    ghost var end := p + Min(m - p, TextEnd(s, 0) - at);
    assert forall k :: at <= k < at + m - p ==> s[k] == buf[k - at + p];
    q := StrChr(buf, p, '\n', end);
    i := if q < 0 then at else at + (q - p);
  }

  /** One turn of the inner loop: the line buf[p..q] is matched, and returned if it is to be printed. */
  method MatchLine(re: string, buf: array<char>, p: nat, q: nat, m: nat, ghost s: string, ghost at: nat, ghost i: nat)
    returns (text: string)
    requires p <= q < m < buf.Length && at + m - p <= |s| && Holds(buf, p, m, s, at)
    requires at <= i && i - at == q - p && s[i] == '\n'
    modifies buf
    ensures buf[m] == old(buf[m]) && Holds(buf, q + 1, m, s, i + 1)
    ensures text == Line(re, s, at, i)
  {
    buf[q] := '\0';
    assert buf[p..q] == s[at..i];
    var hit := Match(re, buf[p..q]);
    if hit {
      buf[q] := '\n';
      assert buf[p..q + 1] == s[at..i + 1];
      return buf[p..q + 1];
    }
    return "";
  }

  lemma PrintedNext(re: string, s: string, a: nat, i: nat, b: nat, output: string)
    requires Printed(re, s, a, output) && a <= i < b <= |s| && i < TextEnd(s, 0) && LineEnd(s, a, b) == i
    ensures s[i] == '\n'
    ensures Printed(re, s, i + 1, output + Line(re, s, a, i))
  {
    assert LineEnd(s, a, i + 1) == i;
    SelectedAppend(re, s, 0, a, i + 1, "");
  }

  /** A line that ends in the buffer is not too long, and none starts inside it. */
  lemma ShortLine(s: string, a: nat, i: nat)
    requires a <= i < TextEnd(s, 0) && i - a < BUF_SIZE - 1 && NoneTooLong(s, a)
    requires s[i] == '\n' && forall k :: a <= k < i ==> s[k] != '\n'
    ensures NoneTooLong(s, i + 1)
  {
    forall j | 0 <= j < i + 1
      ensures !TooLong(s, j)
    {
      if a < j {
        assert s[j - 1] != '\n';
      }
    }
  }

  /** A line of 1024 characters, the newline included. */
  function ALongLine(): (s: string)
    ensures |s| == BUF_SIZE && s[BUF_SIZE - 1] == '\n' && forall k :: 0 <= k < BUF_SIZE - 1 ==> s[k] == 'a'
  {
    seq(BUF_SIZE - 1, _ => 'a') + "\n"
  }

  /** The last character of the input is never read, and a line that matches is not printed. */
  method LongLine() returns (output: string, used: nat)
    ensures TooLong(ALongLine(), 0) && used < |ALongLine()|
    ensures output == "" && Selected("a", ALongLine(), 0, |ALongLine()|, "") == ALongLine()
  {
    LongLineIs();
    output, used := Grep("a", ALongLine());
    NothingSelected(used);
  }

  lemma NothingSelected(b: nat)
    requires b < BUF_SIZE
    ensures Selected("a", ALongLine(), 0, b, "") == ""
  {
    assert forall k :: 0 <= k < b ==> ALongLine()[k] == 'a';
    assert LineEnd(ALongLine(), 0, b) == b;
  }

  lemma LongLineIs()
    ensures TextEnd(ALongLine(), 0) == |ALongLine()| == BUF_SIZE && TooLong(ALongLine(), 0)
    ensures Selected("a", ALongLine(), 0, |ALongLine()|, "") == ALongLine()
  {
    var s := ALongLine();
    assert |s| == BUF_SIZE && s[BUF_SIZE - 1] == '\n' && forall k :: 0 <= k < BUF_SIZE - 1 ==> s[k] == 'a';
    var i := LineEnd(s, 0, |s|);
    assert i == BUF_SIZE - 1 && s[0..i + 1] == s;
    FoundA(s[0..i]);
  }

  lemma FoundA(line: string)
    requires line != [] && line[0] == 'a'
    ensures Found("a", line)
  {
    assert Items("a", 0) == [One('a')] + Items("a", 1);
    SplitNil(line, 1);
    SplitConsIntro(One('a'), [], line, 0, 1);
  }
}
