/** `chunkByCharacterLimit` (bot.js lines 190-203): a greedy splitter that
    appends `line + '\n'` to the current chunk and first closes the chunk
    whenever the appended text would pass the character budget.

    The model tracks which lines each chunk holds (a group), and a chunk's
    text is its group with every line newline-terminated. */
module Chunking {

  /** Concatenation of a sequence of sequences (strings included). */
  function Flatten<T>(xss: seq<seq<T>>): seq<T> {
    if |xss| == 0 then [] else xss[0] + Flatten(xss[1..])
  }

  lemma {:induction false} FlattenAppend<T>(a: seq<seq<T>>, b: seq<seq<T>>)
    ensures Flatten(a + b) == Flatten(a) + Flatten(b)
  {
    if |a| > 0 {
      assert (a + b)[1..] == a[1..] + b;
      FlattenAppend(a[1..], b);
    } else {
      assert a + b == b;
    }
  }

  /** The text of a group: each line followed by a newline. */
  function Terminated(lines: seq<string>): string {
    if |lines| == 0 then "" else lines[0] + "\n" + Terminated(lines[1..])
  }

  lemma {:induction false} TerminatedSnoc(lines: seq<string>, line: string)
    ensures Terminated(lines + [line]) == Terminated(lines) + line + "\n"
  {
    if |lines| > 0 {
      assert (lines + [line])[1..] == lines[1..] + [line];
      TerminatedSnoc(lines[1..], line);
    } else {
      assert Terminated([line][1..]) == "";
    }
  }

  lemma {:induction false} TerminatedAppend(a: seq<string>, b: seq<string>)
    ensures Terminated(a + b) == Terminated(a) + Terminated(b)
  {
    if |a| > 0 {
      assert (a + b)[1..] == a[1..] + b;
      TerminatedAppend(a[1..], b);
    } else {
      assert a + b == b;
    }
  }

  /** The texts of a sequence of groups. */
  function Texts(groups: seq<seq<string>>): seq<string> {
    seq(|groups|, j requires 0 <= j < |groups| => Terminated(groups[j]))
  }

  /** The loop state: the groups already pushed and the current one. */
  datatype Acc = Acc(done: seq<seq<string>>, current: seq<string>)

  /** One iteration of lines 194-200. */
  function Feed(acc: Acc, line: string, maxChars: int): Acc {
    if |Terminated(acc.current)| + |line| + 1 > maxChars
    then Acc(acc.done + [acc.current], [line])
    else Acc(acc.done, acc.current + [line])
  }

  /** The loop state after the given lines. */
  function FeedAll(lines: seq<string>, maxChars: int): Acc
    decreases |lines|
  {
    if |lines| == 0 then Acc([], [])
    else Feed(FeedAll(lines[..|lines| - 1], maxChars), lines[|lines| - 1], maxChars)
  }

  /** The groups of the final chunks: the current group is pushed at the end
      when it is non-empty (its text is then non-empty too). */
  function Groups(lines: seq<string>, maxChars: int): seq<seq<string>> {
    var acc := FeedAll(lines, maxChars);
    if |acc.current| > 0 then acc.done + [acc.current] else acc.done
  }

  predicate Fits(group: seq<string>, maxChars: int) {
    |Terminated(group)| <= maxChars
  }

  /** The pushed groups followed by the current one. */
  function All(acc: Acc): seq<seq<string>> {
    acc.done + [acc.current]
  }

  /** The parts of the loop invariant, one predicate each. */
  predicate Shape(lines: seq<string>, acc: Acc) {
    && (|lines| == 0 ==> acc == Acc([], []))
    && (|lines| > 0 ==> |acc.current| > 0)
  }

  predicate Bounded(gs: seq<seq<string>>, maxChars: int) {
    forall j :: 0 <= j < |gs| ==> Fits(gs[j], maxChars) || |gs[j]| <= 1
  }

  predicate OnlyFirstEmpty(gs: seq<seq<string>>) {
    forall j :: 0 < j < |gs| ==> |gs[j]| > 0
  }

  predicate Greedy(gs: seq<seq<string>>, maxChars: int) {
    forall j :: 0 < j < |gs| ==> |gs[j]| > 0 && |Terminated(gs[j - 1])| + |gs[j][0]| + 1 > maxChars
  }

  predicate FirstEmptyIffOversized(lines: seq<string>, gs: seq<seq<string>>, maxChars: int) {
    |lines| > 0 ==> |gs| > 0 && (gs[0] == [] <==> |lines[0]| + 1 > maxChars)
  }

  predicate Invariant(lines: seq<string>, maxChars: int, acc: Acc) {
    && Flatten(All(acc)) == lines
    && Shape(lines, acc)
    && Bounded(All(acc), maxChars)
    && OnlyFirstEmpty(All(acc))
    && Greedy(All(acc), maxChars)
    && FirstEmptyIffOversized(lines, All(acc), maxChars)
  }

  /** Feeding a line either opens a new group or extends the current one. */
  lemma FeedShape(acc: Acc, line: string, maxChars: int)
    ensures var acc' := Feed(acc, line, maxChars);
      if |Terminated(acc.current)| + |line| + 1 > maxChars
      then All(acc') == All(acc) + [[line]]
      else All(acc') == All(acc)[..|acc.done|] + [acc.current + [line]]
  {
  }

  lemma FlattenSnocGroup(gs: seq<seq<string>>, g: seq<string>)
    ensures Flatten(gs + [g]) == Flatten(gs) + g
  {
    FlattenAppend(gs, [g]);
    assert Flatten([g]) == g + Flatten([g][1..]);
  }

  lemma FeedOverflow(lines: seq<string>, maxChars: int, acc: Acc, line: string)
    requires Invariant(lines, maxChars, acc)
    requires |Terminated(acc.current)| + |line| + 1 > maxChars
    ensures Invariant(lines + [line], maxChars, Feed(acc, line, maxChars))
  {
    var acc' := Feed(acc, line, maxChars);
    var gs := All(acc);
    FeedShape(acc, line, maxChars);
    assert All(acc') == gs + [[line]];
    FlattenSnocGroup(gs, [line]);
    assert Flatten(All(acc')) == lines + [line];
    assert Bounded(All(acc'), maxChars) by {
      forall j | 0 <= j < |gs| + 1 ensures Fits(All(acc')[j], maxChars) || |All(acc')[j]| <= 1 {
        if j < |gs| { assert All(acc')[j] == gs[j]; }
      }
    }
    assert OnlyFirstEmpty(All(acc')) by {
      forall j | 0 < j < |gs| + 1 ensures |All(acc')[j]| > 0 {
        if j < |gs| { assert All(acc')[j] == gs[j]; }
        else if j == |gs| && |lines| == 0 { assert |All(acc')[j]| == 1; }
      }
    }
    assert Greedy(All(acc'), maxChars) by {
      forall j | 0 < j < |gs| + 1
        ensures |All(acc')[j]| > 0 && |Terminated(All(acc')[j - 1])| + |All(acc')[j][0]| + 1 > maxChars
      {
        if j < |gs| { assert All(acc')[j] == gs[j] && All(acc')[j - 1] == gs[j - 1]; }
        else { assert All(acc')[j - 1] == acc.current; }
      }
    }
    if |lines| > 0 {
      assert (lines + [line])[0] == lines[0];
      assert All(acc')[0] == gs[0];
    } else {
      assert All(acc')[0] == [];
    }
  }

  lemma FeedFit(lines: seq<string>, maxChars: int, acc: Acc, line: string)
    requires Invariant(lines, maxChars, acc)
    requires |Terminated(acc.current)| + |line| + 1 <= maxChars
    ensures Invariant(lines + [line], maxChars, Feed(acc, line, maxChars))
  {
    var acc' := Feed(acc, line, maxChars);
    var gs := All(acc);
    var n := |acc.done|;
    FeedShape(acc, line, maxChars);
    assert All(acc') == acc.done + [acc.current + [line]];
    TerminatedSnoc(acc.current, line);
    FlattenSnocGroup(acc.done, acc.current);
    FlattenSnocGroup(acc.done, acc.current + [line]);
    assert Flatten(All(acc')) == lines + [line];
    ExtendKeepsBounded(acc.done, acc.current, line, maxChars);
    ExtendKeepsGreedy(acc.done, acc.current, line, maxChars);
    if |lines| > 0 {
      assert (lines + [line])[0] == lines[0];
      if n > 0 { assert All(acc')[0] == gs[0]; }
    } else {
      assert All(acc')[0] == [line];
    }
  }

  lemma ExtendKeepsBounded(done: seq<seq<string>>, current: seq<string>, line: string, maxChars: int)
    requires Bounded(done + [current], maxChars)
    requires Fits(current + [line], maxChars)
    ensures Bounded(done + [current + [line]], maxChars)
  {
    var gs, gs' := done + [current], done + [current + [line]];
    forall j | 0 <= j < |gs'| ensures Fits(gs'[j], maxChars) || |gs'[j]| <= 1 {
      if j < |done| { assert gs'[j] == gs[j]; }
    }
  }

  lemma ExtendKeepsGreedy(done: seq<seq<string>>, current: seq<string>, line: string, maxChars: int)
    requires Greedy(done + [current], maxChars) && OnlyFirstEmpty(done + [current])
    ensures Greedy(done + [current + [line]], maxChars) && OnlyFirstEmpty(done + [current + [line]])
  {
    var gs, gs' := done + [current], done + [current + [line]];
    forall j | 0 < j < |gs'|
      ensures |gs'[j]| > 0 && |Terminated(gs'[j - 1])| + |gs'[j][0]| + 1 > maxChars
    {
      assert gs'[j - 1] == gs[j - 1];
      if j < |done| { assert gs'[j] == gs[j]; }
      else { assert gs'[j][0] == gs[j][0]; }
    }
    forall j | 0 < j < |gs'| ensures |gs'[j]| > 0 {
      if j < |done| { assert gs'[j] == gs[j]; }
    }
  }

  lemma {:induction false} FeedAllInvariant(lines: seq<string>, maxChars: int)
    ensures Invariant(lines, maxChars, FeedAll(lines, maxChars))
    decreases |lines|
  {
    if |lines| == 0 {
      var e: seq<string> := [];
      assert All(Acc([], [])) == [e];
      assert Flatten([e]) == e + Flatten([e][1..]);
    } else {
      var init := lines[..|lines| - 1];
      var line := lines[|lines| - 1];
      FeedAllInvariant(init, maxChars);
      var acc := FeedAll(init, maxChars);
      if |Terminated(acc.current)| + |line| + 1 > maxChars {
        FeedOverflow(init, maxChars, acc, line);
      } else {
        FeedFit(init, maxChars, acc, line);
      }
      assert init + [line] == lines;
    }
  }

  /** The chunks, as texts. */
  function ChunkByCharacterLimit(lines: seq<string>, maxChars: int): (chunks: seq<string>)
    ensures Flatten(chunks) == Terminated(lines)
    ensures |lines| == 0 ==> chunks == []
    ensures forall j :: 0 <= j < |chunks| ==>
      |chunks[j]| <= maxChars || chunks[j] == "" || exists k :: 0 <= k < |lines| && chunks[j] == lines[k] + "\n"
    ensures forall j :: 0 <= j < |chunks| ==>
      (chunks[j] == "" <==> j == 0 && |lines[0]| + 1 > maxChars)
  {
    var groups := Groups(lines, maxChars);
    GroupsProperties(lines, maxChars);
    TextsProperties(lines, maxChars);
    Texts(groups)
  }

  /** The groups partition the lines in order; each fits the budget or holds a
      single line; only the first may be empty, exactly when the first line
      alone is over budget; and each group was closed only because the next
      line would not fit. */
  lemma GroupsProperties(lines: seq<string>, maxChars: int)
    ensures var gs := Groups(lines, maxChars);
      && Flatten(gs) == lines
      && (|lines| == 0 ==> gs == [])
      && Bounded(gs, maxChars)
      && (forall j :: 0 <= j < |gs| ==> (gs[j] == [] <==> j == 0 && |lines[0]| + 1 > maxChars))
      && Greedy(gs, maxChars)
  {
    var acc := FeedAll(lines, maxChars);
    FeedAllInvariant(lines, maxChars);
    var gs := Groups(lines, maxChars);
    if |lines| > 0 {
      assert gs == All(acc);
    } else {
      assert gs == [];
    }
  }

  lemma {:induction false} TerminatedEmpty(group: seq<string>)
    ensures Terminated(group) == "" <==> group == []
  {
    if |group| > 0 {
      assert |Terminated(group)| >= 1;
    }
  }

  lemma {:induction false} FlattenTexts(groups: seq<seq<string>>)
    ensures Flatten(Texts(groups)) == Terminated(Flatten(groups))
  {
    if |groups| > 0 {
      FlattenTexts(groups[1..]);
      assert Texts(groups)[1..] == Texts(groups[1..]);
      TerminatedAppend(groups[0], Flatten(groups[1..]));
    }
  }

  lemma {:induction false} FlattenMember(groups: seq<seq<string>>, j: nat)
    requires j < |groups| && |groups[j]| > 0
    ensures groups[j][0] in Flatten(groups)
  {
    if j > 0 {
      FlattenMember(groups[1..], j - 1);
    }
  }

  /** A group that fits gives a chunk within budget; otherwise the chunk is
      empty or one of the lines with its newline. */
  lemma ChunkOfGroup(lines: seq<string>, gs: seq<seq<string>>, j: nat, maxChars: int)
    requires j < |gs| && Flatten(gs) == lines
    requires Fits(gs[j], maxChars) || |gs[j]| <= 1
    ensures var c := Terminated(gs[j]);
      |c| <= maxChars || c == "" || exists k :: 0 <= k < |lines| && c == lines[k] + "\n"
  {
    if !Fits(gs[j], maxChars) && |gs[j]| == 1 {
      FlattenMember(gs, j);
      var k :| 0 <= k < |lines| && lines[k] == gs[j][0];
      assert gs[j] == [lines[k]];
      assert Terminated(gs[j]) == lines[k] + "\n" + Terminated([]);
    }
  }

  lemma TextsProperties(lines: seq<string>, maxChars: int)
    ensures var gs := Groups(lines, maxChars); var cs := Texts(gs);
      && Flatten(cs) == Terminated(lines)
      && (forall j :: 0 <= j < |cs| ==>
            |cs[j]| <= maxChars || cs[j] == "" || exists k :: 0 <= k < |lines| && cs[j] == lines[k] + "\n")
      && (forall j :: 0 <= j < |cs| ==> (cs[j] == "" <==> gs[j] == []))
  {
    GroupsProperties(lines, maxChars);
    var gs := Groups(lines, maxChars);
    var cs := Texts(gs);
    FlattenTexts(gs);
    forall j | 0 <= j < |cs|
      ensures |cs[j]| <= maxChars || cs[j] == "" || exists k :: 0 <= k < |lines| && cs[j] == lines[k] + "\n"
    {
      ChunkOfGroup(lines, gs, j, maxChars);
    }
    forall j | 0 <= j < |cs| ensures cs[j] == "" <==> gs[j] == [] {
      TerminatedEmpty(gs[j]);
    }
  }

  /** The loop of lines 190-203 over strings, as written. */
  method ChunkLines(lines: seq<string>, maxChars: int) returns (chunks: seq<string>)
    ensures chunks == ChunkByCharacterLimit(lines, maxChars)
  {
    chunks := [];
    var currentChunk := "";
    var i := 0;
    while i < |lines|
      invariant 0 <= i <= |lines|
      invariant chunks == Texts(FeedAll(lines[..i], maxChars).done)
      invariant currentChunk == Terminated(FeedAll(lines[..i], maxChars).current)
    {
      var line := lines[i];
      ghost var acc := FeedAll(lines[..i], maxChars);
      assert lines[..i + 1][..i] == lines[..i];
      TerminatedSnoc(acc.current, line);
      if |currentChunk + line + "\n"| > maxChars {
        chunks := chunks + [currentChunk];
        currentChunk := "";
      }
      currentChunk := currentChunk + line + "\n";
      i := i + 1;
    }
    assert lines[..i] == lines;
    TerminatedEmpty(FeedAll(lines, maxChars).current);
    if currentChunk != "" {
      chunks := chunks + [currentChunk];
    }
  }
}
