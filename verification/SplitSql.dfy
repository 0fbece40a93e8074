/**
 The statement splitter of SQL import (cmd/sparkdb/commands/import.go): blank and comment
 lines are dropped, and a statement runs up to the first line that ends in a semicolon.
 */
module SplitSql {
  import opened Text
  import opened Selection

  predicate Keep(line: string) {
    !Blank(line) && !HasPrefix(TrimSpace(line), "--")
  }

  predicate Ends(line: string) {
    HasSuffix(TrimSpace(line), ";")
  }

  // What the two tests mean, character by character.

  /** The first character that is not white space. */
  predicate FirstInk(line: string, i: nat) {
    i < |line| && !IsSpace(line[i]) && forall j :: 0 <= j < i ==> IsSpace(line[j])
  }

  /** The last character that is not white space. */
  predicate LastInk(line: string, i: nat) {
    i < |line| && !IsSpace(line[i]) && forall j :: i < j < |line| ==> IsSpace(line[j])
  }

  predicate Dashes(line: string, i: nat) {
    i + 1 < |line| && line[i] == '-' && line[i + 1] == '-'
  }

  /** What a line looks like around its trimmed text. */
  lemma InkAround(a: string, t: string, b: string, line: string)
    requires line == a + t + b && AllSpace(a) && AllSpace(b)
    requires t != "" && !IsSpace(t[0]) && !IsSpace(t[|t| - 1])
    ensures FirstInk(line, |a|) && line[|a|] == t[0]
    ensures LastInk(line, |a| + |t| - 1) && line[|a| + |t| - 1] == t[|t| - 1]
    ensures Dashes(line, |a|) <==> HasPrefix(t, "--")
  {
    assert forall j :: 0 <= j < |a| ==> line[j] == a[j];
    assert forall j :: 0 <= j < |t| ==> line[|a| + j] == t[j];
    assert forall j :: 0 <= j < |b| ==> line[|a| + |t| + j] == b[j];
  }

  /** A line is kept if it is not all white space and does not start, after white space, with two dashes. */
  lemma KeepIff(line: string)
    ensures Keep(line) <==> exists i: nat :: FirstInk(line, i) && !Dashes(line, i)
  {
    var a, b := TrimParts(line);
    var t := TrimSpace(line);
    BlankIffAllSpace(line);
    if t != "" {
      InkAround(a, t, b, line);
      forall i: nat | FirstInk(line, i) ensures i == |a| {
      }
    }
  }

  /** A line ends a statement if its last character that is not white space is a semicolon. */
  lemma EndsIff(line: string)
    ensures Ends(line) <==> exists i: nat :: LastInk(line, i) && line[i] == ';'
  {
    var a, b := TrimParts(line);
    var t := TrimSpace(line);
    BlankIffAllSpace(line);
    if t != "" {
      InkAround(a, t, b, line);
      forall i: nat | LastInk(line, i) ensures i == |a| + |t| - 1 {
      }
    }
  }

  function Kept(lines: seq<string>): seq<string> {
    if lines == [] then []
    else Kept(lines[..|lines| - 1]) + if Keep(lines[|lines| - 1]) then [lines[|lines| - 1]] else []
  }

  /** Statements that are complete, and the lines of one that is not. */
  datatype State = State(groups: seq<seq<string>>, open: seq<string>)

  function Feed(s: State, line: string): State {
    if !Keep(line) then s
    else if Ends(line) then State(s.groups + [s.open + [line]], [])
    else State(s.groups, s.open + [line])
  }

  function FeedAll(lines: seq<string>): State {
    if lines == [] then State([], []) else Feed(FeedAll(lines[..|lines| - 1]), lines[|lines| - 1])
  }

  /** The kept lines, statement by statement. */
  function Groups(lines: seq<string>): seq<seq<string>> {
    var s := FeedAll(lines);
    s.groups + if s.open == [] then [] else [s.open]
  }

  /** The builder's text: every line with its newline. */
  function Buffer(lines: seq<string>): string {
    if lines == [] then "" else Buffer(lines[..|lines| - 1]) + lines[|lines| - 1] + "\n"
  }

  function Statement(group: seq<string>): string {
    TrimSpace(Buffer(group))
  }

  function StatementsOf(groups: seq<seq<string>>): (r: seq<string>)
    ensures |r| == |groups|
  {
    seq(|groups|, k requires 0 <= k < |groups| => Statement(groups[k]))
  }

  /** The result of splitting a text. */
  function Result(content: string): seq<string> {
    StatementsOf(Groups(Split(content, '\n')))
  }

  lemma FeedAllNext(lines: seq<string>, k: nat)
    requires k < |lines|
    ensures FeedAll(lines[..k + 1]) == Feed(FeedAll(lines[..k]), lines[k])
  {
    assert lines[..k + 1][..k] == lines[..k];
  }

  lemma BufferNext(open: seq<string>, line: string)
    ensures Buffer(open + [line]) == Buffer(open) + line + "\n"
  {
    assert (open + [line])[..|open|] == open;
  }

  lemma StatementsNext(groups: seq<seq<string>>, g: seq<string>)
    ensures StatementsOf(groups + [g]) == StatementsOf(groups) + [Statement(g)]
  {
  }

  predicate AllKept(lines: seq<string>) {
    forall i :: 0 <= i < |lines| ==> Keep(lines[i])
  }

  method SplitSQL(content: string) returns (stmts: seq<string>)
    ensures stmts == Result(content)
  {
    stmts := [];
    var buf := "";
    var lines := Split(content, '\n');
    ghost var s := State([], []);
    for i := 0 to |lines|
      invariant s == FeedAll(lines[..i])
      invariant stmts == StatementsOf(s.groups)
      invariant buf == Buffer(s.open)
      invariant AllKept(s.open)
    {
      var line := lines[i];
      FeedAllNext(lines, i);
      var trimmed := TrimSpace(line);
      if trimmed == "" || HasPrefix(trimmed, "--") {
        continue;
      }
      TrimIdempotent(line);
      BufferNext(s.open, line);
      StatementsNext(s.groups, s.open + [line]);
      s := Feed(s, line);
      buf := buf + line + "\n";
      if HasSuffix(TrimSpace(trimmed), ";") {
        stmts := stmts + [TrimSpace(buf)];
        buf := "";
      }
    }
    assert lines[..|lines|] == lines;
    stmts := AddRest(stmts, buf, s);
  }

  /** What the builder holds at the end is a last statement, unless it is blank. */
  method AddRest(stmts: seq<string>, buf: string, ghost s: State) returns (r: seq<string>)
    requires stmts == StatementsOf(s.groups) && buf == Buffer(s.open) && AllKept(s.open)
    ensures r == StatementsOf(s.groups + if s.open == [] then [] else [s.open])
  {
    var rest := TrimSpace(buf);
    BufferBlank(s.open);
    StatementsNext(s.groups, s.open);
    assert s.groups + [] == s.groups;
    r := if rest != "" then stmts + [rest] else stmts;
  }

  lemma NotAllSpace(a: string, b: string, c: string)
    requires !AllSpace(b)
    ensures !AllSpace(a + b + c)
  {
    var i :| 0 <= i < |b| && !IsSpace(b[i]);
    assert (a + b + c)[|a| + i] == b[i];
  }

  lemma BufferBlank(open: seq<string>)
    requires AllKept(open)
    ensures Blank(Buffer(open)) <==> open == []
  {
    BlankIffAllSpace(Buffer(open));
    if open != [] {
      var line := open[|open| - 1];
      assert Keep(line);
      BlankIffAllSpace(line);
      NotAllSpace(Buffer(open[..|open| - 1]), line, "\n");
    }
  }

  // ---------------------------------------------------------------- nothing is lost

  function Flatten(groups: seq<seq<string>>): seq<string> {
    if groups == [] then [] else Flatten(groups[..|groups| - 1]) + groups[|groups| - 1]
  }

  lemma FlattenNext(groups: seq<seq<string>>, g: seq<string>)
    ensures Flatten(groups + [g]) == Flatten(groups) + g
  {
    assert (groups + [g])[..|groups|] == groups;
  }

  /** A statement's lines: all kept, and only the last may end in a semicolon. */
  predicate OpenGroup(g: seq<string>) {
    forall i :: 0 <= i < |g| ==> Keep(g[i]) && !Ends(g[i])
  }

  predicate ClosedGroup(g: seq<string>) {
    && g != []
    && (forall i :: 0 <= i < |g| ==> Keep(g[i]))
    && (forall i :: 0 <= i < |g| ==> (Ends(g[i]) <==> i == |g| - 1))
  }

  ghost predicate WellGrouped(groups: seq<seq<string>>) {
    forall k :: 0 <= k < |groups| ==>
      ClosedGroup(groups[k]) || (k == |groups| - 1 && groups[k] != [] && OpenGroup(groups[k]))
  }

  ghost predicate StateOk(s: State) {
    && (forall k :: 0 <= k < |s.groups| ==> ClosedGroup(s.groups[k]))
    && OpenGroup(s.open)
  }

  lemma FeedKeepsOk(s: State, line: string)
    requires StateOk(s)
    ensures StateOk(Feed(s, line))
  {
    assert (s.open + [line])[..|s.open|] == s.open;
  }

  lemma FeedKeepsLines(s: State, line: string)
    ensures var s' := Feed(s, line);
            Flatten(s'.groups) + s'.open == Flatten(s.groups) + s.open + if Keep(line) then [line] else []
  {
    FlattenNext(s.groups, s.open + [line]);
    assert Flatten(s.groups) + (s.open + [line]) == Flatten(s.groups) + s.open + [line];
    assert Flatten(s.groups) + s.open + [] == Flatten(s.groups) + s.open;
  }

  lemma {:induction false} FeedAllMeaning(lines: seq<string>)
    ensures var s := FeedAll(lines); StateOk(s) && Flatten(s.groups) + s.open == Kept(lines)
  {
    if lines != [] {
      var init, line := lines[..|lines| - 1], lines[|lines| - 1];
      FeedAllMeaning(init);
      FeedKeepsOk(FeedAll(init), line);
      FeedKeepsLines(FeedAll(init), line);
    }
  }

  lemma GroupsOf(s: State)
    requires StateOk(s)
    ensures var groups := s.groups + if s.open == [] then [] else [s.open];
            WellGrouped(groups) && Flatten(groups) == Flatten(s.groups) + s.open
  {
    FlattenNext(s.groups, s.open);
    assert s.groups + [] == s.groups;
  }

  /**
   Nothing is lost and nothing added: the groups put together are exactly the kept lines, in
   order, and every group but possibly the last ends at its first line that ends in a
   semicolon.
   */
  lemma GroupsMeaning(lines: seq<string>)
    ensures Flatten(Groups(lines)) == Kept(lines)
    ensures WellGrouped(Groups(lines))
  {
    FeedAllMeaning(lines);
    GroupsOf(FeedAll(lines));
  }

  /** These are the positions of the lines that are kept, and these the lines. */
  ghost predicate LinesAt(lines: seq<string>, kept: seq<string>, picks: seq<nat>) {
    && |picks| == |kept| && Increasing(picks) && Below(picks, |lines|)
    && (forall i :: 0 <= i < |picks| ==> picks[i] < |lines| && kept[i] == lines[picks[i]])
    && (forall k: nat :: k in picks <==> k < |lines| && Keep(lines[k]))
  }

  lemma LinesNext(before: seq<string>, line: string, kept: seq<string>, picks: seq<nat>, kept': seq<string>, picks': seq<nat>)
    requires LinesAt(before, kept, picks)
    requires kept' == (if Keep(line) then kept + [line] else kept) && picks' == if Keep(line) then picks + [|before|] else picks
    ensures LinesAt(before + [line], kept', picks')
  {
    var lines := before + [line];
    PickNext(picks, |before|, Keep(line), picks');
    assert forall k: nat :: k < |before| ==> lines[k] == before[k];
    assert lines[|before|] == line;
    forall i | 0 <= i < |picks'| ensures picks'[i] < |lines| && kept'[i] == lines[picks'[i]] {
      if i < |picks| { assert picks[i] in picks && lines[picks[i]] == before[picks[i]]; }
    }
  }

  /** The kept lines are the lines at exactly the positions where a line is kept, in order. */
  lemma {:induction false} KeptLines(lines: seq<string>) returns (picks: seq<nat>)
    ensures LinesAt(lines, Kept(lines), picks)
  {
    picks := [];
    if lines != [] {
      var before, line := lines[..|lines| - 1], lines[|lines| - 1];
      assert lines == before + [line];
      var earlier := KeptLines(before);
      picks := if Keep(line) then earlier + [|before|] else earlier;
      assert Kept(before) + [] == Kept(before);
      LinesNext(before, line, Kept(before), earlier, Kept(lines), picks);
    }
  }

  // ---------------------------------------------------------------- a statement's text

  /** The lines of a statement after the outer trimming. */
  function TrimEnds(g: seq<string>): (r: seq<string>)
    ensures |r| == |g|
  {
    if g == [] then []
    else if |g| == 1 then [TrimSpace(g[0])]
    else [TrimLeft(g[0])] + g[1..|g| - 1] + [TrimRight(g[|g| - 1])]
  }

  lemma {:induction false} BufferIsJoin(g: seq<string>)
    requires g != []
    ensures Buffer(g) == Join(g, "\n") + "\n"
  {
    var k := |g| - 1;
    if k > 0 {
      BufferIsJoin(g[..k]);
      JoinAppend(g[..k], [g[k]], "\n");
      assert g == g[..k] + [g[k]];
    } else {
      assert g[..0] == [];
    }
  }

  lemma NewlineIsSpace()
    ensures AllSpace("\n")
  {
  }

  lemma TrimEndsOfTwo(first: string, middle: string, last: string)
    requires !Blank(first) && !Blank(last)
    ensures TrimSpace(first + middle + last) == TrimLeft(first) + middle + TrimRight(last)
  {
    BlankIffAllSpace(first);
    BlankIffAllSpace(last);
    assert first + middle + last == first + (middle + last);
    TrimLeftExtends(first, middle + last);
    assert TrimLeft(first) + (middle + last) == (TrimLeft(first) + middle) + last;
    TrimRightExtends(TrimLeft(first) + middle, last);
  }

  /** A joined list of at least two lines, taken apart at both ends. */
  lemma JoinEnds(first: string, mid: seq<string>, last: string)
    ensures Join([first] + mid + [last], "\n")
         == first + (if mid == [] then "\n" else "\n" + Join(mid, "\n") + "\n") + last
  {
    JoinAppend([first] + mid, [last], "\n");
    if mid == [] {
      assert [first] + mid == [first];
    } else {
      JoinAppend([first], mid, "\n");
      var m := Join(mid, "\n");
      assert first + "\n" + m + "\n" + last == first + ("\n" + m + "\n") + last;
    }
  }

  /** A statement is its lines, joined, with the first and last trimmed on the outside. */
  lemma TrimmedJoin(first: string, mid: seq<string>, last: string)
    requires !Blank(first) && !Blank(last)
    ensures TrimSpace(Join([first] + mid + [last], "\n")) == Join([TrimLeft(first)] + mid + [TrimRight(last)], "\n")
  {
    JoinEnds(first, mid, last);
    JoinEnds(TrimLeft(first), mid, TrimRight(last));
    TrimEndsOfTwo(first, if mid == [] then "\n" else "\n" + Join(mid, "\n") + "\n", last);
  }

  lemma StatementIsJoin(g: seq<string>)
    requires g != [] && AllKept(g)
    ensures Statement(g) == Join(TrimEnds(g), "\n")
  {
    BufferIsJoin(g);
    NewlineIsSpace();
    TrimTrailing(Join(g, "\n"), "\n");
    var k := |g| - 1;
    if k > 0 {
      assert Keep(g[0]) && Keep(g[k]);
      assert g == [g[0]] + g[1..k] + [g[k]];
      TrimmedJoin(g[0], g[1..k], g[k]);
    }
  }

  lemma TrimTrailing(s: string, b: string)
    requires AllSpace(b)
    ensures TrimSpace(s + b) == TrimSpace(s)
  {
    var a, d := TrimParts(s);
    assert s + b == a + TrimSpace(s) + (d + b);
    TrimUnique(a, TrimSpace(s), d + b);
  }

  lemma NoNewlineInside(s: string)
    requires '\n' !in s
    ensures '\n' !in TrimLeft(s) && '\n' !in TrimRight(s) && '\n' !in TrimSpace(s)
  {
    var a := TrimLeftParts(s);
    var b := TrimRightParts(s);
    var c, d := TrimParts(s);
    assert forall x :: x in TrimLeft(s) ==> x in a + TrimLeft(s);
    assert forall x :: x in TrimRight(s) ==> x in TrimRight(s) + b;
    assert forall x :: x in TrimSpace(s) ==> x in c + TrimSpace(s) + d;
  }

  predicate Plain(lines: seq<string>) {
    forall i :: 0 <= i < |lines| ==> '\n' !in lines[i]
  }

  lemma TrimEndsPlain(g: seq<string>)
    requires Plain(g)
    ensures Plain(TrimEnds(g))
  {
    if g != [] {
      NoNewlineInside(g[0]);
      NoNewlineInside(g[|g| - 1]);
    }
  }

  /** The lines of a statement's text are the lines of its group, up to the outer trimming. */
  lemma StatementLines(g: seq<string>)
    requires g != [] && Plain(g) && AllKept(g)
    ensures Split(Statement(g), '\n') == TrimEnds(g)
  {
    StatementIsJoin(g);
    TrimEndsPlain(g);
    assert forall p :: p in TrimEnds(g) ==> '\n' !in p;
    SplitJoin(TrimEnds(g), '\n');
  }

  // ---------------------------------------------------------------- stability

  lemma SameAfterTrim(line: string, line': string)
    requires TrimSpace(line') == TrimSpace(line)
    ensures Keep(line') == Keep(line) && Ends(line') == Ends(line)
  {
  }

  /** Trimming the ends of a group changes neither which lines are kept nor where it ends. */
  lemma TrimEndsAt(g: seq<string>, i: nat)
    requires i < |g|
    ensures TrimEnds(g)[i] in [g[i], TrimSpace(g[i]), TrimLeft(g[i]), TrimRight(g[i])]
  {
    if |g| > 1 {
      var t := [TrimLeft(g[0])] + g[1..|g| - 1] + [TrimRight(g[|g| - 1])];
      assert t[i] == if i == 0 then TrimLeft(g[0]) else if i < |g| - 1 then g[i] else TrimRight(g[|g| - 1]);
    }
  }

  lemma TrimSame(line: string, line': string)
    requires line' in [line, TrimSpace(line), TrimLeft(line), TrimRight(line)]
    ensures TrimSpace(line') == TrimSpace(line)
  {
    TrimIdempotent(line);
    TrimAfterTrimLeft(line);
    TrimAfterTrimRight(line);
  }

  lemma TrimEndsSame(g: seq<string>, i: nat)
    requires i < |g|
    ensures Keep(TrimEnds(g)[i]) == Keep(g[i]) && Ends(TrimEnds(g)[i]) == Ends(g[i])
  {
    TrimEndsAt(g, i);
    TrimSame(g[i], TrimEnds(g)[i]);
    SameAfterTrim(g[i], TrimEnds(g)[i]);
  }

  lemma TrimEndsGroup(g: seq<string>)
    ensures ClosedGroup(g) ==> ClosedGroup(TrimEnds(g))
    ensures OpenGroup(g) ==> OpenGroup(TrimEnds(g))
  {
    var t := TrimEnds(g);
    forall i | 0 <= i < |g| ensures Keep(t[i]) == Keep(g[i]) && Ends(t[i]) == Ends(g[i]) {
      TrimEndsSame(g, i);
    }
    SameGroup(g, t);
  }

  lemma SameGroup(g: seq<string>, t: seq<string>)
    requires |g| == |t|
    requires forall i :: 0 <= i < |g| ==> Keep(t[i]) == Keep(g[i]) && Ends(t[i]) == Ends(g[i])
    ensures ClosedGroup(g) ==> ClosedGroup(t)
    ensures OpenGroup(g) ==> OpenGroup(t)
  {
  }

  lemma {:induction false} TrimEndsTwice(g: seq<string>)
    ensures TrimEnds(TrimEnds(g)) == TrimEnds(g)
  {
    if g != [] {
      TrimIdempotent(g[0]);
      var a := TrimLeftParts(g[0]);
      var b := TrimRightParts(g[|g| - 1]);
    }
  }

  lemma StatementOfTrimmed(g: seq<string>)
    requires g != [] && AllKept(g)
    ensures Statement(TrimEnds(g)) == Statement(g)
  {
    forall i | 0 <= i < |g| ensures Keep(TrimEnds(g)[i]) {
      TrimEndsSame(g, i);
    }
    StatementIsJoin(g);
    StatementIsJoin(TrimEnds(g));
    TrimEndsTwice(g);
  }

  function TrimAll(groups: seq<seq<string>>): (r: seq<seq<string>>)
    ensures |r| == |groups|
  {
    seq(|groups|, k requires 0 <= k < |groups| => TrimEnds(groups[k]))
  }

  lemma FeedOne(lines: seq<string>, line: string)
    ensures FeedAll(lines + [line]) == Feed(FeedAll(lines), line)
  {
    assert (lines + [line])[..|lines|] == lines;
  }

  lemma OpenFront(g: seq<string>, k: nat)
    requires k < |g| && OpenGroup(g)
    ensures OpenGroup(g[..k]) && Keep(g[k]) && !Ends(g[k])
  {
  }

  lemma FrontAndLast(lines: seq<string>, g: seq<string>)
    requires g != []
    ensures g == g[..|g| - 1] + [g[|g| - 1]]
    ensures lines + g == (lines + g[..|g| - 1]) + [g[|g| - 1]]
  {
  }

  /** Feeding the lines of one statement after complete ones. */
  lemma {:induction false} FeedGroup(lines: seq<string>, groups: seq<seq<string>>, g: seq<string>)
    requires FeedAll(lines) == State(groups, []) && OpenGroup(g)
    ensures FeedAll(lines + g) == State(groups, g)
  {
    if g == [] {
      assert lines + g == lines;
    } else {
      var front, last := g[..|g| - 1], g[|g| - 1];
      OpenFront(g, |g| - 1);
      FeedGroup(lines, groups, front);
      FrontAndLast(lines, g);
      FeedOne(lines + front, last);
    }
  }

  lemma ClosedFront(g: seq<string>)
    requires ClosedGroup(g)
    ensures OpenGroup(g[..|g| - 1]) && Keep(g[|g| - 1]) && Ends(g[|g| - 1])
  {
    var front := g[..|g| - 1];
    assert forall i :: 0 <= i < |front| ==> front[i] == g[i];
  }

  lemma FeedClosed(lines: seq<string>, groups: seq<seq<string>>, g: seq<string>)
    requires FeedAll(lines) == State(groups, []) && ClosedGroup(g)
    ensures FeedAll(lines + g) == State(groups + [g], [])
  {
    var front, last := g[..|g| - 1], g[|g| - 1];
    ClosedFront(g);
    FeedGroup(lines, groups, front);
    FrontAndLast(lines, g);
    FeedOne(lines + front, last);
  }

  predicate AllClosed(groups: seq<seq<string>>) {
    forall k :: 0 <= k < |groups| ==> ClosedGroup(groups[k])
  }

  lemma AllClosedFront(init: seq<seq<string>>, g: seq<string>)
    requires AllClosed(init + [g])
    ensures AllClosed(init) && ClosedGroup(g)
  {
    var groups := init + [g];
    assert groups[|init|] == g;
    assert forall k :: 0 <= k < |init| ==> groups[k] == init[k];
  }

  lemma {:induction false} FeedClosedAll(groups: seq<seq<string>>)
    requires AllClosed(groups)
    ensures FeedAll(Flatten(groups)) == State(groups, [])
  {
    if groups != [] {
      var init, g := groups[..|groups| - 1], groups[|groups| - 1];
      assert groups == init + [g];
      AllClosedFront(init, g);
      FeedClosedAll(init);
      FeedClosed(Flatten(init), init, g);
      FlattenNext(init, g);
    }
  }

  /** Grouping is determined by the lines: well-formed groups come back when regrouped. */
  lemma Regroup(groups: seq<seq<string>>)
    requires WellGrouped(groups)
    ensures Groups(Flatten(groups)) == groups
  {
    if groups == [] {
    } else {
      var n := |groups| - 1;
      var init, g := groups[..n], groups[n];
      assert groups == init + [g];
      FeedClosedAll(init);
      if ClosedGroup(g) {
        FeedClosed(Flatten(init), init, g);
      } else {
        FeedGroup(Flatten(init), init, g);
      }
    }
  }

  predicate Stated(g: seq<string>) {
    g != [] && Statement(g) == Join(TrimEnds(g), "\n")
  }

  lemma JoinStep(a: seq<string>, b: seq<string>, x: string, t: seq<string>)
    requires t != [] && x == Join(t, "\n") && Join(a, "\n") == Join(b, "\n") && (a == [] <==> b == [])
    ensures Join(a + [x], "\n") == Join(b + t, "\n") && b + t != []
  {
    if a == [] {
      assert a + [x] == [x] && b + t == t;
    } else {
      JoinAppend(a, [x], "\n");
      JoinAppend(b, t, "\n");
    }
  }

  lemma TrimAllNext(groups: seq<seq<string>>, g: seq<string>)
    ensures TrimAll(groups + [g]) == TrimAll(groups) + [TrimEnds(g)]
  {
  }

  ghost predicate JoinsAgree(groups: seq<seq<string>>) {
    && Join(StatementsOf(groups), "\n") == Join(Flatten(TrimAll(groups)), "\n")
    && (groups != [] ==> Flatten(TrimAll(groups)) != [])
  }

  lemma JoinFlattenNext(init: seq<seq<string>>, g: seq<string>, groups: seq<seq<string>>)
    requires Stated(g) && JoinsAgree(init) && groups == init + [g]
    ensures JoinsAgree(groups)
  {
    StatementsNext(init, g);
    TrimAllNext(init, g);
    FlattenNext(TrimAll(init), TrimEnds(g));
    JoinStep(StatementsOf(init), Flatten(TrimAll(init)), Statement(g), TrimEnds(g));
  }

  ghost predicate AllStated(groups: seq<seq<string>>) {
    groups == [] || (AllStated(groups[..|groups| - 1]) && Stated(groups[|groups| - 1]))
  }

  lemma {:induction false} GroupsAreStated(groups: seq<seq<string>>)
    requires WellGrouped(groups)
    ensures AllStated(groups)
  {
    if groups != [] {
      var n := |groups| - 1;
      var init := groups[..n];
      assert forall k :: 0 <= k < n ==> init[k] == groups[k];
      GroupsAreStated(init);
      GroupKept(groups, n);
      StatementIsJoin(groups[n]);
    }
  }

  lemma {:induction false} JoinFlatten(groups: seq<seq<string>>)
    requires AllStated(groups)
    ensures JoinsAgree(groups)
  {
    if groups != [] {
      var init, g := groups[..|groups| - 1], groups[|groups| - 1];
      assert groups == init + [g];
      JoinFlatten(init);
      JoinFlattenNext(init, g, groups);
    }
  }

  lemma GroupKept(groups: seq<seq<string>>, k: nat)
    requires WellGrouped(groups) && k < |groups|
    ensures groups[k] != [] && AllKept(groups[k])
  {
    assert ClosedGroup(groups[k]) || OpenGroup(groups[k]);
  }

  lemma TrimAllGrouped(groups: seq<seq<string>>)
    requires WellGrouped(groups)
    ensures WellGrouped(TrimAll(groups))
  {
    forall k | 0 <= k < |groups|
      ensures ClosedGroup(groups[k]) ==> ClosedGroup(TrimAll(groups)[k])
      ensures OpenGroup(groups[k]) ==> OpenGroup(TrimAll(groups)[k])
    {
      TrimEndsGroup(groups[k]);
    }
  }

  lemma TrimAllStatements(groups: seq<seq<string>>)
    requires WellGrouped(groups)
    ensures StatementsOf(TrimAll(groups)) == StatementsOf(groups)
  {
    forall k | 0 <= k < |groups| ensures Statement(TrimEnds(groups[k])) == Statement(groups[k]) {
      GroupKept(groups, k);
      StatementOfTrimmed(groups[k]);
    }
  }

  lemma {:induction false} FlattenPlain(groups: seq<seq<string>>)
    ensures Plain(Flatten(groups)) <==> forall k :: 0 <= k < |groups| ==> Plain(groups[k])
  {
    if groups != [] {
      var n := |groups| - 1;
      FlattenPlain(groups[..n]);
      assert Flatten(groups) == Flatten(groups[..n]) + groups[n];
      PlainConcat(Flatten(groups[..n]), groups[n]);
      assert groups == groups[..n] + [groups[n]];
    }
  }

  lemma PlainConcat(a: seq<string>, b: seq<string>)
    ensures Plain(a + b) <==> Plain(a) && Plain(b)
  {
    if Plain(a + b) {
      assert forall i :: 0 <= i < |a| ==> a[i] == (a + b)[i];
      assert forall i :: 0 <= i < |b| ==> b[i] == (a + b)[|a| + i];
    }
  }

  lemma {:induction false} KeptPlain(lines: seq<string>)
    requires Plain(lines)
    ensures Plain(Kept(lines))
  {
    if lines != [] {
      KeptPlain(lines[..|lines| - 1]);
    }
  }

  /** The groups of a text have no newline inside a line. */
  lemma GroupsPlain(content: string, k: nat)
    requires k < |Groups(Split(content, '\n'))|
    ensures Plain(Groups(Split(content, '\n'))[k])
  {
    var lines := Split(content, '\n');
    assert Plain(lines) by { assert forall i :: 0 <= i < |lines| ==> lines[i] in lines; }
    KeptPlain(lines);
    GroupsMeaning(lines);
    FlattenPlain(Groups(lines));
  }

  /**
   What each statement holds: splitting it into lines gives the lines of its group, with the
   first and the last trimmed on the outside; together the groups are all the kept lines.
   */
  lemma StatementsHoldTheLines(content: string, k: nat)
    requires k < |Result(content)|
    ensures var lines := Split(content, '\n');
            && |Result(content)| == |Groups(lines)|
            && Split(Result(content)[k], '\n') == TrimEnds(Groups(lines)[k])
            && Flatten(Groups(lines)) == Kept(lines)
            && WellGrouped(Groups(lines))
  {
    var groups := Groups(Split(content, '\n'));
    GroupsMeaning(Split(content, '\n'));
    GroupsPlain(content, k);
    GroupKept(groups, k);
    StatementLines(groups[k]);
  }

  /** Joining the lines of well-formed groups and grouping again gives the trimmed groups. */
  lemma RegroupJoined(groups: seq<seq<string>>)
    requires WellGrouped(groups) && forall k :: 0 <= k < |groups| ==> Plain(groups[k])
    ensures Groups(Split(Join(StatementsOf(groups), "\n"), '\n')) == TrimAll(groups)
  {
    GroupsAreStated(groups);
    JoinFlatten(groups);
    var trimmed := TrimAll(groups);
    TrimAllGrouped(groups);
    if groups == [] {
      SplitOne("", '\n');
      BlankLineIgnored();
    } else {
      forall k | 0 <= k < |groups| ensures Plain(trimmed[k]) {
        TrimEndsPlain(groups[k]);
      }
      FlattenPlain(trimmed);
      assert forall p :: p in Flatten(trimmed) ==> '\n' !in p;
      SplitJoin(Flatten(trimmed), '\n');
      Regroup(trimmed);
    }
  }

  lemma BlankLineIgnored()
    ensures Groups([""]) == []
  {
    assert [""][..0] == [];
    assert FeedAll([""]) == Feed(FeedAll([]), "");
    BlankIffAllSpace("");
  }

  /** Splitting the newline-joined statements again gives the same statements. */
  lemma SplitIsStable(content: string)
    ensures Result(Join(Result(content), "\n")) == Result(content)
  {
    var groups := Groups(Split(content, '\n'));
    GroupsMeaning(Split(content, '\n'));
    forall k | 0 <= k < |groups| ensures Plain(groups[k]) {
      GroupsPlain(content, k);
    }
    RegroupJoined(groups);
    TrimAllStatements(groups);
  }
}
