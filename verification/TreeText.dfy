/**
 The round trip through text, and the names it works for.
 */
module TreeText {
  import opened Common
  import opened GoStrings
  import opened TreeParser
  import opened TreeOrder
  import opened TreeShape
  import opened TreeList
  import opened TreeRoundTrip

  // A name that survives being a line of text that is trimmed.
  predicate SafeName(x: string) {
    '\n' !in x && (x != "" ==> !IsSpace(x[|x| - 1]))
  }

  ghost predicate SafeNames(t: Tree) {
    forall k | 0 <= k < |t.children| :: SafeName(t.children[k].name) && SafeNames(t.children[k])
  }

  // A workspace on disk: siblings differ, and what has children is a directory.
  ghost predicate Workspace(t: Tree) {
    t.name == "." && t.isDir && DistinctSiblings(t) && ParentsAreDirs(t)
  }

  // The lines that `sort` may print for these lines.
  ghost predicate SortOf(lines: seq<string>, printed: seq<string>) {
    && multiset(lines) == multiset(printed)
    && forall i, j | 0 <= i < j < |lines| :: !LexLess(lines[j], lines[i])
  }

  // The text made of these lines.
  function Text(lines: seq<string>): string {
    Join(lines, '\n') + "\n"
  }

  // ------------------------------------------------------------------ lines survive

  predicate TidyLine(line: string) {
    line != "" && line[0] == '/' && SafeName(line)
  }

  lemma {:induction false} TidyTrim(line: string)
    requires TidyLine(line)
    ensures TrimSpace(line) == line
  {
  }

  lemma {:induction false} JoinEnds(lines: seq<string>)
    requires lines != [] && forall l | l in lines :: TidyLine(l)
    ensures var s := Join(lines, '\n'); s != "" && s[0] == '/' && !IsSpace(s[|s| - 1])
  {
    var n := |lines| - 1;
    assert TidyLine(lines[n]);
    if n > 0 {
      JoinEnds(lines[..n]);
    }
  }

  lemma {:induction false} TextLines(lines: seq<string>)
    requires lines != [] && forall l | l in lines :: TidyLine(l)
    ensures Split(TrimSpace(Text(lines)), '\n') == lines
  {
    var s := Join(lines, '\n');
    JoinEnds(lines);
    assert TrimLeft(s + "\n") == s + "\n";
    assert (s + "\n")[..|s|] == s;
    assert TrimRight(s + "\n") == TrimRight(s) == s;
    SplitJoin(lines, '\n');
  }

  function Below(lines: seq<string>): seq<string> {
    if lines == [] then []
    else
      var line, before := lines[|lines| - 1], Below(lines[..|lines| - 1]);
      if line == WORKSPACE then before else before + [line]
  }

  lemma {:induction false} PathLinesOfTidy(lines: seq<string>)
    requires forall l | l in lines :: TidyLine(l)
    ensures PathLines(lines) == Below(lines)
  {
    if lines != [] {
      TidyTrim(lines[|lines| - 1]);
      PathLinesOfTidy(lines[..|lines| - 1]);
    }
  }

  lemma {:induction false} BelowIs(lines: seq<string>)
    ensures forall l :: l in Below(lines) <==> l in lines && l != WORKSPACE
    ensures Sorted(lines) ==> Sorted(Below(lines))
  {
    if lines != [] {
      var n := |lines| - 1;
      BelowIs(lines[..n]);
      assert lines == lines[..n] + [lines[n]];
      if Sorted(lines) {
        assert Sorted(lines[..n]);
        forall i | 0 <= i < |Below(lines[..n])|
          ensures LexLess(Below(lines[..n])[i], lines[n])
        {
          assert Below(lines[..n])[i] in lines[..n];
        }
      }
    }
  }

  // ------------------------------------------------------------------ the lines of a workspace

  lemma {:induction false} WalkNames(ts: seq<Tree>, at: seq<string>, e: seq<string>)
    requires DistinctSiblings(Tree("", true, ts)) && FileNames(at) && e in Walk(ts, at)
    ensures FileNames(e)
    decreases ts
  {
    var here := at + [ts[0].name];
    assert FileName(ts[0].name) && DistinctSiblings(ts[0]);
    if e in Walk(ts[0].children, here) {
      WalkNames(ts[0].children, here, e);
    } else if e in Walk(ts[1..], at) {
      WalkNames(ts[1..], at, e);
    }
  }

  lemma {:induction false} WalkParents(ts: seq<Tree>, at: seq<string>, e: seq<string>)
    requires e in Walk(ts, at) && |e| > |at| + 1
    ensures Up(e) in Walk(ts, at)
    decreases ts
  {
    var here := at + [ts[0].name];
    if e in Walk(ts[0].children, here) {
      WalkIsBelow(ts[0].children, here, e);
      if |e| == |here| + 1 {
        assert Up(e) == here;
      } else {
        WalkParents(ts[0].children, here, e);
      }
    } else {
      WalkParents(ts[1..], at, e);
    }
  }

  lemma {:induction false} PathSafe(e: seq<string>)
    requires e != [] && FileNames(e)
    requires forall x | x in e :: '\n' !in x
    requires SafeName(e[|e| - 1])
    ensures TidyLine(PathOf(e))
  {
    PathOfStartsWithSlash(e);
    PathNoNewline(e);
    assert FileName(e[|e| - 1]);
  }

  lemma {:induction false} PathNoNewline(e: seq<string>)
    requires forall x | x in e :: '\n' !in x
    ensures '\n' !in PathOf(e)
  {
    if e != [] {
      PathNoNewline(e[..|e| - 1]);
    }
  }

  lemma {:induction false} WalkSafe(ts: seq<Tree>, at: seq<string>, e: seq<string>)
    requires SafeNames(Tree("", true, ts)) && e in Walk(ts, at)
    requires forall x | x in at :: '\n' !in x
    ensures forall x | x in e :: '\n' !in x
    ensures e != [] && SafeName(e[|e| - 1])
    decreases ts
  {
    var here := at + [ts[0].name];
    assert SafeName(ts[0].name) && SafeNames(ts[0]);
    if e in Walk(ts[0].children, here) {
      WalkSafe(ts[0].children, here, e);
    } else if e in Walk(ts[1..], at) {
      WalkSafe(ts[1..], at, e);
    }
  }

  // ------------------------------------------------------------------ the printed list

  lemma {:induction false} SameTree(t: Tree)
    ensures DistinctSiblings(t) <==> DistinctSiblings(Tree("", true, t.children))
    ensures SafeNames(t) <==> SafeNames(Tree("", true, t.children))
    ensures forall rel | rel != [] :: Has(t, rel) <==> HasIn(t.children, rel)
  {
  }

  // The printed lines and the positions of the workspace are the same thing.
  lemma {:induction false} PrintedElements(t: Tree, e: seq<string>)
    requires DistinctSiblings(t) && e in [TOP] + Walk(t.children, TOP)
    ensures e != [] && FileNames(e) && e[0] == "workspace"
    ensures SafeNames(t) ==> TidyLine(PathOf(e))
    ensures PathOf(e) == WORKSPACE <==> e == TOP
    ensures |e| > 2 ==> Up(e) in Walk(t.children, TOP)
  {
    SameTree(t);
    TopPath();
    if e != TOP {
      WalkIsBelow(t.children, TOP, e);
      WalkNames(t.children, TOP, e);
      assert e[..1] == TOP;
      if |e| > 2 {
        WalkParents(t.children, TOP, e);
      }
    }
    SamePath(e, TOP);
    if SafeNames(t) {
      if e != TOP {
        WalkSafe(t.children, TOP, e);
      }
      PathSafe(e);
    }
  }

  lemma {:induction false} PrintedPosition(t: Tree, rel: seq<string>)
    requires DistinctSiblings(t) && rel != [] && FileNames(rel)
    ensures PathOf(TOP + rel) in FindLines(t) <==> Has(t, rel)
  {
    var all, e := [TOP] + Walk(t.children, TOP), TOP + rel;
    SameTree(t);
    TopPath();
    WalkHas(t.children, TOP, rel);
    if PathOf(e) in FindLines(t) {
      var i :| 0 <= i < |all| && PathOf(all[i]) == PathOf(e);
      PrintedElements(t, all[i]);
      SamePath(all[i], e);
    }
    if e in all {
      var i :| 0 <= i < |all| && all[i] == e;
      assert FindLines(t)[i] == PathOf(e);
    }
  }

  lemma {:induction false} PrintedNoRepeats(t: Tree)
    requires DistinctSiblings(t)
    ensures NoRepeats(FindLines(t))
  {
    var all, lines := [TOP] + Walk(t.children, TOP), FindLines(t);
    SameTree(t);
    WalkNoRepeats(t.children, TOP);
    forall i | 0 < i < |all|
      ensures all[i] != TOP
    {
      WalkIsBelow(t.children, TOP, all[i]);
    }
    forall i, j | 0 <= i < j < |lines|
      ensures lines[i] != lines[j]
    {
      PrintedElements(t, all[i]);
      PrintedElements(t, all[j]);
      SamePath(all[i], all[j]);
    }
  }

  lemma {:induction false} PrintedLine(t: Tree, lines: seq<string>, l: string) returns (e: seq<string>)
    requires DistinctSiblings(t) && SortOf(lines, FindLines(t)) && l in lines
    ensures e in [TOP] + Walk(t.children, TOP) && l == PathOf(e)
  {
    assert l in multiset(lines);
    assert l in FindLines(t);
    var all := [TOP] + Walk(t.children, TOP);
    var i :| 0 <= i < |all| && FindLines(t)[i] == l;
    e := all[i];
  }

  lemma {:induction false} SortedPrint(t: Tree, lines: seq<string>)
    requires DistinctSiblings(t) && SortOf(lines, FindLines(t))
    ensures Sorted(lines) && lines != []
    ensures forall l :: l in lines <==> l in FindLines(t)
  {
    PrintedNoRepeats(t);
    RearrangedNoRepeats(FindLines(t), lines);
    forall i, j | 0 <= i < j < |lines|
      ensures LexLess(lines[i], lines[j])
    {
      LexTotal(lines[i], lines[j]);
    }
    forall l
      ensures l in lines <==> l in FindLines(t)
    {
      assert l in lines <==> l in multiset(lines);
    }
    assert FindLines(t)[0] in lines;
  }

  lemma {:induction false} PrintedParent(t: Tree, e: seq<string>)
    requires DistinctSiblings(t) && e in [TOP] + Walk(t.children, TOP) && |e| > 2
    ensures PathOf(Up(e)) in FindLines(t) && PathOf(Up(e)) != WORKSPACE
  {
    var all, up := [TOP] + Walk(t.children, TOP), Up(e);
    PrintedElements(t, e);
    var k :| 0 <= k < |Walk(t.children, TOP)| && Walk(t.children, TOP)[k] == up;
    assert all[k + 1] == up;
    PrintedElements(t, up);
    assert FindLines(t)[k + 1] == PathOf(up);
  }

  lemma {:induction false} PrintedIsListing(t: Tree, lines: seq<string>)
    requires DistinctSiblings(t) && SortOf(lines, FindLines(t))
    ensures var paths := Below(lines); Listing(paths) && Sorted(paths) && ParentClosed(paths)
  {
    var paths := Below(lines);
    SortedPrint(t, lines);
    BelowIs(lines);
    TopPath();
    forall i | 0 <= i < |paths|
      ensures CleanPath(paths[i]) && paths[i] != WORKSPACE
      ensures var e := Elements(paths[i]);
              |e| > 1 && e[0] == "workspace" && (|e| > 2 ==> PathOf(Up(e)) in paths)
    {
      assert paths[i] in lines;
      var e := PrintedLine(t, lines, paths[i]);
      PrintedElements(t, e);
      ElementsOfPathOf(e);
      assert |e| == 1 ==> e == TOP;
      if |e| > 2 {
        PrintedParent(t, e);
      }
    }
    forall i, j | 0 <= i < j < |paths|
      ensures paths[i] != paths[j]
    {
      LexIrreflexive(paths[i]);
    }
  }

  lemma {:induction false} PathsOfText(t: Tree, lines: seq<string>)
    requires DistinctSiblings(t) && SafeNames(t) && SortOf(lines, FindLines(t))
    ensures Paths(Text(lines)) == Below(lines)
  {
    SortedPrint(t, lines);
    forall l | l in lines
      ensures TidyLine(l)
    {
      var e := PrintedLine(t, lines, l);
      PrintedElements(t, e);
    }
    TextLines(lines);
    PathLinesOfTidy(lines);
  }

  /** The round trip: for a workspace whose names are safe, and whatever order `find` walks it
      in, parsing the sorted output gives the tree in normal form with the same positions. By
      PositionsDetermineTree there is only one such tree: the workspace itself when it already
      is in normal form. */
  lemma {:induction false} RoundTrip(t: Tree, lines: seq<string>)
    requires Workspace(t) && SafeNames(t) && SortOf(lines, FindLines(t))
    ensures var p := Parse(Text(lines)); Workspace(p) && Normal(p) && SamePositions(p, t)
    ensures Normal(t) ==> Parse(Text(lines)) == t
  {
    var paths, p := Below(lines), Parse(Text(lines));
    PathsOfText(t, lines);
    PrintedIsListing(t, lines);
    TreeOfAnyList(paths);
    TreeOfSortedList(paths);
    SortedPrint(t, lines);
    BelowIs(lines);
    TopPath();
    forall rel | rel != [] && FileNames(rel)
      ensures Has(p, rel) <==> Has(t, rel)
    {
      PrintedPosition(t, rel);
      SamePath(TOP + rel, TOP);
    }
    if Normal(t) {
      PositionsDetermineTree(p, t);
    }
  }
}
