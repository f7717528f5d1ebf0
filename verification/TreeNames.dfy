/**
 No input makes ParserTreeFolder show a name with a newline in it or white space at its
 end, so the round trip of TreeText.dfy works exactly for the workspaces without such names.
 */
module TreeNames {
  import opened GoStrings
  import opened TreeParser
  import opened TreeOrder
  import opened TreeShape
  import opened TreeList
  import opened TreeRoundTrip
  import opened TreeText

  // ------------------------------------------------------------------ trimmed lines

  predicate EndsWell(s: string) {
    s != "" && !IsSpace(s[|s| - 1])
  }

  lemma {:induction false} TrimRightEnds(s: string)
    ensures TrimRight(s) != "" ==> EndsWell(TrimRight(s))
    ensures TrimRight(s) <= s
  {
    if s != "" && IsSpace(s[|s| - 1]) {
      TrimRightEnds(s[..|s| - 1]);
    }
  }

  lemma {:induction false} TrimLeftPart(s: string)
    ensures forall c | c in TrimLeft(s) :: c in s
  {
    if s != "" && IsSpace(s[0]) {
      TrimLeftPart(s[1..]);
    }
  }

  predicate TrimmedLine(p: string) {
    EndsWell(p) && '\n' !in p
  }

  lemma {:induction false} TrimSpaceTrims(l: string)
    requires '\n' !in l && TrimSpace(l) != ""
    ensures TrimmedLine(TrimSpace(l))
  {
    TrimLeftPart(l);
    TrimRightEnds(TrimLeft(l));
  }

  lemma {:induction false} PathLinesTrimmed(lines: seq<string>)
    requires forall l | l in lines :: '\n' !in l
    ensures forall p | p in PathLines(lines) :: TrimmedLine(p)
  {
    if lines != [] {
      var l := lines[|lines| - 1];
      PathLinesTrimmed(lines[..|lines| - 1]);
      assert l in lines;
      if TrimSpace(l) != "" {
        TrimSpaceTrims(l);
      }
    }
  }

  // ------------------------------------------------------------------ the name of a trimmed path

  lemma {:induction false} CleanLast(elements: seq<string>, c: string, rooted: bool)
    requires c != "" && c != "." && c != ".."
    ensures CleanElements(elements + [c], rooted) == CleanElements(elements, rooted) + [c]
  {
    assert (elements + [c])[..|elements|] == elements;
  }

  lemma {:induction false} CleanTrimmed(p: string, rooted: bool)
    ensures CleanElements(Split(p, '/'), rooted) == CleanElements(Split(TrimSlashes(p), '/'), rooted)
    ensures TrimSlashes(p) <= p
  {
    if p != "" && p[|p| - 1] == '/' {
      var q := p[..|p| - 1];
      assert p == q + ['/'] + "";
      SplitSnoc(q, "", '/');
      var parts := Split(p, '/');
      assert parts[..|parts| - 1] == Split(q, '/');
      CleanTrimmed(q, rooted);
    }
  }

  lemma {:induction false} JoinLast(parts: seq<string>, c: string)
    requires c != ""
    ensures var s := Join(parts + [c], '/'); s != "" && s[|s| - 1] == c[|c| - 1]
  {
    assert (parts + [c])[..|parts|] == parts;
  }

  // The elements of a path without slashes at its end, whose last name is a proper one.
  lemma {:induction false} LastElement(q: string, c: string, rooted: bool) returns (kept: seq<string>)
    requires q != "" && c == q[LastSlash(q) + 1..] && c != "" && c != "." && c != ".."
    ensures CleanElements(Split(q, '/'), rooted) == kept + [c]
  {
    var i := LastSlash(q);
    if i < 0 {
      assert q == c;
      SplitWhole(c, '/');
      CleanLast([], c, rooted);
      assert [] + [c] == [c];
      kept := [];
    } else {
      assert q == q[..i] + ['/'] + c;
      SplitSnoc(q[..i], c, '/');
      CleanLast(Split(q[..i], '/'), c, rooted);
      kept := CleanElements(Split(q[..i], '/'), rooted);
    }
  }

  // filepath.Clean ends in the last name of the path, whatever slashes follow it.
  lemma {:induction false} CleanEnds(p: string, c: string)
    requires TrimSlashes(p) != ""
    requires c == TrimSlashes(p)[LastSlash(TrimSlashes(p)) + 1..] && c != "" && c != "." && c != ".."
    ensures Clean(p) != "" && Clean(p)[|Clean(p)| - 1] == c[|c| - 1]
  {
    var rooted := p[0] == '/';
    CleanTrimmed(p, rooted);
    var kept := LastElement(TrimSlashes(p), c, rooted);
    PathOfSnoc(kept, c);
    JoinLast(kept, c);
  }

  lemma {:induction false} TrimSlashesEnds(s: string)
    ensures var q := TrimSlashes(s); q <= s && (q != "" ==> q[|q| - 1] != '/')
    ensures s != "" && s[|s| - 1] != '/' ==> TrimSlashes(s) == s
  {
    if s != "" && s[|s| - 1] == '/' {
      TrimSlashesEnds(s[..|s| - 1]);
    }
  }

  lemma {:induction false} DirWithSlash(p: string)
    requires p != "" && p[|p| - 1] == '/'
    ensures Dir(p) == Clean(p)
  {
    assert LastSlash(p) == |p| - 1;
    assert p[..LastSlash(p) + 1] == p;
  }

  lemma {:induction false} BaseWithSlash(p: string, c: string)
    requires p != "" && p[|p| - 1] == '/' && EndsWell(Dir(p)) && TrimSlashes(p) != ""
    requires c == TrimSlashes(p)[LastSlash(TrimSlashes(p)) + 1..] && c != "" && c != "." && c != ".."
    ensures EndsWell(c)
  {
    DirWithSlash(p);
    CleanEnds(p, c);
  }

  lemma {:induction false} TailIsPart(p: string, q: string, i: int)
    requires q <= p && -1 <= i < |q| - 1
    ensures var c := q[i + 1..]; c != "" && c[|c| - 1] == q[|q| - 1] && forall x | x in c :: x in p
  {
    forall x | x in q[i + 1..]
      ensures x in p
    {
      var k :| 0 <= k < |q| - i - 1 && q[i + 1..][k] == x;
      assert p[i + 1 + k] == x;
    }
  }

  lemma {:induction false} BaseIsPart(p: string)
    requires TrimSlashes(p) != ""
    ensures Base(p) != "" && (forall x | x in Base(p) :: x in p)
    ensures p[|p| - 1] != '/' ==> Base(p)[|Base(p)| - 1] == p[|p| - 1]
  {
    TrimSlashesEnds(p);
    var q := TrimSlashes(p);
    TailIsPart(p, q, LastSlash(q));
  }

  lemma {:induction false} BaseIsSafe(p: string)
    requires TrimmedLine(p) && EndsWell(Dir(p))
    ensures SafeName(Base(p))
  {
    if TrimSlashes(p) != "" {
      var c := Base(p);
      BaseIsPart(p);
      if p[|p| - 1] == '/' && c != "." && c != ".." {
        BaseWithSlash(p, c);
      }
    }
  }

  // ------------------------------------------------------------------ the nodes of any input

  // Every slot after the first is an item, and its parent is the root or an item's path.
  ghost predicate FromItems(f: Forest, items: seq<Item>) {
    && f.Valid()
    && (forall p | p in f.index :: p == WORKSPACE || exists k | 0 <= k < |items| :: items[k].path == p)
    && (forall i | 0 < i < |f.slots| :: FromItem(f.slots[i].item, items))
  }

  ghost predicate FromItem(item: Item, items: seq<Item>) {
    && item in items
    && (item.parent == WORKSPACE || exists k | 0 <= k < |items| :: items[k].path == item.parent)
  }

  lemma {:induction false} GrowFromItems(items: seq<Item>, n: nat)
    requires n <= |items|
    ensures FromItems(Grow(items, n), items)
    ensures Grow(items, n).slots[0].item.name == "."
  {
    if n > 0 {
      GrowFromItems(items, n - 1);
      var f, g, item := Grow(items, n - 1), Grow(items, n), items[n - 1];
      assert g == f.Add(item);
      forall i | 0 < i < |g.slots|
        ensures FromItem(g.slots[i].item, items)
      {
        assert i < |f.slots| ==> FromItem(f.slots[i].item, items);
      }
    }
  }

  lemma {:induction false} ParentEndsWell(paths: seq<string>, items: seq<Item>, item: Item)
    requires forall p | p in paths :: TrimmedLine(p)
    requires |items| == |paths| && forall k | 0 <= k < |items| :: items[k].path == paths[k]
    requires FromItem(item, items)
    ensures EndsWell(item.parent)
  {
    if item.parent != WORKSPACE {
      var m :| 0 <= m < |items| && items[m].path == item.parent;
      assert paths[m] in paths;
    }
  }

  lemma {:induction false} ItemIsSafe(paths: seq<string>, item: Item)
    requires forall p | p in paths :: TrimmedLine(p)
    requires FromItem(item, Items(paths))
    ensures SafeName(item.name)
  {
    var items := Items(paths);
    ParentEndsWell(paths, items, item);
    var k :| 0 <= k < |items| && items[k] == item;
    BaseIsSafe(paths[k]);
  }

  lemma {:induction false} SlotsAreSafe(paths: seq<string>, f: Forest, i: nat)
    requires forall p | p in paths :: TrimmedLine(p)
    requires FromItems(f, Items(paths)) && i < |f.slots|
    ensures SafeNames(f.ToTree(i))
    decreases |f.slots| - i
  {
    var t, kids := f.ToTree(i), f.slots[i].kids;
    assert f.KidsAfter(i);
    forall k | 0 <= k < |kids|
      ensures SafeName(t.children[k].name) && SafeNames(t.children[k])
    {
      ItemIsSafe(paths, f.slots[kids[k]].item);
      SlotsAreSafe(paths, f, kids[k]);
    }
  }

  /** Whatever the text, no name in the tree holds a newline or ends in white space. */
  lemma {:induction false} ParseNamesAreSafe(input: string)
    ensures SafeNames(Parse(input))
  {
    var paths := Paths(input);
    SplitHasNoSeparator(TrimSpace(input), '\n');
    PathLinesTrimmed(Split(TrimSpace(input), '\n'));
    GrowFromItems(Items(paths), |paths|);
    SlotsAreSafe(paths, Grow(Items(paths), |paths|), 0);
  }

  /** The round trip gives a workspace in normal form back exactly when none of its names
      holds a newline or ends in white space. */
  lemma {:induction false} RoundTripExactly(t: Tree, lines: seq<string>)
    requires Workspace(t) && Normal(t) && SortOf(lines, FindLines(t))
    ensures Parse(Text(lines)) == t <==> SafeNames(t)
  {
    ParseNamesAreSafe(Text(lines));
    if SafeNames(t) {
      RoundTrip(t, lines);
    }
  }
}
