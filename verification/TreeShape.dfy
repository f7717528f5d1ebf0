/**
 The shape of the tree of ParserTreeFolder: which positions it has, that siblings differ,
 that they keep the list's order, and which nodes are directories.
 */
module TreeShape {
  import opened GoStrings
  import opened TreeParser
  import opened TreeOrder

  // There is a node at the end of this path of names, starting below t.
  ghost predicate Has(t: Tree, rel: seq<string>)
    decreases |rel|
  {
    rel != [] && exists k | 0 <= k < |t.children| ::
      t.children[k].name == rel[0] && (|rel| == 1 || Has(t.children[k], rel[1..]))
  }

  // Below t, all names are file names and no two siblings share one.
  ghost predicate DistinctSiblings(t: Tree) {
    && (forall k | 0 <= k < |t.children| :: FileName(t.children[k].name) && DistinctSiblings(t.children[k]))
    && (forall k, m | 0 <= k < m < |t.children| :: t.children[k].name != t.children[m].name)
  }

  // Below t, siblings stand in bytewise order of their names.
  ghost predicate Ordered(t: Tree) {
    && (forall k | 0 <= k < |t.children| :: Ordered(t.children[k]))
    && (forall k, m | 0 <= k < m < |t.children| :: LexLess(t.children[k].name, t.children[m].name))
  }

  // Below t, a node with children is a directory.
  ghost predicate ParentsAreDirs(t: Tree) {
    forall k | 0 <= k < |t.children| ::
      (t.children[k].children != [] ==> t.children[k].isDir) && ParentsAreDirs(t.children[k])
  }

  // Below t, a directory has children.
  ghost predicate DirsAreParents(t: Tree) {
    forall k | 0 <= k < |t.children| ::
      (t.children[k].isDir ==> t.children[k].children != []) && DirsAreParents(t.children[k])
  }

  // ------------------------------------------------------------------ slots by their elements

  function Up(e: seq<string>): seq<string>
    requires e != []
  {
    e[..|e| - 1]
  }

  // at[i] lists the elements of the path of slot i.
  ghost predicate PlacedAt(f: Forest, at: seq<seq<string>>, i: nat)
    requires f.Valid() && |at| == |f.slots| && i < |at|
  {
    && at[i] != [] && FileNames(at[i])
    && (i > 0 ==> |at[i]| > 1 && f.slots[i].item.name == at[i][|at[i]| - 1] && Up(at[i]) in at)
    && (forall k, m | 0 <= k < m < |f.slots[i].kids| :: f.slots[i].kids[k] < f.slots[i].kids[m])
    && (forall j | 0 < j < |at| && at[j] != [] :: Up(at[j]) == at[i] <==> j in f.slots[i].kids)
  }

  ghost predicate Placed(f: Forest, at: seq<seq<string>>) {
    && f.Valid()
    && |at| == |f.slots|
    && at[0] == TOP
    && (forall i | 0 <= i < |at| :: PlacedAt(f, at, i))
    && (forall i, j | 0 <= i < j < |at| :: at[i] != at[j])
  }

  lemma {:induction false} KidAt(f: Forest, at: seq<seq<string>>, i: nat, j: nat)
    requires Placed(f, at) && i < |at| && j in f.slots[i].kids
    ensures 0 < j < |at| && at[j] == at[i] + [f.slots[j].item.name]
  {
    assert f.KidsAfter(i) && PlacedAt(f, at, i) && PlacedAt(f, at, j);
    assert at[j] == Up(at[j]) + [at[j][|at[j]| - 1]];
  }

  lemma {:induction false} FindKid(f: Forest, at: seq<seq<string>>, i: nat, x: string) returns (k: nat)
    requires Placed(f, at) && i < |at| && at[i] + [x] in at
    ensures k < |f.slots[i].kids| && f.slots[i].kids[k] < |at| && f.slots[f.slots[i].kids[k]].item.name == x
  {
    assert PlacedAt(f, at, i);
    var j :| 0 <= j < |at| && at[j] == at[i] + [x];
    assert PlacedAt(f, at, j);
    assert Up(at[j]) == at[i];
    assert j > 0;
    k :| 0 <= k < |f.slots[i].kids| && f.slots[i].kids[k] == j;
  }

  // ------------------------------------------------------------------ positions

  // If a path has a slot, each of its ancestors from /workspace down has one.
  lemma {:induction false} AncestorsIn(f: Forest, at: seq<seq<string>>, e: seq<string>, n: nat)
    requires Placed(f, at) && e in at && 1 <= n <= |e|
    ensures e[..n] in at
    decreases |e|
  {
    if n == |e| {
      assert e[..n] == e;
    } else {
      var j :| 0 <= j < |at| && at[j] == e;
      assert PlacedAt(f, at, j);
      AncestorsIn(f, at, Up(e), n);
      assert Up(e)[..n] == e[..n];
    }
  }

  lemma {:induction false} HasIsSlot(f: Forest, at: seq<seq<string>>, i: nat, rel: seq<string>)
    requires Placed(f, at) && i < |at| && rel != []
    ensures Has(f.ToTree(i), rel) <==> at[i] + rel in at
    decreases |rel|
  {
    var t, kids := f.ToTree(i), f.slots[i].kids;
    assert at[i] + rel == (at[i] + [rel[0]]) + rel[1..];
    assert |rel| == 1 ==> at[i] + rel == at[i] + [rel[0]];
    forall k | 0 <= k < |kids| && t.children[k].name == rel[0]
      ensures at[i] + [rel[0]] in at
      ensures |rel| > 1 ==> (Has(t.children[k], rel[1..]) <==> at[i] + rel in at)
    {
      KidAt(f, at, i, kids[k]);
      if |rel| > 1 {
        HasIsSlot(f, at, kids[k], rel[1..]);
      }
    }
    if at[i] + rel in at {
      AncestorsIn(f, at, at[i] + rel, |at[i]| + 1);
      assert (at[i] + rel)[..|at[i]| + 1] == at[i] + [rel[0]];
      var k := FindKid(f, at, i, rel[0]);
      assert t.children[k] == f.ToTree(kids[k]);
    }
  }

  // ------------------------------------------------------------------ siblings

  // Two kids of a slot stand at different positions below it, the first one earlier.
  lemma {:induction false} KidsApart(f: Forest, at: seq<seq<string>>, i: nat, k: nat, m: nat)
    requires Placed(f, at) && i < |at| && k < m < |f.slots[i].kids|
    ensures var a, b := f.slots[i].kids[k], f.slots[i].kids[m];
            && 0 < a < b < |at|
            && at[a] == at[i] + [f.slots[a].item.name] && at[b] == at[i] + [f.slots[b].item.name]
            && f.slots[a].item.name != f.slots[b].item.name
  {
    var a, b := f.slots[i].kids[k], f.slots[i].kids[m];
    assert f.KidsAfter(i) && PlacedAt(f, at, i);
    assert a < b;
    KidAt(f, at, i, a);
    KidAt(f, at, i, b);
    assert at[a] != at[b];
  }

  lemma {:induction false} SiblingsDiffer(f: Forest, at: seq<seq<string>>, i: nat)
    requires Placed(f, at) && i < |at|
    ensures DistinctSiblings(f.ToTree(i))
    decreases |at| - i
  {
    var t, kids := f.ToTree(i), f.slots[i].kids;
    assert f.KidsAfter(i) && PlacedAt(f, at, i);
    forall k | 0 <= k < |kids|
      ensures FileName(t.children[k].name) && DistinctSiblings(t.children[k])
    {
      KidAt(f, at, i, kids[k]);
      assert PlacedAt(f, at, kids[k]);
      SiblingsDiffer(f, at, kids[k]);
    }
    forall k, m | 0 <= k < m < |kids|
      ensures t.children[k].name != t.children[m].name
    {
      KidsApart(f, at, i, k, m);
      assert t.children[k] == f.ToTree(kids[k]) && t.children[m] == f.ToTree(kids[m]);
    }
  }

  // The slots after the root are in bytewise order.
  ghost predicate SlotsSorted(at: seq<seq<string>>) {
    forall i, j | 0 < i < j < |at| :: LexLess(PathOf(at[i]), PathOf(at[j]))
  }

  lemma {:induction false} SiblingOrder(d: seq<string>, a: string, b: string)
    ensures LexLess(PathOf(d + [a]), PathOf(d + [b])) <==> LexLess(a, b)
  {
    PathOfSnoc(d, a);
    PathOfSnoc(d, b);
    LexCommonPrefix(PathOf(d) + "/", a, b);
  }

  lemma {:induction false} SiblingsOrdered(f: Forest, at: seq<seq<string>>, i: nat)
    requires Placed(f, at) && SlotsSorted(at) && i < |at|
    ensures Ordered(f.ToTree(i))
    decreases |at| - i
  {
    var t, kids := f.ToTree(i), f.slots[i].kids;
    assert f.KidsAfter(i) && PlacedAt(f, at, i);
    forall k | 0 <= k < |kids|
      ensures Ordered(t.children[k])
    {
      SiblingsOrdered(f, at, kids[k]);
    }
    forall k, m | 0 <= k < m < |kids|
      ensures LexLess(t.children[k].name, t.children[m].name)
    {
      KidsApart(f, at, i, k, m);
      assert t.children[k] == f.ToTree(kids[k]) && t.children[m] == f.ToTree(kids[m]);
      SiblingOrder(at[i], t.children[k].name, t.children[m].name);
    }
  }

  // ------------------------------------------------------------------ directories

  ghost predicate IsBelow(e: seq<string>, q: seq<string>) {
    |e| < |q| && e <= q
  }

  // A slot is a directory when the list, whose paths have these elements, goes on below it.
  ghost predicate KindAt(f: Forest, at: seq<seq<string>>, listed: seq<seq<string>>, i: nat)
    requires |at| == |f.slots| && i < |at|
  {
    at[i] in listed && (f.slots[i].item.isDir <==> exists q | q in listed :: IsBelow(at[i], q))
  }

  ghost predicate Kinds(f: Forest, at: seq<seq<string>>, listed: seq<seq<string>>)
    requires |at| == |f.slots|
  {
    forall i | 0 < i < |at| :: KindAt(f, at, listed, i)
  }

  lemma {:induction false} ParentsAreDirectories(f: Forest, at: seq<seq<string>>, listed: seq<seq<string>>, i: nat)
    requires Placed(f, at) && Kinds(f, at, listed) && i < |at|
    ensures ParentsAreDirs(f.ToTree(i))
    decreases |at| - i
  {
    var t, kids := f.ToTree(i), f.slots[i].kids;
    assert f.KidsAfter(i);
    forall k | 0 <= k < |kids|
      ensures (t.children[k].children != [] ==> t.children[k].isDir) && ParentsAreDirs(t.children[k])
    {
      var j := kids[k];
      assert f.KidsAfter(j) && KindAt(f, at, listed, j);
      ParentsAreDirectories(f, at, listed, j);
      if f.slots[j].kids != [] {
        var m := f.slots[j].kids[0];
        KidAt(f, at, j, m);
        assert KindAt(f, at, listed, m) && IsBelow(at[j], at[m]);
      }
    }
  }

  lemma {:induction false} DirectoriesAreParents(f: Forest, at: seq<seq<string>>, listed: seq<seq<string>>, i: nat)
    requires Placed(f, at) && Kinds(f, at, listed) && i < |at|
    requires forall q | q in listed :: q in at
    ensures DirsAreParents(f.ToTree(i))
    decreases |at| - i
  {
    var t, kids := f.ToTree(i), f.slots[i].kids;
    assert f.KidsAfter(i);
    forall k | 0 <= k < |kids|
      ensures (t.children[k].isDir ==> t.children[k].children != []) && DirsAreParents(t.children[k])
    {
      var j := kids[k];
      assert KindAt(f, at, listed, j);
      DirectoriesAreParents(f, at, listed, j);
      if f.slots[j].item.isDir {
        var q :| q in listed && IsBelow(at[j], q);
        AncestorsIn(f, at, q, |at[j]| + 1);
        assert q[..|at[j]| + 1] == at[j] + [q[|at[j]|]];
        var m := FindKid(f, at, j, q[|at[j]|]);
      }
    }
  }
}
