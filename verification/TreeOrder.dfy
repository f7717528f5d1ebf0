/**
 What the tree of ParserTreeFolder contains, for any list of distinct clean paths in any
 order: the paths whose ancestors are listed before them, outermost first.
 */
module TreeOrder {
  import opened GoStrings
  import opened TreeParser

  const TOP := ["workspace"]

  // A list the parser may be given once "/workspace" itself has been skipped.
  ghost predicate Listing(paths: seq<string>) {
    && (forall i | 0 <= i < |paths| :: CleanPath(paths[i]) && paths[i] != WORKSPACE)
    && (forall i, j | 0 <= i < j < |paths| :: paths[i] != paths[j])
  }

  // Where p stands in the list, or its length if p is not in it.
  function Pos(paths: seq<string>, p: string): (i: nat)
    ensures i <= |paths|
    ensures i < |paths| ==> paths[i] == p
    ensures i == |paths| ==> p !in paths
  {
    if paths == [] then 0 else if paths[0] == p then 0 else 1 + Pos(paths[1..], p)
  }

  lemma {:induction false} PosOf(paths: seq<string>, i: nat)
    requires Listing(paths) && i < |paths|
    ensures Pos(paths, paths[i]) == i
  {
    var j := Pos(paths, paths[i]);
    assert j < |paths| && paths[j] == paths[i];
  }

  // The path with these elements is listed, and so is each ancestor below /workspace, each
  // one before the next one down.
  ghost predicate ListedInOrder(paths: seq<string>, e: seq<string>) {
    && |e| > 1 && e[0] == "workspace"
    && PathOf(e) in paths
    && forall k | 2 <= k < |e| :: Pos(paths, PathOf(e[..k])) < Pos(paths, PathOf(e[..k + 1]))
  }

  lemma {:induction false} ListedInOrderStep(paths: seq<string>, e: seq<string>, up: seq<string>)
    requires |e| > 2 && PathOf(e) in paths && up == e[..|e| - 1]
    ensures ListedInOrder(paths, e) <==>
            ListedInOrder(paths, up) && Pos(paths, PathOf(up)) < Pos(paths, PathOf(e))
  {
    assert e[..|e|] == e && up[..|up|] == up;
    assert forall k | 0 <= k <= |up| :: up[..k] == e[..k];
  }

  // ------------------------------------------------------------------ the forest's slots

  ghost predicate SlotOk(f: Forest, i: nat)
    requires i < |f.slots|
  {
    var item := f.slots[i].item;
    && item.path in f.index && f.index[item.path] == i
    && (i == 0 ==> item == ROOT.slots[0].item)
    && (i > 0 ==> item.parent in f.index && item.parent != item.path)
  }

  // The kids of slot i are the slots of the paths whose directory is slot i, in list order.
  ghost predicate KidsOk(f: Forest, i: nat)
    requires i < |f.slots|
  {
    var s := f.slots[i];
    && (forall k, m | 0 <= k < m < |s.kids| :: s.kids[k] < s.kids[m])
    && (forall j :: j in s.kids <==> 0 < j < |f.slots| && f.slots[j].item.parent == s.item.path)
  }

  ghost predicate ForestOk(f: Forest) {
    && f.Valid()
    && |f.slots| > 0
    && (forall i | 0 <= i < |f.slots| :: SlotOk(f, i))
    && (forall i | 0 <= i < |f.slots| :: KidsOk(f, i))
    && (forall p | p in f.index :: f.slots[f.index[p]].item.path == p)
  }

  lemma {:induction false} AddKeepsOk(f: Forest, item: Item)
    requires ForestOk(f) && item.path !in f.index && item.parent != item.path
    ensures ForestOk(f.Add(item))
  {
    if item.parent in f.index {
      var g, m := f.Add(item), |f.slots|;
      forall i | 0 <= i < |g.slots|
        ensures SlotOk(g, i)
      {
        assert i < m ==> SlotOk(f, i);
      }
      forall i | 0 <= i < |g.slots|
        ensures KidsOk(g, i)
      {
        if i < m {
          AddKeepsKids(f, item, i);
        } else {
          forall j | 0 < j < |g.slots|
            ensures g.slots[j].item.parent != item.path
          {
            assert j < m ==> SlotOk(f, j);
          }
        }
      }
    }
  }

  lemma {:induction false} AddKeepsKids(f: Forest, item: Item, i: nat)
    requires ForestOk(f) && item.path !in f.index && item.parent != item.path && item.parent in f.index
    requires i < |f.slots|
    ensures KidsOk(f.Add(item), i)
  {
    var at, g, m := f.index[item.parent], f.Add(item), |f.slots|;
    assert KidsOk(f, i) && f.KidsAfter(i);
    assert SlotOk(f, i) && SlotOk(f, at);
    assert f.slots[i].item.path == item.parent <==> i == at;
    assert forall j | 0 <= j < m :: g.slots[j].item == f.slots[j].item;
    KidsGrow(f, g, item, i);
  }

  lemma {:induction false} KidsGrow(f: Forest, g: Forest, item: Item, i: nat)
    requires i < |f.slots| && KidsOk(f, i) && f.KidsAfter(i)
    requires |g.slots| == |f.slots| + 1 && g.slots[|f.slots|].item == item
    requires forall j | 0 <= j < |f.slots| :: g.slots[j].item == f.slots[j].item
    requires g.slots[i].kids
             == f.slots[i].kids + if f.slots[i].item.path == item.parent then [|f.slots|] else []
    ensures KidsOk(g, i)
  {
  }

  // ------------------------------------------------------------------ the forest and the list

  // Distinct paths, none of them the root's, none its own parent.
  ghost predicate GoodItems(items: seq<Item>) {
    && (forall i | 0 <= i < |items| :: items[i].path != WORKSPACE && items[i].parent != items[i].path)
    && (forall i, j | 0 <= i < j < |items| :: items[i].path != items[j].path)
  }

  // The path with this item has its ancestors before it in the list, outermost first.
  ghost predicate Chained(items: seq<Item>, i: nat)
    requires i < |items|
  {
    || items[i].parent == WORKSPACE
    || exists j | 0 <= j < i :: items[j].path == items[i].parent && Chained(items, j)
  }

  // Where the slots come from, and which paths have one: the parts of Grown.
  ghost predicate SlotsFrom(f: Forest, items: seq<Item>, n: nat, from: seq<nat>)
    requires n <= |items|
  {
    && |from| == |f.slots|
    && (forall i | 0 < i < |from| :: from[i] < n && items[from[i]] == f.slots[i].item)
    && (forall i, j | 0 < i < j < |from| :: from[i] < from[j])
  }

  ghost predicate IndexIs(f: Forest, items: seq<Item>, n: nat)
    requires n <= |items|
  {
    forall j | 0 <= j < n :: items[j].path in f.index <==> Chained(items, j)
  }

  // After n items: the slots are the chained ones of these, in list order.
  ghost predicate Grown(f: Forest, items: seq<Item>, n: nat, from: seq<nat>)
    requires n <= |items|
  {
    ForestOk(f) && SlotsFrom(f, items, n, from) && IndexIs(f, items, n)
  }

  lemma {:induction false} GrownIndex(f: Forest, items: seq<Item>, n: nat, from: seq<nat>, p: string)
    requires GoodItems(items) && n <= |items|
    requires Grown(f, items, n, from)
    ensures p == WORKSPACE ==> p in f.index
    ensures p in f.index && p != WORKSPACE ==> exists j | 0 <= j < n :: items[j].path == p && Chained(items, j)
  {
    assert SlotOk(f, 0);
    if p in f.index {
      var k := f.index[p];
      if k > 0 {
        assert items[from[k]].path == p;
      }
    }
  }

  lemma {:induction false} SlotsGrow(f: Forest, items: seq<Item>, n: nat, from: seq<nat>)
    requires f.Valid() && n < |items| && SlotsFrom(f, items, n, from) && |from| > 0
    ensures SlotsFrom(f.Add(items[n]), items, n + 1, if items[n].parent in f.index then from + [n] else from)
  {
    if items[n].parent in f.index {
      var g, from' := f.Add(items[n]), from + [n];
      forall i | 0 < i < |from'|
        ensures from'[i] < n + 1 && items[from'[i]] == g.slots[i].item
      {
        if i < |from| {
          assert items[from[i]] == f.slots[i].item;
        }
      }
    }
  }

  // The new item is not in the table yet, and has its parent in it exactly when it is chained.
  lemma {:induction false} NewItem(f: Forest, items: seq<Item>, n: nat, from: seq<nat>)
    requires GoodItems(items) && n < |items| && Grown(f, items, n, from)
    ensures items[n].path !in f.index && items[n].parent != items[n].path
    ensures items[n].parent in f.index <==> Chained(items, n)
  {
    GrownIndex(f, items, n, from, items[n].path);
    GrownIndex(f, items, n, from, items[n].parent);
    if items[n].parent in f.index && items[n].parent != WORKSPACE {
      var j :| 0 <= j < n && items[j].path == items[n].parent && Chained(items, j);
    }
    if Chained(items, n) && items[n].parent != WORKSPACE {
      var j :| 0 <= j < n && items[j].path == items[n].parent && Chained(items, j);
      assert items[j].path in f.index;
    }
  }

  lemma {:induction false} IndexGrows(f: Forest, items: seq<Item>, n: nat)
    requires f.Valid() && GoodItems(items) && n < |items| && IndexIs(f, items, n)
    requires items[n].path !in f.index && (items[n].parent in f.index <==> Chained(items, n))
    ensures IndexIs(f.Add(items[n]), items, n + 1)
  {
    var g := f.Add(items[n]);
    forall j | 0 <= j < n + 1
      ensures items[j].path in g.index <==> Chained(items, j)
    {
      if j < n {
        assert items[j].path != items[n].path;
      }
    }
  }

  lemma {:induction false} AddKeepsGrown(f: Forest, items: seq<Item>, n: nat, from: seq<nat>) returns (from': seq<nat>)
    requires GoodItems(items) && n < |items|
    requires Grown(f, items, n, from)
    ensures Grown(f.Add(items[n]), items, n + 1, from')
  {
    from' := if items[n].parent in f.index then from + [n] else from;
    NewItem(f, items, n, from);
    AddKeepsOk(f, items[n]);
    SlotsGrow(f, items, n, from);
    IndexGrows(f, items, n);
  }

  lemma {:induction false} RootIsGrown(items: seq<Item>)
    ensures Grown(ROOT, items, 0, [0])
  {
    assert SlotOk(ROOT, 0) && KidsOk(ROOT, 0);
  }

  lemma {:induction false} GrowIsGrown(items: seq<Item>, n: nat) returns (from: seq<nat>)
    requires GoodItems(items) && n <= |items|
    ensures Grown(Grow(items, n), items, n, from)
  {
    hide Grown, GoodItems;
    if n == 0 {
      from := [0];
      RootIsGrown(items);
      assert Grow(items, 0) == ROOT;
    } else {
      var before := GrowIsGrown(items, n - 1);
      from := AddKeepsGrown(Grow(items, n - 1), items, n - 1, before);
      assert Grow(items, n) == Grow(items, n - 1).Add(items[n - 1]);
    }
  }

  // The elements of the directory of a clean path.
  lemma {:induction false} DirElements(e: seq<string>, up: seq<string>)
    requires e != [] && FileNames(e) && up == e[..|e| - 1]
    ensures FileNames(up) && FileName(e[|e| - 1])
    ensures Base(PathOf(e)) == e[|e| - 1]
    ensures Dir(PathOf(e)) == if up == [] then "/" else PathOf(up)
    ensures PathOf(e) == PathOf(up) + "/" + e[|e| - 1]
  {
    assert e == up + [e[|e| - 1]];
    DirBase(up, e[|e| - 1]);
  }

  lemma {:induction false} ListingIsGood(paths: seq<string>)
    requires Listing(paths)
    ensures GoodItems(Items(paths))
  {
    var items := Items(paths);
    forall i | 0 <= i < |items|
      ensures items[i].path != WORKSPACE && items[i].parent != items[i].path
    {
      var e := Elements(paths[i]);
      DirElements(e, e[..|e| - 1]);
    }
  }

  // ------------------------------------------------------------------ which paths get a node

  lemma {:induction false} SamePath(a: seq<string>, b: seq<string>)
    requires a != [] && FileNames(a) && b != [] && FileNames(b)
    ensures PathOf(a) == PathOf(b) <==> a == b
  {
    ElementsOfPathOf(a);
    ElementsOfPathOf(b);
  }

  lemma {:induction false} TopPath()
    ensures FileNames(TOP) && PathOf(TOP) == WORKSPACE
  {
    assert TOP[..0] == [];
    assert 'w' in "workspace" && '/' !in "workspace";
  }

  ghost predicate ChainedMeansListed(paths: seq<string>, j: nat)
    requires j < |paths|
  {
    Chained(Items(paths), j) <==> ListedInOrder(paths, Elements(paths[j]))
  }

  lemma {:induction false} ChainedIsListed(paths: seq<string>, i: nat)
    requires Listing(paths) && i < |paths|
    ensures ChainedMeansListed(paths, i)
  {
    forall j | 0 <= j < i
      ensures ChainedMeansListed(paths, j)
    {
      ChainedIsListed(paths, j);
    }
    var e := Elements(paths[i]);
    if |e| > 2 {
      ChainedDeep(paths, i, e, e[..|e| - 1]);
    } else if |e| == 2 {
      ChainedTop(paths, i, e);
    } else {
      ChainedAlone(paths, i, e);
    }
  }

  lemma {:induction false} ChainedAlone(paths: seq<string>, i: nat, e: seq<string>)
    requires Listing(paths) && i < |paths|
    requires e == Elements(paths[i]) && |e| == 1
    ensures ChainedMeansListed(paths, i)
  {
    var items := Items(paths);
    DirElements(e, e[..0]);
    assert items[i] == ItemOf(paths, paths[i]);
    assert items[i].parent == "/" != WORKSPACE;
    forall j | 0 <= j < i
      ensures |items[j].path| > 1
    {
      var d := Elements(paths[j]);
      DirElements(d, d[..|d| - 1]);
    }
  }

  lemma {:induction false} TopParent(paths: seq<string>, i: nat, e: seq<string>)
    requires Listing(paths) && i < |paths| && e == Elements(paths[i]) && |e| == 2
    ensures Items(paths)[i].parent == PathOf(e[..1])
    ensures Items(paths)[i].parent == WORKSPACE <==> e[0] == "workspace"
    ensures FileNames(e[..1]) && Elements(PathOf(e[..1])) == e[..1]
  {
    var up := e[..1];
    DirElements(e, up);
    TopPath();
    SamePath(up, TOP);
    ElementsOfPathOf(up);
    assert Items(paths)[i] == ItemOf(paths, paths[i]);
    assert up == [e[0]];
  }

  lemma {:induction false} TopListed(paths: seq<string>, i: nat, e: seq<string>)
    requires Listing(paths) && i < |paths| && e == Elements(paths[i]) && |e| == 2
    ensures ListedInOrder(paths, e) <==> e[0] == "workspace"
  {
    assert CleanPath(paths[i]) && PathOf(e) == paths[i];
  }

  lemma {:induction false} ChainedTop(paths: seq<string>, i: nat, e: seq<string>)
    requires Listing(paths) && i < |paths|
    requires e == Elements(paths[i]) && |e| == 2
    requires forall j | 0 <= j < i :: ChainedMeansListed(paths, j)
    ensures ChainedMeansListed(paths, i)
  {
    var items := Items(paths);
    TopParent(paths, i, e);
    TopListed(paths, i, e);
    hide CleanPath, PathOf, FileNames, Elements;
    if e[0] != "workspace" {
      forall j | 0 <= j < i && items[j].path == items[i].parent
        ensures !Chained(items, j)
      {
        assert ChainedMeansListed(paths, j) && |Elements(paths[j])| == 1;
      }
    }
  }

  lemma {:induction false} ChainedDeep(paths: seq<string>, i: nat, e: seq<string>, up: seq<string>)
    requires Listing(paths) && i < |paths|
    requires e == Elements(paths[i]) && |e| > 2 && up == e[..|e| - 1]
    requires forall j | 0 <= j < i :: ChainedMeansListed(paths, j)
    ensures ChainedMeansListed(paths, i)
  {
    var items, j := Items(paths), Pos(paths, PathOf(up));
    DirElements(e, up);
    TopPath();
    SamePath(up, TOP);
    ElementsOfPathOf(up);
    PosOf(paths, i);
    ListedInOrderStep(paths, e, up);
    assert items[i] == ItemOf(paths, paths[i]);
    if j < i {
      assert ChainedMeansListed(paths, j);
    }
    forall m | 0 <= m < i && paths[m] == PathOf(up)
      ensures m == j
    {
      PosOf(paths, m);
    }
  }
}
