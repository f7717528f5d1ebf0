/**
 From the list to the tree: the theorems about ParserTreeFolder on any list of distinct
 clean paths, and on a sorted list that is closed under parents.
 */
module TreeList {
  import opened GoStrings
  import opened TreeParser
  import opened TreeOrder
  import opened TreeShape

  function AllElements(paths: seq<string>): (r: seq<seq<string>>)
    ensures |r| == |paths| && forall i | 0 <= i < |paths| :: r[i] == Elements(paths[i])
  {
    seq(|paths|, i requires 0 <= i < |paths| => Elements(paths[i]))
  }

  function PlacesOf(f: Forest): (at: seq<seq<string>>)
    requires |f.slots| > 0
    ensures |at| == |f.slots| && at[0] == TOP
    ensures forall i | 0 < i < |at| :: at[i] == Elements(f.slots[i].item.path)
  {
    [TOP] + seq(|f.slots| - 1, i requires 0 <= i < |f.slots| - 1 => Elements(f.slots[i + 1].item.path))
  }

  // What item i says of its path, in terms of the elements e of the path.
  ghost predicate ItemFits(item: Item, e: seq<string>) {
    && e != [] && FileNames(e)
    && item.path == PathOf(e)
    && item.name == e[|e| - 1]
    && item.parent == (if |e| == 1 then "/" else PathOf(Up(e)))
  }

  lemma {:induction false} ItemFitsList(paths: seq<string>, i: nat)
    requires Listing(paths) && i < |paths|
    ensures ItemFits(Items(paths)[i], Elements(paths[i]))
  {
    var e := Elements(paths[i]);
    DirElements(e, Up(e));
    assert Items(paths)[i] == ItemOf(paths, paths[i]);
  }

  ghost predicate Fits(f: Forest) {
    |f.slots| > 0 && forall i | 0 < i < |f.slots| :: ItemFits(f.slots[i].item, PlacesOf(f)[i])
  }

  lemma {:induction false} GrownFits(paths: seq<string>, f: Forest, n: nat, from: seq<nat>)
    requires Listing(paths) && n <= |paths| && Grown(f, Items(paths), n, from)
    ensures Fits(f)
  {
    forall i | 0 < i < |f.slots|
      ensures ItemFits(f.slots[i].item, PlacesOf(f)[i])
    {
      ItemFitsList(paths, from[i]);
      assert Items(paths)[from[i]].path == paths[from[i]];
    }
  }

  lemma {:induction false} LongPath(e: seq<string>)
    requires e != [] && FileNames(e)
    ensures |PathOf(e)| > 1
  {
    assert FileName(e[|e| - 1]);
  }

  lemma {:induction false} PlaceOf(f: Forest, i: nat)
    requires ForestOk(f) && Fits(f) && i < |f.slots|
    ensures var e := PlacesOf(f)[i]; e != [] && FileNames(e) && f.slots[i].item.path == PathOf(e)
  {
    assert SlotOk(f, 0);
    TopPath();
  }

  // A slot's parent is the slot of its path without the last element.
  lemma {:induction false} ParentPlace(f: Forest, j: nat)
    requires ForestOk(f) && Fits(f) && 0 < j < |f.slots|
    ensures var e := PlacesOf(f)[j]; |e| > 1 && f.slots[j].item.parent == PathOf(Up(e)) && FileNames(Up(e))
    ensures Up(PlacesOf(f)[j]) in PlacesOf(f)
  {
    var at, p := PlacesOf(f), f.slots[j].item.parent;
    assert SlotOk(f, j);
    assert ItemFits(f.slots[j].item, at[j]);
    var i := f.index[p];
    PlaceOf(f, i);
    LongPath(at[i]);
    SamePath(Up(at[j]), at[i]);
  }

  lemma {:induction false} FitsIsPlacedAt(f: Forest, i: nat)
    requires ForestOk(f) && Fits(f) && i < |f.slots|
    ensures PlacedAt(f, PlacesOf(f), i)
  {
    var at := PlacesOf(f);
    PlaceOf(f, i);
    assert KidsOk(f, i);
    if i > 0 {
      ParentPlace(f, i);
      assert ItemFits(f.slots[i].item, at[i]);
    }
    forall j | 0 < j < |at|
      ensures Up(at[j]) == at[i] <==> f.slots[j].item.parent == f.slots[i].item.path
    {
      ParentPlace(f, j);
      SamePath(Up(at[j]), at[i]);
    }
  }

  lemma {:induction false} FitsIsPlaced(f: Forest)
    requires ForestOk(f) && Fits(f)
    ensures Placed(f, PlacesOf(f))
  {
    var at := PlacesOf(f);
    forall i | 0 <= i < |at|
      ensures PlacedAt(f, at, i)
    {
      FitsIsPlacedAt(f, i);
    }
    forall i, j | 0 <= i < j < |at|
      ensures at[i] != at[j]
    {
      PlaceOf(f, i);
      PlaceOf(f, j);
      assert SlotOk(f, i) && SlotOk(f, j);
    }
  }

  // ------------------------------------------------------------------ the list's own terms

  lemma {:induction false} PlacedThenListed(paths: seq<string>, f: Forest, from: seq<nat>, i: nat, e: seq<string>)
    requires Listing(paths) && Grown(f, Items(paths), |paths|, from) && Fits(f)
    requires 0 < i < |f.slots| && PlacesOf(f)[i] == e
    ensures ListedInOrder(paths, e)
  {
    var items, j := Items(paths), from[i];
    assert SlotOk(f, i) && ItemFits(f.slots[i].item, e);
    assert items[j].path == paths[j];
    ChainedIsListed(paths, j);
    assert ChainedMeansListed(paths, j);
  }

  lemma {:induction false} ListedThenPlaced(paths: seq<string>, f: Forest, from: seq<nat>, e: seq<string>)
    requires Listing(paths) && Grown(f, Items(paths), |paths|, from) && Fits(f)
    requires |e| > 1 && FileNames(e) && ListedInOrder(paths, e)
    ensures e in PlacesOf(f)
  {
    var j := Pos(paths, PathOf(e));
    ElementsOfPathOf(e);
    ChainedIsListed(paths, j);
    assert ChainedMeansListed(paths, j);
    assert Items(paths)[j].path == PathOf(e);
    var i := f.index[PathOf(e)];
    PlaceOf(f, i);
    SamePath(PlacesOf(f)[i], e);
  }

  lemma {:induction false} PlacedIsListed(paths: seq<string>, f: Forest, from: seq<nat>, e: seq<string>)
    requires Listing(paths) && Grown(f, Items(paths), |paths|, from) && Fits(f)
    requires |e| > 1 && FileNames(e)
    ensures e in PlacesOf(f) <==> ListedInOrder(paths, e)
  {
    if e in PlacesOf(f) {
      var i :| 0 <= i < |f.slots| && PlacesOf(f)[i] == e;
      PlacedThenListed(paths, f, from, i, e);
    } else if ListedInOrder(paths, e) {
      ListedThenPlaced(paths, f, from, e);
    }
  }

  lemma {:induction false} BelowIsListed(paths: seq<string>, p: string)
    requires Listing(paths) && CleanPath(p)
    ensures HasPathBelow(paths, p) <==> exists q | q in AllElements(paths) :: IsBelow(Elements(p), q)
  {
    var listed := AllElements(paths);
    forall j | 0 <= j < |paths|
      ensures HasPrefix(paths[j], p + "/") <==> IsBelow(Elements(p), listed[j])
    {
      PrefixIsBelow(p, paths[j]);
    }
    if HasPathBelow(paths, p) {
      var q :| q in paths && HasPrefix(q, p + "/");
      var j :| 0 <= j < |paths| && paths[j] == q;
      assert listed[j] in listed && IsBelow(Elements(p), listed[j]);
    }
    if exists q | q in listed :: IsBelow(Elements(p), q) {
      var q :| q in listed && IsBelow(Elements(p), q);
      var j :| 0 <= j < |listed| && listed[j] == q;
      assert paths[j] in paths;
    }
  }

  lemma {:induction false} KindsOfList(paths: seq<string>, f: Forest, from: seq<nat>)
    requires Listing(paths) && Grown(f, Items(paths), |paths|, from) && Fits(f)
    ensures Kinds(f, PlacesOf(f), AllElements(paths))
  {
    var items, at, listed := Items(paths), PlacesOf(f), AllElements(paths);
    forall i | 0 < i < |at|
      ensures KindAt(f, at, listed, i)
    {
      var j := from[i];
      BelowIsListed(paths, paths[j]);
      assert items[j] == ItemOf(paths, paths[j]);
      assert at[i] == listed[j];
    }
  }

  /** Any list of distinct clean paths, in any order: a node stands exactly at the positions
      of the paths listed after their ancestors, siblings differ, and every node with
      children has type "dir". */
  lemma {:induction false} TreeOfAnyList(paths: seq<string>)
    requires Listing(paths)
    ensures var t := TreeOf(paths);
            && t.name == "." && t.isDir
            && (forall rel | rel != [] && FileNames(rel) :: Has(t, rel) <==> ListedInOrder(paths, TOP + rel))
            && DistinctSiblings(t) && ParentsAreDirs(t)
  {
    var t, items, f := TreeOf(paths), Items(paths), Grow(Items(paths), |paths|);
    ListingIsGood(paths);
    var from := GrowIsGrown(items, |paths|);
    GrownFits(paths, f, |paths|, from);
    FitsIsPlaced(f);
    var at := PlacesOf(f);
    TopPath();
    assert SlotOk(f, 0);
    forall rel | rel != [] && FileNames(rel)
      ensures Has(t, rel) <==> ListedInOrder(paths, TOP + rel)
    {
      HasIsSlot(f, at, 0, rel);
      PlacedIsListed(paths, f, from, TOP + rel);
    }
    SiblingsDiffer(f, at, 0);
    KindsOfList(paths, f, from);
    ParentsAreDirectories(f, at, AllElements(paths), 0);
  }

  // ------------------------------------------------------------------ sorted, parent-closed lists

  // In bytewise order, as `sort` leaves it.
  ghost predicate Sorted(paths: seq<string>) {
    forall i, j | 0 <= i < j < |paths| :: LexLess(paths[i], paths[j])
  }

  // Every path is below /workspace and its directory is listed too, as in the output of `find`.
  ghost predicate ParentClosed(paths: seq<string>) {
    forall i | 0 <= i < |paths| ::
      var e := Elements(paths[i]);
      |e| > 1 && e[0] == "workspace" && (|e| > 2 ==> PathOf(Up(e)) in paths)
  }

  /** Sorting puts every parent before its children. */
  lemma {:induction false} ParentsFirst(paths: seq<string>, e: seq<string>)
    requires Listing(paths) && Sorted(paths)
    requires e != [] && FileNames(e) && PathOf(e) in paths && Up(e) != [] && PathOf(Up(e)) in paths
    ensures Pos(paths, PathOf(Up(e))) < Pos(paths, PathOf(e))
  {
    var i, j := Pos(paths, PathOf(Up(e))), Pos(paths, PathOf(e));
    assert PathOf(e) == PathOf(Up(e)) + "/" + e[|e| - 1];
    LexPrefix(PathOf(Up(e)), PathOf(e));
    LexAsymmetric(PathOf(Up(e)), PathOf(e));
    LexIrreflexive(PathOf(e));
  }

  lemma {:induction false} AllListedInOrder(paths: seq<string>, e: seq<string>)
    requires Listing(paths) && Sorted(paths) && ParentClosed(paths)
    requires e != [] && FileNames(e) && PathOf(e) in paths
    ensures ListedInOrder(paths, e)
    decreases |e|
  {
    var i := Pos(paths, PathOf(e));
    ElementsOfPathOf(e);
    assert Elements(paths[i]) == e;
    if |e| > 2 {
      assert forall x | x in Up(e) :: x in e;
      AllListedInOrder(paths, Up(e));
      ParentsFirst(paths, e);
      ListedInOrderStep(paths, e, Up(e));
    }
  }

  lemma {:induction false} SortedSlots(paths: seq<string>, f: Forest, from: seq<nat>)
    requires Listing(paths) && Sorted(paths)
    requires Grown(f, Items(paths), |paths|, from) && Fits(f)
    ensures SlotsSorted(PlacesOf(f))
  {
    var at := PlacesOf(f);
    forall i, j | 0 < i < j < |at|
      ensures LexLess(PathOf(at[i]), PathOf(at[j]))
    {
      assert ItemFits(f.slots[i].item, at[i]) && ItemFits(f.slots[j].item, at[j]);
      assert Items(paths)[from[i]].path == paths[from[i]];
      assert Items(paths)[from[j]].path == paths[from[j]];
    }
  }

  /** A sorted, parent-closed list: no path is dropped, siblings come in name order, and the
      directories are exactly the nodes with children. */
  lemma {:induction false} TreeOfSortedList(paths: seq<string>)
    requires Listing(paths) && Sorted(paths) && ParentClosed(paths)
    ensures var t := TreeOf(paths);
            && (forall rel | rel != [] && FileNames(rel) :: Has(t, rel) <==> PathOf(TOP + rel) in paths)
            && Ordered(t) && DirsAreParents(t)
  {
    var t, items, f := TreeOf(paths), Items(paths), Grow(Items(paths), |paths|);
    TreeOfAnyList(paths);
    ListingIsGood(paths);
    var from := GrowIsGrown(items, |paths|);
    GrownFits(paths, f, |paths|, from);
    FitsIsPlaced(f);
    var at, listed := PlacesOf(f), AllElements(paths);
    TopPath();
    forall rel | rel != [] && FileNames(rel)
      ensures Has(t, rel) <==> PathOf(TOP + rel) in paths
    {
      if PathOf(TOP + rel) in paths {
        AllListedInOrder(paths, TOP + rel);
      }
    }
    SortedSlots(paths, f, from);
    SiblingsOrdered(f, at, 0);
    KindsOfList(paths, f, from);
    forall q | q in listed
      ensures q in at
    {
      var j :| 0 <= j < |paths| && listed[j] == q;
      AllListedInOrder(paths, q);
      PlacedIsListed(paths, f, from, q);
    }
    DirectoriesAreParents(f, at, listed, 0);
  }

  // ------------------------------------------------------------------ a list in a bad order

  /** That all ancestors are listed somewhere before a path is not enough: when
      /workspace/a/b comes before /workspace/a it is dropped, and takes /workspace/a/b/c,
      which comes after both, with it. */
  lemma {:induction false} AncestorsListedIsNotEnough(e: seq<string>, paths: seq<string>)
    requires |e| == 4 && FileNames(e) && e[0] == "workspace"
    requires |paths| == 3
    requires paths[0] == PathOf(e[..3]) && paths[1] == PathOf(e[..2]) && paths[2] == PathOf(e)
    ensures Listing(paths)
    ensures forall k | 2 <= k < |e| :: Pos(paths, PathOf(e[..k])) < Pos(paths, PathOf(e))
    ensures !Has(TreeOf(paths), e[1..])
  {
    BadOrderIsListing(e, paths);
    BadOrderIsNotInOrder(e, paths);
    NotInOrderHasNoNode(paths, e);
  }

  lemma {:induction false} NotInOrderHasNoNode(paths: seq<string>, e: seq<string>)
    requires Listing(paths) && FileNames(e) && |e| > 1 && e[0] == "workspace" && !ListedInOrder(paths, e)
    ensures !Has(TreeOf(paths), e[1..])
  {
    TreeOfAnyList(paths);
    assert TOP + e[1..] == e;
  }

  lemma {:induction false} BadOrderIsNotInOrder(e: seq<string>, paths: seq<string>)
    requires |e| == 4 && |paths| == 3 && Listing(paths)
    requires paths[0] == PathOf(e[..3]) && paths[1] == PathOf(e[..2]) && paths[2] == PathOf(e)
    ensures forall k | 2 <= k < |e| :: Pos(paths, PathOf(e[..k])) < Pos(paths, PathOf(e))
    ensures !ListedInOrder(paths, e)
  {
    PosOf(paths, 0);
    PosOf(paths, 1);
    PosOf(paths, 2);
    forall k | 2 <= k < |e|
      ensures Pos(paths, PathOf(e[..k])) == 3 - k
    {
    }
    assert Pos(paths, PathOf(e[..2])) >= Pos(paths, PathOf(e[..2 + 1]));
  }

  lemma {:induction false} BadOrderIsListing(e: seq<string>, paths: seq<string>)
    requires |e| == 4 && FileNames(e) && e[0] == "workspace"
    requires |paths| == 3
    requires paths[0] == PathOf(e[..3]) && paths[1] == PathOf(e[..2]) && paths[2] == PathOf(e)
    ensures Listing(paths)
  {
    TopPath();
    forall n | 2 <= n <= 4
      ensures CleanPath(PathOf(e[..n])) && PathOf(e[..n]) != WORKSPACE
    {
      ElementsOfPathOf(e[..n]);
      SamePath(e[..n], TOP);
    }
    assert e[..4] == e;
    SamePath(e[..2], e[..3]);
    SamePath(e[..2], e);
    SamePath(e[..3], e);
  }
}
