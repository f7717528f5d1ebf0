/**
 ParserTreeFolder (utils/parser.go): the lines of `find /workspace | sort` become a tree
 of heap nodes. The method is proved to build the tree Parse describes, on every input;
 TreeOrder.dfy and TreeRoundTrip.dfy prove what that tree is.
 */
module TreeParser {
  import opened GoStrings

  const WORKSPACE := "/workspace"

  // A tree as a value: what a reader of the node graph sees.
  datatype Tree = Tree(name: string, isDir: bool, children: seq<Tree>)

  // ------------------------------------------------------------------ the lines

  function PathLines(lines: seq<string>): seq<string> {
    if lines == [] then []
    else
      var line := TrimSpace(lines[|lines| - 1]);
      var before := PathLines(lines[..|lines| - 1]);
      if line == "" || line == WORKSPACE then before else before + [line]
  }

  function Paths(input: string): seq<string> {
    PathLines(Split(TrimSpace(input), '\n'))
  }

  // A path is a directory when some listed path goes on from it.
  predicate HasPathBelow(paths: seq<string>, p: string) {
    exists q | q in paths :: HasPrefix(q, p + "/")
  }

  // What the second pass computes of a path before it looks for the parent's node.
  datatype Item = Item(path: string, parent: string, name: string, isDir: bool)

  function ItemOf(paths: seq<string>, p: string): Item {
    Item(p, Dir(p), Base(p), HasPathBelow(paths, p))
  }

  function Items(paths: seq<string>): (items: seq<Item>)
    ensures |items| == |paths|
    ensures forall i | 0 <= i < |paths| :: items[i].path == paths[i]
  {
    seq(|paths|, i requires 0 <= i < |paths| => ItemOf(paths, paths[i]))
  }

  // ------------------------------------------------------------------ the node table

  datatype Slot = Slot(item: Item, kids: seq<nat>)

  // The nodes made so far, in order, and the table from a path to its node.
  datatype Forest = Forest(index: map<string, nat>, slots: seq<Slot>) {
    predicate Valid() {
      && |slots| > 0
      && (forall p | p in index :: index[p] < |slots|)
      && (forall i | 0 <= i < |slots| :: KidsAfter(i))
    }

    predicate KidsAfter(i: nat)
      requires i < |slots|
    {
      forall k | 0 <= k < |slots[i].kids| :: i < slots[i].kids[k] < |slots|
    }

    function Add(item: Item): (f: Forest)
      requires Valid()
      ensures f.Valid()
    {
      if item.parent !in index then this
      else
        var at, n := index[item.parent], |slots|;
        var grown := slots[at := slots[at].(kids := slots[at].kids + [n])] + [Slot(item, [])];
        var f := Forest(index[item.path := n], grown);
        assert forall i | 0 <= i < |grown| :: f.KidsAfter(i) by {
          forall i | 0 <= i < |grown|
            ensures f.KidsAfter(i)
          {
            assert i < n ==> KidsAfter(i);
          }
        }
        f
    }

    function ToTree(i: nat): Tree
      requires Valid() && i < |slots|
      decreases |slots| - i
    {
      var s := slots[i];
      assert KidsAfter(i);
      Tree(s.item.name, s.item.isDir, seq(|s.kids|, k requires 0 <= k < |s.kids| => ToTree(s.kids[k])))
    }
  }

  const ROOT := Forest(map[WORKSPACE := 0], [Slot(Item(WORKSPACE, "/", ".", true), [])])

  function Grow(items: seq<Item>, n: nat): (f: Forest)
    requires n <= |items|
    ensures f.Valid()
  {
    if n == 0 then ROOT else Grow(items, n - 1).Add(items[n - 1])
  }

  function TreeOf(paths: seq<string>): Tree {
    Grow(Items(paths), |paths|).ToTree(0)
  }

  function Parse(input: string): Tree {
    TreeOf(Paths(input))
  }

  // ------------------------------------------------------------------ the heap

  class Node {
    var Name: string
    var Type: string
    var Children: seq<Node>

    constructor (name: string, kind: string)
      ensures Name == name && Type == kind && Children == []
    {
      Name := name;
      Type := kind;
      Children := [];
    }
  }

  function Kind(isDir: bool): string {
    if isDir then "dir" else "file"
  }

  // The graph hanging from n, all of it inside repr, is the tree t.
  ghost predicate Represents(n: Node, t: Tree, repr: set<Node>)
    reads repr
    decreases t
  {
    && n in repr
    && n.Name == t.name
    && n.Type == Kind(t.isDir)
    && |n.Children| == |t.children|
    && forall k | 0 <= k < |t.children| :: Represents(n.Children[k], t.children[k], repr)
  }

  // The fields of a node.
  datatype View = View(name: string, kind: string, children: seq<Node>)

  ghost function ViewOf(n: Node): View
    reads n
  {
    View(n.Name, n.Type, n.Children)
  }

  ghost predicate Shows(made: seq<Node>, views: seq<View>)
    reads made
  {
    |made| == |views| && forall i | 0 <= i < |made| :: ViewOf(made[i]) == views[i]
  }

  // Node i of the heap, with the fields v, is slot i of the forest.
  ghost predicate SlotMatches(made: seq<Node>, v: View, f: Forest, i: nat)
    requires f.Valid() && |made| == |f.slots| && i < |made|
  {
    && v.name == f.slots[i].item.name
    && v.kind == Kind(f.slots[i].item.isDir)
    && |v.children| == |f.slots[i].kids|
    && f.KidsAfter(i)
    && forall k | 0 <= k < |f.slots[i].kids| :: v.children[k] == made[f.slots[i].kids[k]]
  }

  ghost predicate Matches(made: seq<Node>, views: seq<View>, nodes: map<string, Node>, f: Forest)
    requires f.Valid()
  {
    && |made| == |views| == |f.slots|
    && (forall i, j | 0 <= i < j < |made| :: made[i] != made[j])
    && nodes.Keys == f.index.Keys
    && (forall p | p in f.index :: nodes[p] == made[f.index[p]])
    && (forall i | 0 <= i < |made| :: SlotMatches(made, views[i], f, i))
  }

  lemma {:induction false} HeapIsTree(made: seq<Node>, views: seq<View>, nodes: map<string, Node>,
                                      f: Forest, i: nat)
    requires f.Valid() && Matches(made, views, nodes, f) && Shows(made, views) && i < |made|
    ensures Represents(made[i], f.ToTree(i), set n | n in made)
    decreases |made| - i
  {
    var kids := f.slots[i].kids;
    assert SlotMatches(made, views[i], f, i);
    assert ViewOf(made[i]) == views[i];
    forall k | 0 <= k < |kids|
      ensures Represents(made[i].Children[k], f.ToTree(i).children[k], set n | n in made)
    {
      HeapIsTree(made, views, nodes, f, kids[k]);
    }
  }

  // What hanging a new node from slot `at` does to the views.
  ghost function Hang(views: seq<View>, at: nat, node: Node, v: View): seq<View>
    requires at < |views|
  {
    views[at := views[at].(children := views[at].children + [node])] + [v]
  }

  lemma {:induction false} HangMatches(made: seq<Node>, views: seq<View>, nodes: map<string, Node>, f: Forest,
                    item: Item, node: Node)
    requires f.Valid() && Matches(made, views, nodes, f)
    requires item.parent in f.index && node !in made
    ensures Matches(made + [node], Hang(views, f.index[item.parent], node, View(item.name, Kind(item.isDir), [])),
                    nodes[item.path := node], f.Add(item))
  {
    var at, g := f.index[item.parent], f.Add(item);
    var views' := Hang(views, at, node, View(item.name, Kind(item.isDir), []));
    forall i | 0 <= i <= |made|
      ensures SlotMatches(made + [node], views'[i], g, i)
    {
      assert g.KidsAfter(i);
      if i < |made| {
        assert SlotMatches(made, views[i], f, i);
      }
    }
  }

  // ------------------------------------------------------------------ no sharing

  // Following these places among the children leads from the root to n.
  ghost predicate Leads(root: Node, place: seq<nat>, n: Node, repr: set<Node>)
    reads repr
    decreases |place|
  {
    n in repr &&
    if place == [] then n == root
    else
      var last := |place| - 1;
      exists m | m in repr :: Leads(root, place[..last], m, repr) && place[last] < |m.Children| && m.Children[place[last]] == n
  }

  // No node stands at two places: the graph is a tree.
  ghost predicate NoSharing(root: Node, repr: set<Node>)
    reads repr
  {
    forall n, p: seq<nat>, q: seq<nat> | n in repr && Leads(root, p, n, repr) && Leads(root, q, n, repr) :: p == q
  }

  // The same for the slots of a forest.
  ghost predicate SlotLeads(f: Forest, place: seq<nat>, j: nat)
    decreases |place|
  {
    j < |f.slots| &&
    if place == [] then j == 0
    else
      var last := |place| - 1;
      exists i | 0 <= i < |f.slots| :: SlotLeads(f, place[..last], i) && IsKid(f, i, place[last], j)
  }

  ghost predicate IsKid(f: Forest, i: nat, k: nat, j: nat) {
    i < |f.slots| && k < |f.slots[i].kids| && f.slots[i].kids[k] == j
  }

  // Every slot is hung at one place at most.
  ghost predicate HungOnce(f: Forest) {
    forall i: nat, k: nat, i': nat, k': nat, j: nat | IsKid(f, i, k, j) && IsKid(f, i', k', j) :: i == i' && k == k'
  }

  lemma {:induction false} AddHangsOnce(f: Forest, item: Item)
    requires f.Valid() && HungOnce(f)
    ensures HungOnce(f.Add(item))
  {
    var g := f.Add(item);
    if item.parent in f.index {
      var at, n := f.index[item.parent], |f.slots|;
      forall i: nat, k: nat, j: nat | IsKid(g, i, k, j)
        ensures if j == n then i == at && k == |f.slots[at].kids| else IsKid(f, i, k, j)
      {
        assert i < n ==> f.KidsAfter(i);
      }
    }
  }

  lemma {:induction false} GrowHangsOnce(items: seq<Item>, n: nat)
    requires n <= |items|
    ensures HungOnce(Grow(items, n))
  {
    if n > 0 {
      GrowHangsOnce(items, n - 1);
      AddHangsOnce(Grow(items, n - 1), items[n - 1]);
    }
  }

  lemma {:induction false} OnePlace(f: Forest, p: seq<nat>, q: seq<nat>, j: nat)
    requires f.Valid() && HungOnce(f) && SlotLeads(f, p, j) && SlotLeads(f, q, j)
    ensures p == q
    decreases |p|
  {
    if p == [] {
      NotTheRoot(f, q, j);
    } else if q == [] {
      NotTheRoot(f, p, j);
    } else {
      var m, n := |p| - 1, |q| - 1;
      var i :| 0 <= i < |f.slots| && SlotLeads(f, p[..m], i) && IsKid(f, i, p[m], j);
      var i' :| 0 <= i' < |f.slots| && SlotLeads(f, q[..n], i') && IsKid(f, i', q[n], j);
      assert i == i' && p[m] == q[n];
      OnePlace(f, p[..m], q[..n], i);
      assert p == p[..m] + [p[m]] && q == q[..n] + [q[n]];
    }
  }

  lemma {:induction false} NotTheRoot(f: Forest, p: seq<nat>, j: nat)
    requires f.Valid() && SlotLeads(f, p, j)
    ensures j == 0 <==> p == []
  {
    if p != [] {
      var i :| 0 <= i < |f.slots| && SlotLeads(f, p[..|p| - 1], i) && IsKid(f, i, p[|p| - 1], j);
      assert f.KidsAfter(i);
    }
  }

  lemma {:induction false} LeadsToSlot(made: seq<Node>, views: seq<View>, nodes: map<string, Node>, f: Forest,
                                       place: seq<nat>, j: nat)
    requires f.Valid() && Matches(made, views, nodes, f) && Shows(made, views) && j < |made|
    requires Leads(made[0], place, made[j], set n | n in made)
    ensures SlotLeads(f, place, j)
    decreases |place|
  {
    if place == [] {
    } else {
      var last := |place| - 1;
      var m :| m in made && Leads(made[0], place[..last], m, set n | n in made)
               && place[last] < |m.Children| && m.Children[place[last]] == made[j];
      var i :| 0 <= i < |made| && made[i] == m;
      LeadsToSlot(made, views, nodes, f, place[..last], i);
      assert SlotMatches(made, views[i], f, i) && ViewOf(made[i]) == views[i] && f.KidsAfter(i);
      assert IsKid(f, i, place[last], j);
    }
  }

  lemma {:induction false} BuiltIsUnshared(root: Node, made: seq<Node>, views: seq<View>, nodes: map<string, Node>,
                                           items: seq<Item>, repr: set<Node>)
    requires Built(root, made, views, nodes, items, |items|, repr)
    ensures NoSharing(root, repr)
  {
    var f := Grow(items, |items|);
    GrowHangsOnce(items, |items|);
    forall n, p: seq<nat>, q: seq<nat> | n in repr && Leads(root, p, n, repr) && Leads(root, q, n, repr)
      ensures p == q
    {
      var j :| 0 <= j < |made| && made[j] == n;
      LeadsToSlot(made, views, nodes, f, p, j);
      LeadsToSlot(made, views, nodes, f, q, j);
      OnePlace(f, p, q, j);
    }
  }

  // ------------------------------------------------------------------ the parser

  method ParserTreeFolder(input: string) returns (root: Node, ghost repr: set<Node>)
    ensures fresh(repr)
    ensures Represents(root, Parse(input), repr) && NoSharing(root, repr)
  {
    var paths := ReadPaths(input);
    var dirSet := IdentifyDirectories(paths);
    root, repr := BuildTree(paths, dirSet, Items(paths));
  }

  lemma {:induction false} RootMatches(root: Node)
    ensures Matches([root], [View(".", "dir", [])], map[WORKSPACE := root], ROOT)
  {
    assert SlotMatches([root], View(".", "dir", []), ROOT, 0);
  }

  ghost predicate IsDirSet(dirSet: set<string>, paths: seq<string>) {
    forall p :: p in dirSet <==> p in paths && HasPathBelow(paths, p)
  }

  // The heap after n rounds of the second pass: the nodes made, their fields, and the path map.
  ghost predicate Built(root: Node, made: seq<Node>, views: seq<View>, nodes: map<string, Node>,
                        items: seq<Item>, n: nat, repr: set<Node>)
    requires n <= |items|
    reads made
  {
    && repr == (set n | n in made) && |made| > 0 && made[0] == root
    && Matches(made, views, nodes, Grow(items, n)) && Shows(made, views)
  }

  // The second pass.
  method BuildTree(paths: seq<string>, dirSet: set<string>, ghost items: seq<Item>)
    returns (root: Node, ghost repr: set<Node>)
    requires IsDirSet(dirSet, paths) && items == Items(paths)
    ensures fresh(repr)
    ensures Represents(root, Grow(items, |items|).ToTree(0), repr) && NoSharing(root, repr)
  {
    ghost var made, views;
    var nodes: map<string, Node>;
    root, nodes, made, views, repr := AllRounds(paths, dirSet);
    BuiltIsTree(root, made, views, nodes, items, repr);
    BuiltIsUnshared(root, made, views, nodes, items, repr);
  }

  method AllRounds(paths: seq<string>, dirSet: set<string>)
    returns (root: Node, nodes: map<string, Node>, ghost made: seq<Node>, ghost views: seq<View>, ghost repr: set<Node>)
    requires IsDirSet(dirSet, paths)
    ensures fresh(repr) && Built(root, made, views, nodes, Items(paths), |paths|, repr)
  {
    hide Built;
    root := new Node(".", "dir");
    nodes := map[WORKSPACE := root];
    made, views, repr := [root], [View(".", "dir", [])], {root};
    RootIsBuilt(root, Items(paths));
    for i := 0 to |paths|
      invariant fresh(repr)
      invariant Built(root, made, views, nodes, Items(paths), i, repr)
    {
      nodes, made, views, repr := Round(paths, dirSet, i, nodes, root, made, views, repr);
    }
  }

  method Round(paths: seq<string>, dirSet: set<string>, i: nat, nodes: map<string, Node>, ghost root: Node,
               ghost made: seq<Node>, ghost views: seq<View>, ghost repr: set<Node>)
    returns (nodes': map<string, Node>, ghost made': seq<Node>, ghost views': seq<View>, ghost repr': set<Node>)
    requires i < |paths| && IsDirSet(dirSet, paths)
    requires Built(root, made, views, nodes, Items(paths), i, repr)
    modifies repr
    ensures Built(root, made', views', nodes', Items(paths), i + 1, repr')
    ensures fresh(repr' - repr)
  {
    var item := ReadItem(paths, dirSet, i);
    nodes', made', views', repr' := Place(item, nodes, root, made, views, Items(paths), i, repr);
  }

  lemma {:induction false} RootIsBuilt(root: Node, items: seq<Item>)
    requires ViewOf(root) == View(".", "dir", [])
    ensures Built(root, [root], [View(".", "dir", [])], map[WORKSPACE := root], items, 0, {root})
  {
    RootMatches(root);
  }

  lemma {:induction false} BuiltIsTree(root: Node, made: seq<Node>, views: seq<View>, nodes: map<string, Node>,
                                       items: seq<Item>, repr: set<Node>)
    requires Built(root, made, views, nodes, items, |items|, repr)
    ensures Represents(root, Grow(items, |items|).ToTree(0), repr)
  {
    HeapIsTree(made, views, nodes, Grow(items, |items|), 0);
  }

  method ReadItem(paths: seq<string>, dirSet: set<string>, i: nat) returns (item: Item)
    requires i < |paths|
    requires IsDirSet(dirSet, paths)
    ensures item == Items(paths)[i]
  {
    var p := paths[i];
    var name := Base(p);
    var isDir := p in dirSet;
    var parent := Dir(p);
    item := Item(p, parent, name, isDir);
  }

  method ReadPaths(input: string) returns (paths: seq<string>)
    ensures paths == Paths(input)
  {
    var lines := Split(TrimSpace(input), '\n');
    paths := [];
    for i := 0 to |lines|
      invariant paths == PathLines(lines[..i])
    {
      assert lines[..i + 1][..i] == lines[..i];
      var line := TrimSpace(lines[i]);
      if line == "" || line == WORKSPACE {
        continue;
      }
      paths := paths + [line];
    }
    assert lines[..|lines|] == lines;
  }

  // The first pass: every path against every path.
  method IdentifyDirectories(paths: seq<string>) returns (dirSet: set<string>)
    ensures IsDirSet(dirSet, paths)
  {
    dirSet := {};
    for i := 0 to |paths|
      invariant forall p :: p in dirSet <==> p in paths[..i] && HasPathBelow(paths, p)
    {
      var p1 := paths[i];
      var prefix := p1 + "/";
      ghost var seen := dirSet;
      for j := 0 to |paths|
        invariant dirSet == seen
        invariant forall k | 0 <= k < j :: !HasPrefix(paths[k], prefix)
      {
        if HasPrefix(paths[j], prefix) {
          dirSet := dirSet + {p1};
          break;
        }
      }
    }
  }

  // One round of the second pass: make the node and hang it from its parent's node, or drop it.
  method Place(item: Item, nodes: map<string, Node>, ghost root: Node,
               ghost made: seq<Node>, ghost views: seq<View>, ghost items: seq<Item>, ghost i: nat, ghost repr: set<Node>)
    returns (nodes': map<string, Node>, ghost made': seq<Node>, ghost views': seq<View>, ghost repr': set<Node>)
    requires i < |items| && item == items[i]
    requires Built(root, made, views, nodes, items, i, repr)
    modifies repr
    ensures Built(root, made', views', nodes', items, i + 1, repr')
    ensures fresh(repr' - repr)
  {
    ghost var f := Grow(items, i);
    assert Grow(items, i + 1) == f.Add(item);
    var node := MakeNode(item.name, item.isDir);
    if item.parent !in nodes {
      return nodes, made, views, repr;
    }
    ghost var at := f.index[item.parent];
    AddChild(nodes[item.parent], node, made, views, at);
    nodes' := nodes[item.path := node];
    made' := made + [node];
    views' := Hang(views, at, node, View(item.name, Kind(item.isDir), []));
    repr' := repr + {node};
    HangMatches(made, views, nodes, f, item, node);
  }

  method MakeNode(name: string, isDir: bool) returns (node: Node)
    ensures fresh(node) && ViewOf(node) == View(name, Kind(isDir), [])
  {
    node := new Node(name, "file");
    if isDir {
      node.Type := "dir";
      node.Children := [];
    }
  }

  method AddChild(parent: Node, node: Node, ghost made: seq<Node>, ghost views: seq<View>, ghost at: nat)
    requires Shows(made, views) && at < |made| && made[at] == parent && node !in made
    requires forall i, j | 0 <= i < j < |made| :: made[i] != made[j]
    modifies parent
    ensures Shows(made + [node], Hang(views, at, node, old(ViewOf(node))))
  {
    parent.Children := parent.Children + [node];
  }
}
