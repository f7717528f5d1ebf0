/**
 Printing a workspace with `find /workspace | sort` and parsing the text gives the
 workspace back, with siblings in name order.
 */
module TreeRoundTrip {
  import opened Common
  import opened GoStrings
  import opened TreeParser
  import opened TreeOrder
  import opened TreeShape
  import opened TreeList

  // ------------------------------------------------------------------ a tree is its positions

  ghost predicate SamePositions(t: Tree, u: Tree) {
    forall rel | rel != [] && FileNames(rel) :: Has(t, rel) <==> Has(u, rel)
  }

  // A tree in normal form: siblings in name order, directories the nodes with children.
  ghost predicate Normal(t: Tree) {
    DistinctSiblings(t) && Ordered(t) && ParentsAreDirs(t) && DirsAreParents(t)
  }

  lemma {:induction false} ChildIsNormal(t: Tree, k: nat)
    requires Normal(t) && k < |t.children|
    ensures Normal(t.children[k]) && FileName(t.children[k].name)
    ensures t.children[k].isDir <==> t.children[k].children != []
  {
  }

  lemma {:induction false} HasChild(t: Tree, k: nat, rel: seq<string>)
    requires DistinctSiblings(t) && k < |t.children| && rel != []
    ensures Has(t, [t.children[k].name] + rel) <==> Has(t.children[k], rel)
  {
    var whole := [t.children[k].name] + rel;
    assert whole[1..] == rel;
    if Has(t, whole) {
      var m :| 0 <= m < |t.children| && t.children[m].name == whole[0] && Has(t.children[m], whole[1..]);
      assert m == k;
    }
  }

  lemma {:induction false} HasName(t: Tree, x: string)
    ensures Has(t, [x]) <==> exists k | 0 <= k < |t.children| :: t.children[k].name == x
  {
  }

  lemma {:induction false} FirstNames(t: Tree, u: Tree, k: nat)
    requires Normal(t) && Normal(u) && SamePositions(t, u)
    requires k <= |t.children| && k <= |u.children|
    requires forall m | 0 <= m < k :: t.children[m].name == u.children[m].name
    ensures k < |t.children| ==> k < |u.children| && !LexLess(t.children[k].name, u.children[k].name)
  {
    if k < |t.children| {
      var x := t.children[k].name;
      HasName(t, x);
      HasName(u, x);
      assert FileNames([x]);
      var j :| 0 <= j < |u.children| && u.children[j].name == x;
      assert forall m | 0 <= m < k :: t.children[m].name != x;
      LexIrreflexive(x);
      if j > k {
        LexAsymmetric(u.children[k].name, x);
      }
    }
  }

  lemma {:induction false} SameNames(t: Tree, u: Tree, k: nat)
    requires Normal(t) && Normal(u) && SamePositions(t, u)
    requires k <= |t.children|
    ensures k <= |u.children| && forall m | 0 <= m < k :: t.children[m].name == u.children[m].name
  {
    if k > 0 {
      SameNames(t, u, k - 1);
      FirstNames(t, u, k - 1);
      FirstNames(u, t, k - 1);
      LexTotal(t.children[k - 1].name, u.children[k - 1].name);
    }
  }

  /** Two trees in normal form with the same positions have the same children. */
  lemma {:induction false} PositionsDetermineTree(t: Tree, u: Tree)
    requires Normal(t) && Normal(u) && SamePositions(t, u)
    ensures t.children == u.children
    decreases t
  {
    SameNames(t, u, |t.children|);
    SameNames(u, t, |u.children|);
    forall k | 0 <= k < |t.children|
      ensures t.children[k] == u.children[k]
    {
      var a, b := t.children[k], u.children[k];
      ChildIsNormal(t, k);
      ChildIsNormal(u, k);
      forall rel | rel != [] && FileNames(rel)
        ensures Has(a, rel) <==> Has(b, rel)
      {
        HasChild(t, k, rel);
        HasChild(u, k, rel);
        assert FileNames([a.name] + rel);
      }
      PositionsDetermineTree(a, b);
    }
  }

  // ------------------------------------------------------------------ what `find` prints

  // The elements of the paths of these trees and of all below them, in the order of a walk.
  function Walk(ts: seq<Tree>, at: seq<string>): seq<seq<string>>
    decreases ts
  {
    if ts == [] then []
    else
      var here := at + [ts[0].name];
      [here] + Walk(ts[0].children, here) + Walk(ts[1..], at)
  }

  function PathsOf(es: seq<seq<string>>): (r: seq<string>)
    ensures |r| == |es| && forall i | 0 <= i < |es| :: r[i] == PathOf(es[i])
  {
    seq(|es|, i requires 0 <= i < |es| => PathOf(es[i]))
  }

  // The lines of `find /workspace` on the workspace t.
  function FindLines(t: Tree): seq<string> {
    PathsOf([TOP] + Walk(t.children, TOP))
  }

  ghost predicate HasIn(ts: seq<Tree>, rel: seq<string>) {
    Has(Tree("", true, ts), rel)
  }

  lemma {:induction false} HasInCons(ts: seq<Tree>, rel: seq<string>)
    requires ts != [] && rel != []
    ensures HasIn(ts, rel) <==>
            (ts[0].name == rel[0] && (|rel| == 1 || Has(ts[0], rel[1..]))) || HasIn(ts[1..], rel)
  {
    var t, u := Tree("", true, ts), Tree("", true, ts[1..]);
    if HasIn(ts, rel) {
      var k :| 0 <= k < |ts| && ts[k].name == rel[0] && (|rel| == 1 || Has(ts[k], rel[1..]));
      if k > 0 {
        assert u.children[k - 1] == ts[k];
      }
    }
    if HasIn(ts[1..], rel) {
      var k :| 0 <= k < |ts| - 1 && u.children[k].name == rel[0] && (|rel| == 1 || Has(u.children[k], rel[1..]));
      assert t.children[k + 1] == u.children[k];
    }
  }

  lemma {:induction false} WalkIsBelow(ts: seq<Tree>, at: seq<string>, e: seq<string>)
    requires e in Walk(ts, at)
    ensures IsBelow(at, e) && exists k | 0 <= k < |ts| :: ts[k].name == e[|at|]
    decreases ts
  {
    var here := at + [ts[0].name];
    if e == here {
      assert ts[0].name == e[|at|];
    } else if e in Walk(ts[0].children, here) {
      WalkIsBelow(ts[0].children, here, e);
      assert e[..|here|] == here;
      assert ts[0].name == here[|at|] == e[|at|];
    } else {
      WalkIsBelow(ts[1..], at, e);
      var k :| 0 <= k < |ts| - 1 && ts[1..][k].name == e[|at|];
      assert ts[k + 1].name == e[|at|];
    }
  }

  lemma {:induction false} WalkHas(ts: seq<Tree>, at: seq<string>, rel: seq<string>)
    requires rel != []
    ensures at + rel in Walk(ts, at) <==> HasIn(ts, rel)
    decreases ts
  {
    if ts != [] {
      var here, e := at + [ts[0].name], at + rel;
      HasInCons(ts, rel);
      WalkHas(ts[1..], at, rel);
      assert e[|at|] == rel[0];
      if e in Walk(ts[0].children, here) {
        WalkIsBelow(ts[0].children, here, e);
        assert e[..|here|][|at|] == here[|at|];
      }
      if ts[0].name == rel[0] && |rel| > 1 {
        assert e == here + rel[1..];
        WalkHas(ts[0].children, here, rel[1..]);
        assert Has(Tree("", true, ts[0].children), rel[1..]) == Has(ts[0], rel[1..]);
      }
      assert |rel| == 1 && ts[0].name == rel[0] <==> e == here;
    }
  }

  lemma {:induction false} Disjoint<T>(a: seq<T>, b: seq<T>)
    requires NoRepeats(a) && NoRepeats(b)
    requires forall i, j | 0 <= i < |a| && 0 <= j < |b| :: a[i] != b[j]
    ensures NoRepeats(a + b)
  {
    var s := a + b;
    forall i, j | 0 <= i < j < |s|
      ensures s[i] != s[j]
    {
      if i < |a| <= j {
        assert s[i] == a[i] && s[j] == b[j - |a|];
      }
    }
  }

  lemma {:induction false} WalkNoRepeats(ts: seq<Tree>, at: seq<string>)
    requires DistinctSiblings(Tree("", true, ts))
    ensures NoRepeats(Walk(ts, at))
    decreases ts
  {
    if ts != [] {
      var here := at + [ts[0].name];
      var b, c := Walk(ts[0].children, here), Walk(ts[1..], at);
      assert DistinctSiblings(Tree("", true, ts[0].children)) by {
        assert DistinctSiblings(ts[0]);
      }
      WalkNoRepeats(ts[0].children, here);
      WalkNoRepeats(ts[1..], at);
      forall i | 0 <= i < |b|
        ensures |b[i]| > |here| && b[i][|at|] == ts[0].name
      {
        WalkIsBelow(ts[0].children, here, b[i]);
        assert b[i][..|here|] == here;
      }
      forall i | 0 <= i < |c|
        ensures |c[i]| > |at| && c[i][|at|] != ts[0].name
      {
        WalkIsBelow(ts[1..], at, c[i]);
      }
      Disjoint([here], b);
      Disjoint([here] + b, c);
    }
  }

  lemma {:induction false} CountOnce<T>(s: seq<T>, x: T)
    requires NoRepeats(s)
    ensures multiset(s)[x] == if x in s then 1 else 0
  {
    if s != [] {
      var n := |s| - 1;
      CountOnce(s[..n], x);
      assert s == s[..n] + [s[n]];
    }
  }

  // A rearrangement of a list without repeats has no repeats.
  lemma {:induction false} RearrangedNoRepeats<T>(s: seq<T>, r: seq<T>)
    requires NoRepeats(s) && multiset(r) == multiset(s)
    ensures NoRepeats(r)
  {
    forall i, j | 0 <= i < j < |r|
      ensures r[i] != r[j]
    {
      var x := r[i];
      CountOnce(s, x);
      assert r == r[..j] + [r[j]] + r[j + 1..];
      assert r[..j][i] == x;
      assert multiset(r[..j])[x] >= 1;
    }
  }
}
