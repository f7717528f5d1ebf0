/**
 The bound of LifecycleQuota.dfy is reached for every plan and every number of overlapping
 creations, so a plan's limit is kept exactly when creations do not overlap.
 */
module LifecycleTight {
  import opened Common
  import opened Lifecycle
  import opened LifecycleQuota
  import CTA = CheckThenAct

  // ------------------------------------------------------------------ one creation

  lemma {:induction false} OneMoreStep(s: System, actions: seq<Action>, a: Action)
    ensures Exec(s, actions + [a]) == Do(Exec(s, actions), a)
  {
    assert (actions + [a])[..|actions|] == actions;
  }

  // The steps of a creation after its check, all of which work.
  function Finish(p: int, cid: string, id: int): seq<Action> {
    [MakeFolder(p, true), ContainerCreate(p, true, cid), ContainerStart(p, true), Insert(p, true, id, 0), CommitCreate(p, true)]
  }

  // The table, the ids given out, and the calls, but for one that has come this far.
  ghost predicate Only(s: System, t: System, p: int, c: Call, made: set<string>, issued: set<int>) {
    t.rows == s.rows && t.plans == s.plans && t.calls == s.calls[p := c] && t.made == made && t.issued == issued
  }

  lemma {:induction false} FirstSteps(s: System, p: int, cid: string, user: int, leaf: Path)
    requires p in s.calls && s.calls[p] == Admitted(user, leaf, false) && cid !in s.made
    ensures var t := Do(Do(s, MakeFolder(p, true)), ContainerCreate(p, true, cid));
            Only(s, t, p, WithContainer(user, leaf, false, cid), s.made + {cid}, s.issued)
  {
    var t := Do(s, MakeFolder(p, true));
    assert Only(s, t, p, WithFolder(user, leaf, false), s.made, s.issued);
  }

  lemma {:induction false} LastSteps(s: System, p: int, cid: string, id: int, user: int, leaf: Path)
    requires p in s.calls && s.calls[p] == WithContainer(user, leaf, false, cid) && id !in s.issued
    ensures var t := Do(Do(Do(s, ContainerStart(p, true)), Insert(p, true, id, 0)), CommitCreate(p, true));
            && t.rows == s.rows[id := Row(user, cid, leaf, "", "running", Some(0))] && t.plans == s.plans
            && t.calls == s.calls - {p} && t.made == s.made && t.issued == s.issued + {id}
  {
    var t := Do(s, ContainerStart(p, true));
    assert Only(s, t, p, Started(user, leaf, false, cid, Some("")), s.made, s.issued);
    var u := Do(t, Insert(p, true, id, 0));
    assert Only(s, u, p, WithRow(false, id, Row(user, cid, leaf, "", "running", Some(0))), s.made, s.issued + {id});
  }

  lemma {:induction false} ExecFinish(s: System, actions: seq<Action>, p: int, cid: string, id: int)
    ensures var t := Do(Do(Exec(s, actions), MakeFolder(p, true)), ContainerCreate(p, true, cid));
            Exec(s, actions + Finish(p, cid, id))
            == Do(Do(Do(t, ContainerStart(p, true)), Insert(p, true, id, 0)), CommitCreate(p, true))
  {
    var f := Finish(p, cid, id);
    var a1 := actions + [f[0]];
    var a2 := a1 + [f[1]];
    var a3 := a2 + [f[2]];
    var a4 := a3 + [f[3]];
    assert a4 + [f[4]] == actions + f;
    OneMoreStep(s, actions, f[0]);
    OneMoreStep(s, a1, f[1]);
    OneMoreStep(s, a2, f[2]);
    OneMoreStep(s, a3, f[3]);
    OneMoreStep(s, a4, f[4]);
  }

  lemma {:induction false} FinishMakes(s: System, actions: seq<Action>, p: int, cid: string, id: int, user: int, leaf: Path)
    requires var e := Exec(s, actions);
             p in e.calls && e.calls[p] == Admitted(user, leaf, false) && cid !in e.made && id !in e.issued
    ensures var e, t := Exec(s, actions), Exec(s, actions + Finish(p, cid, id));
            && t.rows == e.rows[id := Row(user, cid, leaf, "", "running", Some(0))] && t.plans == e.plans
            && t.calls == e.calls - {p} && t.made == e.made + {cid} && t.issued == e.issued + {id}
  {
    var e := Exec(s, actions);
    ExecFinish(s, actions, p, cid, id);
    FirstSteps(e, p, cid, user, leaf);
    LastSteps(Do(Do(e, MakeFolder(p, true)), ContainerCreate(p, true, cid)), p, cid, id, user, leaf);
  }

  // ------------------------------------------------------------------ numbered creations

  // The creations are numbered; each uses its number as call and row id, and the number's name
  // for the container.

  // The first n creations are finished, and the next ones up to m have passed the check.
  ghost predicate Reached(s: System, e: System, user: int, leaf: Path, n: nat, m: nat) {
    && n <= m && e.plans == s.plans
    && e.rows.Keys == Span(0, n) && (forall j | j in e.rows :: e.rows[j].user == user)
    && e.calls.Keys == Span(n, m) && (forall j | j in e.calls :: e.calls[j] == Admitted(user, leaf, false))
    && (forall cid | cid in e.made :: |cid| < n)
    && e.issued == Span(0, n)
  }

  lemma {:induction false} ReachedRows(s: System, e: System, user: int, leaf: Path, n: nat, m: nat)
    requires Reached(s, e, user, leaf, n, m)
    ensures RowsOf(e, user) == Span(0, n) && |RowsOf(e, user)| == n
  {
    assert RowsOf(e, user) == e.rows.Keys;
    SpanCounts(0, n);
  }

  lemma {:induction false} GoesReaches(s: System, e: System, user: int, leaf: Path, n: nat, m: nat)
    requires Reached(s, e, user, leaf, n, m)
    ensures Reached(s, Goes(e, m, Admitted(user, leaf, false)), user, leaf, n, m + 1)
  {
    assert Span(n, m + 1) == Span(n, m) + {m};
  }

  lemma {:induction false} CheckReaches(s: System, e: System, user: int, leaf: Path, n: nat, m: nat)
    requires Reached(s, e, user, leaf, n, m) && user in s.plans && n < s.plans[user]
    ensures Reached(s, Do(e, Check(m, user, leaf, false, true)), user, leaf, n, m + 1)
  {
    ReachedRows(s, e, user, leaf, n, m);
    assert m !in e.calls;
    CheckIs(e, Check(m, user, leaf, false, true));
    GoesReaches(s, e, user, leaf, n, m);
  }

  lemma {:induction false} FinishedReaches(s: System, e: System, t: System, user: int, leaf: Path, n: nat, m: nat)
    requires n < m && Reached(s, e, user, leaf, n, m)
    requires t.rows == e.rows[n := Row(user, Name(n), leaf, "", "running", Some(0))] && t.plans == e.plans
    requires t.calls == e.calls - {n} && t.made == e.made + {Name(n)} && t.issued == e.issued + {n}
    ensures Reached(s, t, user, leaf, n + 1, m)
  {
    assert Span(0, n + 1) == Span(0, n) + {n};
    assert Span(n + 1, m) == Span(n, m) - {n};
  }

  lemma {:induction false} FinishReaches(s: System, actions: seq<Action>, user: int, leaf: Path, n: nat, m: nat)
    requires n < m && Reached(s, Exec(s, actions), user, leaf, n, m)
    ensures Reached(s, Exec(s, actions + Finish(n, Name(n), n)), user, leaf, n + 1, m)
  {
    hide Exec, Finish;
    var e := Exec(s, actions);
    assert n in e.calls && n !in e.issued;
    FinishMakes(s, actions, n, Name(n), n, user, leaf);
    FinishedReaches(s, e, Exec(s, actions + Finish(n, Name(n), n)), user, leaf, n, m);
  }

  // ------------------------------------------------------------------ few at a time

  predicate CalledBy(a: Action, ps: set<int>) {
    (Prepares(a) || Records(a)) && a.p in ps
  }

  lemma {:induction false} StepCalls(s: System, a: Action)
    requires Prepares(a) || Records(a)
    ensures Do(s, a).calls.Keys <= s.calls.Keys + {a.p}
  {
    if Prepares(a) {
      assert PrepareStep(s, a).calls.Keys <= s.calls.Keys + {a.p};
    } else {
      assert RecordStep(s, a).calls.Keys <= s.calls.Keys + {a.p};
    }
  }

  lemma {:induction false} FewCallers(s: System, actions: seq<Action>, more: seq<Action>, ps: set<int>)
    requires Exec(s, actions).calls.Keys <= ps && forall a | a in more :: CalledBy(a, ps)
    ensures Exec(s, actions + more).calls.Keys <= ps
  {
    if more == [] {
      assert actions + more == actions;
    } else {
      var n := |more| - 1;
      FewCallers(s, actions, more[..n], ps);
      assert CalledBy(more[n], ps);
      StepCalls(Exec(s, actions + more[..n]), more[n]);
      OneMoreStep(s, actions + more[..n], more[n]);
      assert actions + more == actions + more[..n] + [more[n]];
    }
  }

  // Going on with these callers alone keeps the number of creations under way.
  lemma {:induction false} StillFew(k: nat, s: System, actions: seq<Action>, more: seq<Action>, user: int, ps: set<int>)
    requires AtMostCreating(k, s, actions, user) && |ps| <= k
    requires Exec(s, actions).calls.Keys <= ps && forall a | a in more :: CalledBy(a, ps)
    ensures AtMostCreating(k, s, actions + more, user)
  {
    var all := actions + more;
    forall i | 0 <= i <= |all|
      ensures |Creations(Exec(s, all[..i]), user)| <= k
    {
      if i <= |actions| {
        assert all[..i] == actions[..i];
      } else {
        var some := more[..i - |actions|];
        assert all[..i] == actions + some;
        FewCallers(s, actions, some, ps);
        CTA.Subset(Creations(Exec(s, all[..i]), user), ps);
      }
    }
  }

  lemma {:induction false} FinishCalledBy(p: int, cid: string, id: int, ps: set<int>)
    requires p in ps
    ensures forall a | a in Finish(p, cid, id) :: CalledBy(a, ps)
  {
  }

  ghost predicate Gets(k: nat, s: System, actions: seq<Action>, user: int, leaf: Path, n: nat, m: nat) {
    Reached(s, Exec(s, actions), user, leaf, n, m) && AtMostCreating(k, s, actions, user)
  }

  // One more creation passes the check.
  lemma {:induction false} OneChecks(k: nat, s: System, before: seq<Action>, user: int, leaf: Path, n: nat, m: nat)
    returns (actions: seq<Action>)
    requires Gets(k, s, before, user, leaf, n, m) && user in s.plans && n < s.plans[user] && m - n < k
    ensures Gets(k, s, actions, user, leaf, n, m + 1)
  {
    var a := Check(m, user, leaf, false, true);
    CheckReaches(s, Exec(s, before), user, leaf, n, m);
    OneMoreStep(s, before, a);
    SpanCounts(n, m + 1);
    assert Exec(s, before).calls.Keys == Span(n, m) <= Span(n, m + 1);
    assert CalledBy(a, Span(n, m + 1));
    StillFew(k, s, before, [a], user, Span(n, m + 1));
    actions := before + [a];
  }

  // The first creation under way finishes.
  lemma {:induction false} OneFinishes(k: nat, s: System, before: seq<Action>, user: int, leaf: Path, n: nat, m: nat)
    returns (actions: seq<Action>)
    requires Gets(k, s, before, user, leaf, n, m) && n < m && m - n <= k
    ensures Gets(k, s, actions, user, leaf, n + 1, m)
  {
    hide Finish;
    var f := Finish(n, Name(n), n);
    FinishReaches(s, before, user, leaf, n, m);
    SpanCounts(n, m);
    assert Exec(s, before).calls.Keys == Span(n, m);
    FinishCalledBy(n, Name(n), n, Span(n, m));
    StillFew(k, s, before, f, user, Span(n, m));
    actions := before + f;
  }

  // One after the other.
  lemma {:induction false} Serially(k: nat, s: System, user: int, leaf: Path, n: nat) returns (actions: seq<Action>)
    requires Initial(s) && s.made == {} && s.issued == {} && user in s.plans && n <= s.plans[user] && k >= 1
    ensures Gets(k, s, actions, user, leaf, n, n)
  {
    if n == 0 {
      actions := [];
      NoneReached(k, s, user, leaf);
    } else {
      var before := Serially(k, s, user, leaf, n - 1);
      var checked := OneChecks(k, s, before, user, leaf, n - 1, n - 1);
      actions := OneFinishes(k, s, checked, user, leaf, n - 1, n);
    }
  }

  lemma {:induction false} NoneReached(k: nat, s: System, user: int, leaf: Path)
    requires Initial(s) && s.made == {} && s.issued == {}
    ensures Gets(k, s, [], user, leaf, 0, 0)
  {
    assert Span(0, 0) == {} && Creations(s, user) == {};
  }

  lemma {:induction false} ManyCheck(k: nat, s: System, before: seq<Action>, user: int, leaf: Path, n: nat, more: nat)
    returns (actions: seq<Action>)
    requires Gets(k, s, before, user, leaf, n, n) && user in s.plans && n < s.plans[user] && more <= k
    ensures Gets(k, s, actions, user, leaf, n, n + more)
  {
    if more == 0 {
      actions := before;
    } else {
      var some := ManyCheck(k, s, before, user, leaf, n, more - 1);
      actions := OneChecks(k, s, some, user, leaf, n, n + more - 1);
    }
  }

  lemma {:induction false} ManyFinish(k: nat, s: System, before: seq<Action>, user: int, leaf: Path, n: nat, m: nat, more: nat)
    returns (actions: seq<Action>)
    requires Gets(k, s, before, user, leaf, n, m) && n + more <= m && m - n <= k
    ensures Gets(k, s, actions, user, leaf, n + more, m)
  {
    if more == 0 {
      actions := before;
    } else {
      var some := ManyFinish(k, s, before, user, leaf, n, m, more - 1);
      actions := OneFinishes(k, s, some, user, leaf, n + more - 1, m);
    }
  }

  // ------------------------------------------------------------------ the bound is reached

  /** For every plan and every k, a run with at most k creations at a time leaves the user with
      MaxContainers - 1 + k containers: the bound of QuotaBound is reached. */
  lemma {:induction false} QuotaBoundIsTight(k: nat, s: System, user: int, leaf: Path) returns (actions: seq<Action>)
    requires Initial(s) && s.made == {} && s.issued == {} && user in s.plans && s.plans[user] >= 1 && k >= 1
    ensures AtMostCreating(k, s, actions, user)
    ensures |RowsOf(Exec(s, actions), user)| == s.plans[user] - 1 + k
  {
    var n := s.plans[user] - 1;
    var serial := Serially(k, s, user, leaf, n);
    var checked := ManyCheck(k, s, serial, user, leaf, n, k);
    actions := ManyFinish(k, s, checked, user, leaf, n, n + k, k);
    ReachedRows(s, Exec(s, actions), user, leaf, n + k, n + k);
  }

  // No run with at most k creations at a time takes the user over the plan.
  ghost predicate KeepsQuota(k: nat, s: System, user: int)
    requires user in s.plans
  {
    forall actions | AtMostCreating(k, s, actions, user) :: |RowsOf(Exec(s, actions), user)| <= s.plans[user]
  }

  /** The plan's limit is kept over all runs exactly when creations of a user do not overlap. */
  lemma {:induction false} QuotaKeptExactly(k: nat, s: System, user: int, leaf: Path)
    requires Initial(s) && s.made == {} && s.issued == {} && user in s.plans && s.plans[user] >= 1
    ensures KeepsQuota(k, s, user) <==> k <= 1
  {
    if k <= 1 {
      forall actions | AtMostCreating(k, s, actions, user)
        ensures |RowsOf(Exec(s, actions), user)| <= s.plans[user]
      {
        QuotaBound(k, s, actions, user);
      }
    } else {
      var actions := QuotaBoundIsTight(k, s, user, leaf);
      assert !(|RowsOf(Exec(s, actions), user)| <= s.plans[user]);
    }
  }
}
