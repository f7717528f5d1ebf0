/**
 The bound on live links of Tokens.dfy is reached by any number of overlapping Create calls.
 */
module TokensTight {
  import opened Common
  import opened Tokens
  import CTA = CheckThenAct

  // Of g numbered Create calls, those before v have invalidated and those before n inserted.
  ghost predicate Reached(e: System, user: int, kind: Kind, g: nat, v: nat, n: nat) {
    && n <= v <= g && (v < g ==> n == 0)
    && e.creators.Keys == Span(n, g)
    && (forall j | j in e.creators :: e.creators[j] == Creator(user, kind, Name(j), 1, j < v))
    && (forall h | h in e.issued :: |h| < g)
    && (forall h :: h in e.rows <==> |h| < n && h == Name(|h|))
    && (forall h | h in e.rows :: Unused(e.rows[h], user, kind))
  }

  function Names(n: nat): (r: set<string>)
    ensures forall h :: h in r <==> |h| < n && h == Name(|h|)
  {
    if n == 0 then {} else Names(n - 1) + {Name(n - 1)}
  }

  lemma {:induction false} NamesCount(n: nat)
    ensures |Names(n)| == n
  {
    if n > 0 {
      NamesCount(n - 1);
      AddedCounts(Names(n - 1), Name(n - 1));
    }
  }

  lemma {:induction false} ReachedLive(e: System, user: int, kind: Kind, g: nat, v: nat, n: nat)
    requires Reached(e, user, kind, g, v, n)
    ensures Live(e, user, kind) == Names(n)
  {
  }

  lemma {:induction false} ReachedPending(e: System, user: int, kind: Kind, g: nat, v: nat, n: nat)
    requires Reached(e, user, kind, g, v, n)
    ensures Pending(e, user, kind) == Span(n, v)
  {
  }

  lemma {:induction false} ReachedCounts(e: System, user: int, kind: Kind, g: nat, v: nat, n: nat)
    requires Reached(e, user, kind, g, v, n)
    ensures |Live(e, user, kind)| == n && |Pending(e, user, kind)| == v - n
  {
    ReachedLive(e, user, kind, g, v, n);
    ReachedPending(e, user, kind, g, v, n);
    NamesCount(n);
    SpanCounts(n, v);
  }

  lemma {:induction false} GenerateReaches(e: System, user: int, kind: Kind, g: nat)
    requires Reached(e, user, kind, g, 0, 0)
    ensures Reached(Do(e, Generate(g, user, kind, Name(g), 1)), user, kind, g + 1, 0, 0)
  {
    assert g !in e.creators && Name(g) !in e.issued;
  }

  lemma {:induction false} InvalidateReaches(e: System, user: int, kind: Kind, g: nat, v: nat)
    requires Reached(e, user, kind, g, v, 0) && v < g
    ensures Reached(Do(e, Invalidate(v, true)), user, kind, g, v + 1, 0)
  {
    assert v in e.creators && e.rows == map[];
  }

  lemma {:induction false} RowReaches(e: System, t: System, user: int, kind: Kind, g: nat, n: nat, row: Row)
    requires Reached(e, user, kind, g, g, n) && n < g && Unused(row, user, kind)
    requires t.rows == e.rows[Name(n) := row] && t.creators == e.creators - {n} && t.issued == e.issued
    ensures Reached(t, user, kind, g, g, n + 1)
  {
  }

  lemma {:induction false} InsertReaches(e: System, user: int, kind: Kind, g: nat, n: nat)
    requires Reached(e, user, kind, g, g, n) && n < g
    ensures Reached(Do(e, Insert(n, true)), user, kind, g, g, n + 1)
  {
    var t := Do(e, Insert(n, true));
    assert n in e.creators && Name(n) !in e.rows;
    RowReaches(e, t, user, kind, g, n, Row(user, kind, e.clock + 1, None));
  }

  // ------------------------------------------------------------------ the run

  ghost predicate Gets(k: nat, actions: seq<Action>, user: int, kind: Kind, g: nat, v: nat, n: nat) {
    && Reached(Exec(EMPTY, actions), user, kind, g, v, n)
    && InvalidationsWork(actions) && AtMostPending(k, actions, user, kind)
  }

  lemma {:induction false} OneMoreStep(actions: seq<Action>, a: Action)
    ensures Exec(EMPTY, actions + [a]) == Do(Exec(EMPTY, actions), a)
  {
    assert (actions + [a])[..|actions|] == actions;
  }

  lemma {:induction false} OneMore(k: nat, before: seq<Action>, a: Action, user: int, kind: Kind, g: nat, v: nat, n: nat)
    requires InvalidationsWork(before) && AtMostPending(k, before, user, kind) && (a.Invalidate? ==> a.ok)
    requires Reached(Do(Exec(EMPTY, before), a), user, kind, g, v, n) && v - n <= k
    ensures Gets(k, before + [a], user, kind, g, v, n)
  {
    hide Do;
    var actions := before + [a];
    OneMoreStep(before, a);
    ReachedCounts(Do(Exec(EMPTY, before), a), user, kind, g, v, n);
    forall i | 0 <= i <= |actions|
      ensures |Pending(Exec(EMPTY, actions[..i]), user, kind)| <= k
    {
      if i <= |before| {
        assert actions[..i] == before[..i];
      } else {
        assert actions[..i] == actions;
      }
    }
  }

  lemma {:induction false} AllGenerate(k: nat, user: int, kind: Kind, g: nat) returns (actions: seq<Action>)
    ensures Gets(k, actions, user, kind, g, 0, 0)
  {
    hide Do;
    if g == 0 {
      actions := [];
      ReachedCounts(EMPTY, user, kind, 0, 0, 0);
    } else {
      var before := AllGenerate(k, user, kind, g - 1);
      GenerateReaches(Exec(EMPTY, before), user, kind, g - 1);
      OneMore(k, before, Generate(g - 1, user, kind, Name(g - 1), 1), user, kind, g, 0, 0);
      actions := before + [Generate(g - 1, user, kind, Name(g - 1), 1)];
    }
  }

  lemma {:induction false} AllInvalidate(k: nat, user: int, kind: Kind, v: nat) returns (actions: seq<Action>)
    requires v <= k
    ensures Gets(k, actions, user, kind, k, v, 0)
  {
    hide Do;
    if v == 0 {
      actions := AllGenerate(k, user, kind, k);
    } else {
      var before := AllInvalidate(k, user, kind, v - 1);
      InvalidateReaches(Exec(EMPTY, before), user, kind, k, v - 1);
      OneMore(k, before, Invalidate(v - 1, true), user, kind, k, v, 0);
      actions := before + [Invalidate(v - 1, true)];
    }
  }

  lemma {:induction false} AllInsert(k: nat, user: int, kind: Kind, n: nat) returns (actions: seq<Action>)
    requires n <= k
    ensures Gets(k, actions, user, kind, k, k, n)
  {
    hide Do;
    if n == 0 {
      actions := AllInvalidate(k, user, kind, k);
    } else {
      var before := AllInsert(k, user, kind, n - 1);
      InsertReaches(Exec(EMPTY, before), user, kind, k, n - 1);
      OneMore(k, before, Insert(n - 1, true), user, kind, k, k, n);
      actions := before + [Insert(n - 1, true)];
    }
  }

  /** For every k, k overlapping Create calls, whose invalidations all work, leave k links live:
      the bound of LiveBound is reached. */
  lemma {:induction false} LiveBoundIsTight(k: nat, user: int, kind: Kind) returns (actions: seq<Action>)
    ensures InvalidationsWork(actions) && AtMostPending(k, actions, user, kind)
    ensures |Live(Exec(EMPTY, actions), user, kind)| == k
  {
    actions := AllInsert(k, user, kind, k);
    ReachedCounts(Exec(EMPTY, actions), user, kind, k, k, k);
  }

  // ------------------------------------------------------------------ the latest link

  // The action is the INSERT of a Create call of the user and kind, and goes through.
  predicate Inserts(s: System, a: Action, user: int, kind: Kind) {
    a.Insert? && a.ok && a.id in Pending(s, user, kind) && s.creators[a.id].hash !in s.rows
  }

  // The last link made for the user and kind.
  function Latest(actions: seq<Action>, user: int, kind: Kind): Option<string> {
    if actions == [] then None
    else
      var before, a := actions[..|actions| - 1], actions[|actions| - 1];
      var s := Exec(EMPTY, before);
      if Inserts(s, a, user, kind) then Some(s.creators[a.id].hash) else Latest(before, user, kind)
  }

  lemma {:induction false} InsertAlone(s: System, a: Action, user: int, kind: Kind)
    requires Inserts(s, a, user, kind) && Live(s, user, kind) == {}
    ensures Live(Do(s, a), user, kind) == {s.creators[a.id].hash}
  {
    var h := s.creators[a.id].hash;
    forall g | g in Live(Do(s, a), user, kind)
      ensures g == h
    {
      assert g != h ==> g in Live(s, user, kind);
    }
  }

  lemma {:induction false} NoNewLink(s: System, a: Action, user: int, kind: Kind)
    requires !Inserts(s, a, user, kind)
    ensures Live(Do(s, a), user, kind) <= Live(s, user, kind)
  {
  }

  lemma {:induction false} NothingLive(s: System, user: int, kind: Kind, id: int)
    requires id in Pending(s, user, kind) && |Live(s, user, kind)| + |Pending(s, user, kind)| <= 1
    ensures Live(s, user, kind) == {}
  {
    CTA.Subset({id}, Pending(s, user, kind));
    assert |Live(s, user, kind)| == 0;
  }

  /** When Create calls of a user and kind do not overlap and invalidations work, every link that
      works is the latest one made. */
  lemma {:induction false} LiveIsLatest(actions: seq<Action>, user: int, kind: Kind)
    requires InvalidationsWork(actions) && AtMostPending(1, actions, user, kind)
    ensures forall h | h in Live(Exec(EMPTY, actions), user, kind) :: Latest(actions, user, kind) == Some(h)
  {
    if actions == [] {
      assert Live(EMPTY, user, kind) == {};
    } else {
      var before, a := actions[..|actions| - 1], actions[|actions| - 1];
      var s := Exec(EMPTY, before);
      FewerPending(1, actions, user, kind);
      if Inserts(s, a, user, kind) {
        LiveBound(1, before, user, kind);
        NothingLive(s, user, kind, a.id);
        InsertAlone(s, a, user, kind);
      } else {
        LiveIsLatest(before, user, kind);
        NoNewLink(s, a, user, kind);
      }
    }
  }

  lemma {:induction false} FewerPending(k: nat, actions: seq<Action>, user: int, kind: Kind)
    requires InvalidationsWork(actions) && AtMostPending(k, actions, user, kind) && actions != []
    ensures var before := actions[..|actions| - 1];
            InvalidationsWork(before) && AtMostPending(k, before, user, kind)
  {
    var before := actions[..|actions| - 1];
    forall i | 0 <= i <= |before|
      ensures |Pending(Exec(EMPTY, before[..i]), user, kind)| <= k
    {
      assert before[..i] == actions[..i];
    }
  }

  // In every run with at most k overlapping calls, only the latest link works.
  ghost predicate OnlyLatest(k: nat, user: int, kind: Kind) {
    forall actions | InvalidationsWork(actions) && AtMostPending(k, actions, user, kind) ::
      forall h | h in Live(Exec(EMPTY, actions), user, kind) :: Latest(actions, user, kind) == Some(h)
  }

  lemma {:induction false} ManyAreNotLatest(k: nat, user: int, kind: Kind)
    requires k > 1
    ensures !OnlyLatest(k, user, kind)
  {
    var actions := LiveBoundIsTight(k, user, kind);
    var live, latest := Live(Exec(EMPTY, actions), user, kind), Latest(actions, user, kind);
    if forall h | h in live :: latest == Some(h) {
      var only := if latest.Some? then {latest.value} else {};
      CTA.Subset(live, only);
      assert false;
    }
  }

  /** Only the latest link works, over all runs in which invalidations do, exactly when Create
      calls of a user and kind do not overlap. */
  lemma {:induction false} OnlyLatestExactly(k: nat, user: int, kind: Kind)
    ensures OnlyLatest(k, user, kind) <==> k <= 1
  {
    if k <= 1 {
      forall actions | InvalidationsWork(actions) && AtMostPending(k, actions, user, kind)
        ensures forall h | h in Live(Exec(EMPTY, actions), user, kind) :: Latest(actions, user, kind) == Some(h)
      {
        LiveIsLatest(actions, user, kind);
      }
    } else {
      ManyAreNotLatest(k, user, kind);
    }
  }
}
