/**
 Whole runs of crash recovery: every interleaving of handlers, and serial traces of events.
 */
module RecoveryRuns {
  import opened Common
  import CTA = CheckThenAct
  import opened Recovery

  // ------------------------------------------------------------------ overlapping handlers

  // The handlers between their snapshot and their increment.
  function Waiting(s: System): set<int> {
    set id | id in s.handlers && s.handlers[id].Sleeping?
  }

  function Restarts(s: System): nat {
    if s.row.Some? then s.row.value.restartCount else 0
  }

  function Abs(s: System): CTA.State {
    CTA.State(Restarts(s), |Waiting(s)|)
  }

  // The step of the check-then-act counter that a step of recovery is.
  function AbsAction(max: int, s: System, a: Action): CTA.Action {
    match a
    case Snapshot(id, ok) =>
      if id in s.handlers && s.handlers[id].Begun? && id in Waiting(Do(max, s, a)) then CTA.Admit else CTA.Skip
    case Increment(id, ok) =>
      if id in Waiting(s) then (if ok && s.row.Some? then CTA.Act else CTA.GiveUp) else CTA.Skip
    case ResetCircuit(ok) => if ok then CTA.Lose(Restarts(s)) else CTA.Skip
    case Remove => CTA.Lose(Restarts(s))
    case _ => CTA.Skip
  }

  lemma {:induction false} WaitingAfter(max: int, s: System, a: Action)
    ensures var t := Do(max, s, a);
            match AbsAction(max, s, a)
            case Admit => CTA.OneMore(Waiting(s), Waiting(t))
            case Act => CTA.OneMore(Waiting(t), Waiting(s))
            case GiveUp => CTA.OneMore(Waiting(t), Waiting(s))
            case _ => Waiting(t) == Waiting(s)
  {
    var t := Do(max, s, a);
    if a.Increment? && a.id in Waiting(s) {
      assert Waiting(s) == Waiting(t) + {a.id};
    } else if AbsAction(max, s, a).Admit? {
      assert Waiting(t) == Waiting(s) + {a.id};
    } else {
      assert Waiting(t) == Waiting(s);
    }
  }

  lemma {:induction false} RestartsAfter(max: int, s: System, a: Action)
    ensures var n, n' := Restarts(s), Restarts(Do(max, s, a));
            match AbsAction(max, s, a)
            case Admit => n' == n < max
            case Act => n' == n + 1
            case GiveUp => n' == n
            case Lose(k) => k <= n && n' == n - k
            case Renew => false
            case Skip => n' == n
  {
  }

  lemma {:induction false} StepIsAbstract(max: int, s: System, a: Action)
    ensures Abs(Do(max, s, a)) == CTA.Do(max, Abs(s), AbsAction(max, s, a))
  {
    WaitingAfter(max, s, a);
    RestartsAfter(max, s, a);
    Counted(max, Restarts(s), Restarts(Do(max, s, a)), Waiting(s), Waiting(Do(max, s, a)), AbsAction(max, s, a));
  }

  lemma {:induction false} Counted(max: int, n: nat, n': nat, w: set<int>, w': set<int>, x: CTA.Action)
    requires match x
             case Admit => n' == n < max && CTA.OneMore(w, w')
             case Act => n' == n + 1 && CTA.OneMore(w', w)
             case GiveUp => n' == n && CTA.OneMore(w', w)
             case Lose(k) => k <= n && n' == n - k && w' == w
             case Renew => false
             case Skip => n' == n && w' == w
    ensures CTA.State(n', |w'|) == CTA.Do(max, CTA.State(n, |w|), x)
  {
    match x
    case Admit => CTA.OneMoreCounts(w, w');
    case Act => CTA.OneMoreCounts(w', w);
    case GiveUp => CTA.OneMoreCounts(w', w);
    case _ =>
  }

  function AbsActions(max: int, s: System, actions: seq<Action>): (r: seq<CTA.Action>)
    ensures |r| == |actions|
  {
    if actions == [] then []
    else
      var before := actions[..|actions| - 1];
      AbsActions(max, s, before) + [AbsAction(max, Exec(max, s, before), actions[|actions| - 1])]
  }

  lemma {:induction false} RunIsAbstract(max: int, s: System, actions: seq<Action>)
    ensures Abs(Exec(max, s, actions)) == CTA.Exec(max, Abs(s), AbsActions(max, s, actions))
  {
    if actions != [] {
      var before := actions[..|actions| - 1];
      RunIsAbstract(max, s, before);
      StepIsAbstract(max, Exec(max, s, before), actions[|actions| - 1]);
      var abs := AbsActions(max, s, actions);
      assert abs[..|abs| - 1] == AbsActions(max, s, before);
    }
  }

  lemma {:induction false} AbsPrefix(max: int, s: System, actions: seq<Action>, n: nat)
    requires n <= |actions|
    ensures AbsActions(max, s, actions)[..n] == AbsActions(max, s, actions[..n])
  {
    if n < |actions| {
      var before := actions[..|actions| - 1];
      AbsPrefix(max, s, before, n);
      assert before[..n] == actions[..n];
      assert AbsActions(max, s, actions)[..n] == AbsActions(max, s, before)[..n];
    } else {
      assert actions[..n] == actions;
    }
  }

  // At no point of the run are more than k handlers between their snapshot and their increment.
  ghost predicate AtMostWaiting(k: nat, max: int, s: System, actions: seq<Action>) {
    forall i | 0 <= i <= |actions| :: |Waiting(Exec(max, s, actions[..i]))| <= k
  }

  /** In every interleaving with at most k handlers waiting at a time, the restart count plus
      the handlers waiting never exceed maxRestarts - 1 + k. */
  lemma {:induction false} RestartBound(max: int, k: nat, s: System, actions: seq<Action>)
    requires Restarts(s) + |Waiting(s)| <= max - 1 + k
    requires AtMostWaiting(k, max, s, actions)
    ensures var e := Exec(max, s, actions); Restarts(e) + |Waiting(e)| <= max - 1 + k
  {
    var abs := AbsActions(max, s, actions);
    forall i | 0 <= i <= |abs|
      ensures CTA.Exec(max, Abs(s), abs[..i]).inFlight <= k
    {
      AbsPrefix(max, s, actions, i);
      RunIsAbstract(max, s, actions[..i]);
    }
    RunIsAbstract(max, s, actions);
    CTA.Overshoot(max, k, Abs(s), abs);
  }

  /** Handlers one at a time never restart the container more often than the plan allows. */
  lemma {:induction false} SerialRestartBound(max: nat, s: System, actions: seq<Action>)
    requires Restarts(s) == 0 && Waiting(s) == {}
    requires AtMostWaiting(1, max, s, actions)
    ensures Restarts(Exec(max, s, actions)) <= max
  {
    RestartBound(max, 1, s, actions);
  }

  // ------------------------------------------------------------------ the bound is reached

  lemma {:induction false} Extend(k: nat, max: int, s: System, actions: seq<Action>, a: Action)
    requires AtMostWaiting(k, max, s, actions)
    requires |Waiting(Do(max, Exec(max, s, actions), a))| <= k
    ensures AtMostWaiting(k, max, s, actions + [a])
    ensures Exec(max, s, actions + [a]) == Do(max, Exec(max, s, actions), a)
  {
    var all := actions + [a];
    assert all[..|actions|] == actions;
    forall i | 0 <= i <= |all|
      ensures |Waiting(Exec(max, s, all[..i]))| <= k
    {
      if i <= |actions| {
        assert all[..i] == actions[..i];
      } else {
        assert all[..i] == all;
      }
    }
  }

  const FRESH := System(Some(Row(Running, 0, false, false, NoHealth)), map[], [], 0, 0, 0, 0)

  // A run of crashes 0 .. n - 1 that has counted c restarts and has w handlers waiting.
  ghost predicate Reaches(k: nat, max: int, actions: seq<Action>, n: int, c: nat, w: set<int>) {
    var e := Exec(max, FRESH, actions);
    && AtMostWaiting(k, max, FRESH, actions)
    && e.row.Some? && e.row.value.restartCount == c && !e.row.value.circuitOpen
    && Waiting(e) == w
    && forall id | id in e.handlers :: id < n
  }

  // Crash n comes, and its handler reads the row.
  lemma {:induction false} OneWaits(k: nat, max: int, actions: seq<Action>, n: int, c: nat, w: set<int>)
    returns (r: seq<Action>)
    requires Reaches(k, max, actions, n, c, w) && c < max && |w| < k
    ensures Reaches(k, max, r, n + 1, c, w + {n})
  {
    var e := Exec(max, FRESH, actions);
    assert n !in w;
    var e1 := Do(max, e, Die(n, 1));
    assert Waiting(e1) == w;
    Extend(k, max, FRESH, actions, Die(n, 1));
    var e2 := Do(max, e1, Snapshot(n, true));
    assert Waiting(e2) == w + {n};
    Extend(k, max, FRESH, actions + [Die(n, 1)], Snapshot(n, true));
    r := actions + [Die(n, 1)] + [Snapshot(n, true)];
  }

  // The handler of crash id counts its restart.
  lemma {:induction false} OneCounts(k: nat, max: int, actions: seq<Action>, n: int, c: nat, w: set<int>, id: int)
    returns (r: seq<Action>)
    requires Reaches(k, max, actions, n, c, w) && id in w
    ensures Reaches(k, max, r, n, c + 1, w - {id})
  {
    var e := Exec(max, FRESH, actions);
    var e1 := Do(max, e, Increment(id, true));
    assert Waiting(e1) == w - {id};
    CTA.Subset(w - {id}, w);
    assert |w| <= k by {
      assert actions[..|actions|] == actions;
    }
    Extend(k, max, FRESH, actions, Increment(id, true));
    r := actions + [Increment(id, true)];
  }

  lemma {:induction false} SerialCrashes(k: nat, max: int, n: nat) returns (r: seq<Action>)
    requires 1 <= k && n <= max
    ensures Reaches(k, max, r, n, n, {})
  {
    if n == 0 {
      r := [];
    } else {
      r := SerialCrashes(k, max, n - 1);
      r := OneWaits(k, max, r, n - 1, n - 1, {});
      r := OneCounts(k, max, r, n, n - 1, {} + {n - 1}, n - 1);
      assert {} + {n - 1} - {n - 1} == {};
    }
  }

  function Ids(from: int, n: nat): (r: set<int>)
    ensures |r| == n && forall id :: id in r <==> from <= id < from + n
  {
    if n == 0 then {} else Ids(from, n - 1) + {from + n - 1}
  }

  lemma {:induction false} ManyWait(k: nat, max: int, n: nat) returns (r: seq<Action>)
    requires 1 <= max && 1 <= k && n <= k
    ensures Reaches(k, max, r, max - 1 + n, max - 1, Ids(max - 1, n))
  {
    if n == 0 {
      r := SerialCrashes(k, max, max - 1);
    } else {
      r := ManyWait(k, max, n - 1);
      r := OneWaits(k, max, r, max - 1 + (n - 1), max - 1, Ids(max - 1, n - 1));
    }
  }

  lemma {:induction false} IdsShift(from: int, n: nat)
    ensures from in Ids(from, n + 1) && Ids(from, n + 1) - {from} == Ids(from + 1, n)
  {
  }

  // The first of the waiting handlers counts its restart.
  lemma {:induction false} NextCounts(k: nat, max: int, actions: seq<Action>, n: int, c: nat, from: int, m: nat)
    returns (r: seq<Action>)
    requires Reaches(k, max, actions, n, c, Ids(from, m + 1))
    ensures Reaches(k, max, r, n, c + 1, Ids(from + 1, m))
  {
    IdsShift(from, m);
    var w := Ids(from, m + 1);
    r := OneCounts(k, max, actions, n, c, w, from);
    assert w - {from} == Ids(from + 1, m);
  }

  lemma {:induction false} ManyCount(k: nat, max: int, n: nat, from: int, c: nat) returns (r: seq<Action>)
    requires 1 <= max && 1 <= k && n <= k && from == c == max - 1 + n
    ensures Reaches(k, max, r, max - 1 + k, c, Ids(from, k - n))
  {
    hide Reaches, Ids;
    if n == 0 {
      r := ManyWait(k, max, k);
    } else {
      var m := k - n;
      r := ManyCount(k, max, n - 1, from - 1, c - 1);
      assert k - (n - 1) == m + 1;
      r := NextCounts(k, max, r, max - 1 + k, c - 1, from - 1, m);
    }
  }

  /** With k handlers at a time a container can be restarted maxRestarts - 1 + k times: the
      bound of RestartBound is reached. */
  lemma {:induction false} RestartBoundIsTight(max: int, k: nat) returns (actions: seq<Action>)
    requires 1 <= max && 1 <= k
    ensures AtMostWaiting(k, max, FRESH, actions)
    ensures Restarts(Exec(max, FRESH, actions)) == max - 1 + k
  {
    actions := ManyCount(k, max, k, max - 1 + k, max - 1 + k);
  }

  // ------------------------------------------------------------------ restarts over a whole run

  function InRestart(s: System): set<int> {
    set id | id in s.handlers && s.handlers[id].Restarting?
  }

  // Every attempt counted is a Docker restart made or about to be made.
  ghost predicate Conserved(s: System) {
    s.attempts == s.restarts + |InRestart(s)|
  }

  // What n periods of at most m restarts allow.
  function Allowed(n: nat, m: nat): nat {
    n * m
  }

  // m is the bound of RestartBound.
  ghost predicate Accounted(s: System, m: nat) {
    && s.attempts + |Waiting(s)| <= Allowed(s.resets + 1, m)
    && (s.row.Some? ==> s.attempts <= Allowed(s.resets, m) + s.row.value.restartCount)
  }

  predicate BeginsRestart(s: System, a: Action) {
    a.Increment? && a.id in Waiting(s) && a.ok
  }

  predicate EndsRestart(s: System, a: Action) {
    a.Restart? && a.id in InRestart(s)
  }

  lemma {:induction false} InRestartAfter(max: int, s: System, a: Action)
    ensures var w, w' := InRestart(s), InRestart(Do(max, s, a));
            if BeginsRestart(s, a) then CTA.OneMore(w, w') else if EndsRestart(s, a) then CTA.OneMore(w', w) else w' == w
  {
    var t := Do(max, s, a);
    if BeginsRestart(s, a) {
      assert InRestart(t) == InRestart(s) + {a.id};
    } else if EndsRestart(s, a) {
      assert InRestart(s) == InRestart(t) + {a.id};
    } else {
      assert InRestart(t) == InRestart(s);
    }
  }

  lemma {:induction false} RestartsCounted(max: int, s: System, a: Action)
    ensures var t := Do(max, s, a);
            && t.attempts == s.attempts + (if BeginsRestart(s, a) then 1 else 0)
            && t.restarts == s.restarts + (if EndsRestart(s, a) then 1 else 0)
  {
  }

  lemma {:induction false} StepConserves(max: int, s: System, a: Action)
    requires Conserved(s)
    ensures Conserved(Do(max, s, a))
  {
    var w, w' := InRestart(s), InRestart(Do(max, s, a));
    InRestartAfter(max, s, a);
    RestartsCounted(max, s, a);
    if BeginsRestart(s, a) {
      CTA.OneMoreCounts(w, w');
    } else if EndsRestart(s, a) {
      CTA.OneMoreCounts(w', w);
    }
  }

  lemma {:induction false} OneMorePeriod(n: nat, m: nat)
    ensures Allowed(n + 1, m) == Allowed(n, m) + m
  {
  }

  lemma {:induction false} StepCounters(max: int, s: System, a: Action)
    ensures var t := Do(max, s, a);
            && t.attempts == s.attempts + (if a.Increment? && a.id in Waiting(s) && a.ok then 1 else 0)
            && t.resets == s.resets + (if a.ResetCircuit? && a.ok && s.row.Some? then 1 else 0)
            && (t.row.Some? ==> s.row.Some?)
  {
  }

  lemma {:induction false} StepAccounts(max: int, s: System, a: Action, m: nat)
    requires Accounted(s, m)
    requires Restarts(s) + |Waiting(s)| <= m
    requires Restarts(Do(max, s, a)) + |Waiting(Do(max, s, a))| <= m
    ensures Accounted(Do(max, s, a), m)
  {
    WaitingAfter(max, s, a);
    StepCounters(max, s, a);
    StepIsAbstract(max, s, a);
    OneMorePeriod(s.resets, m);
    OneMorePeriod(s.resets + 1, m);
    if a.Snapshot? {
      assert Restarts(Do(max, s, a)) == Restarts(s);
    }
  }

  /** Whatever is deleted or reset meanwhile, in a run with at most k handlers waiting at a
      time Docker is asked to restart the container at most maxRestarts - 1 + k times for
      each period between resets. */
  lemma {:induction false} RestartsOverRun(max: nat, k: nat, actions: seq<Action>)
    requires 1 <= k && AtMostWaiting(k, max, FRESH, actions)
    ensures var e := Exec(max, FRESH, actions);
            Accounted(e, max - 1 + k) && Conserved(e) && e.restarts <= Allowed(e.resets + 1, max - 1 + k)
  {
    if actions == [] {
      assert Waiting(FRESH) == {} && InRestart(FRESH) == {};
    } else {
      var n := |actions| - 1;
      var before := actions[..n];
      forall i | 0 <= i <= n
        ensures |Waiting(Exec(max, FRESH, before[..i]))| <= k
      {
        assert before[..i] == actions[..i];
      }
      RestartsOverRun(max, k, before);
      assert Waiting(FRESH) == {};
      RestartBound(max, k, FRESH, before);
      RestartBound(max, k, FRESH, actions);
      StepAccounts(max, Exec(max, FRESH, before), actions[n], max - 1 + k);
      StepConserves(max, Exec(max, FRESH, before), actions[n]);
    }
  }
}
