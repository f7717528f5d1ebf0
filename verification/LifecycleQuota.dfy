/**
 The plan's container limit, when creations overlap.
 */
module LifecycleQuota {
  import opened Common
  import opened Lifecycle
  import CTA = CheckThenAct

  // The user of a creation that has passed the plan check and can still commit.
  function Creator(c: Call): Option<int> {
    match c
    case Admitted(user, _, _) => Some(user)
    case WithFolder(user, _, _) => Some(user)
    case WithContainer(user, _, _, _) => Some(user)
    case Started(user, _, _, _, _) => Some(user)
    case WithRow(_, _, row) => Some(row.user)
    case _ => None
  }

  function Creations(s: System, user: int): set<int> {
    set p | p in s.calls && Creator(s.calls[p]) == Some(user)
  }

  function Limit(s: System, user: int): int {
    if user in s.plans then s.plans[user] else 0
  }

  ghost function Abs(s: System, user: int): CTA.State {
    CTA.State(|RowsOf(s, user)|, |Creations(s, user)|)
  }

  predicate Admits(s: System, a: Action, user: int) {
    a.Check? && a.user == user && a.p !in s.calls && a.ok && user in s.plans && |RowsOf(s, user)| < s.plans[user]
  }

  // What an action that leads from s to t is to the counter.
  ghost function Counts(s: System, t: System, a: Action, user: int): CTA.Action {
    if a.CommitRemove? || a.DeleteUser? then CTA.Lose(|RowsOf(s, user) - RowsOf(t, user)|)
    else if a.Check? then if Admits(s, a, user) then CTA.Admit else CTA.Skip
    else if (Prepares(a) || Records(a)) && a.p in Creations(s, user) && a.p !in Creations(t, user) then
      if a.CommitCreate? && a.ok then CTA.Act else CTA.GiveUp
    else CTA.Skip
  }

  ghost function AbsAction(s: System, a: Action, user: int): CTA.Action {
    Counts(s, Do(s, a), a, user)
  }

  ghost predicate Effect(s: System, t: System, a: Action, user: int) {
    CTA.Moves(RowsOf(s, user), RowsOf(t, user), Creations(s, user), Creations(t, user), Counts(s, t, a, user))
  }

  lemma {:induction false} CheckIs(s: System, a: Action)
    requires a.Check?
    ensures Do(s, a) == if Admits(s, a, a.user) then Goes(s, a.p, Admitted(a.user, a.leaf, a.withPort)) else s
  {
  }

  lemma {:induction false} OneMoreCreation(s: System, p: int, c: Call, user: int)
    requires p !in s.calls && Creator(c).Some?
    ensures RowsOf(Goes(s, p, c), user) == RowsOf(s, user)
    ensures Creations(Goes(s, p, c), user) == Creations(s, user) + if Creator(c).value == user then {p} else {}
  {
  }

  lemma {:induction false} CheckEffect(s: System, a: Action, user: int)
    requires a.Check?
    ensures Effect(s, Do(s, a), a, user)
  {
    CheckIs(s, a);
    if Admits(s, a, a.user) {
      OneMoreCreation(s, a.p, Admitted(a.user, a.leaf, a.withPort), user);
    }
  }

  // No row changes, and no call but one, which does not become a creation.
  ghost predicate OnlyCall(s: System, t: System, p: int) {
    && t.rows == s.rows && t.plans == s.plans
    && (forall q | q != p :: q in t.calls <==> q in s.calls)
    && (forall q | q in s.calls && q != p :: t.calls[q] == s.calls[q])
    && (p in t.calls && Creator(t.calls[p]).Some? ==>
          p in s.calls && Creator(s.calls[p]) == Creator(t.calls[p]))
  }

  lemma {:induction false} PrepareIsOneCall(s: System, a: Action)
    requires Prepares(a) && !a.Check?
    ensures OnlyCall(s, PrepareStep(s, a), a.p)
  {
  }

  lemma {:induction false} RecordIsOneCall(s: System, a: Action)
    requires Records(a) && !(a.CommitCreate? && a.ok)
    ensures OnlyCall(s, RecordStep(s, a), a.p)
  {
    if a.Inspect? || a.Insert? {
      InsertIsOneCall(s, a);
    }
  }

  lemma {:induction false} InsertIsOneCall(s: System, a: Action)
    requires a.Inspect? || a.Insert?
    ensures OnlyCall(s, RecordStep(s, a), a.p)
  {
  }

  lemma {:induction false} OneCallCounts(s: System, t: System, p: int, user: int)
    requires OnlyCall(s, t, p)
    ensures RowsOf(t, user) == RowsOf(s, user)
    ensures p in Creations(s, user) && p !in Creations(t, user) ==> Creations(s, user) == Creations(t, user) + {p}
    ensures !(p in Creations(s, user) && p !in Creations(t, user)) ==> Creations(t, user) == Creations(s, user)
  {
    forall q | q != p
      ensures q in Creations(s, user) <==> q in Creations(t, user)
    {
      assert q in t.calls <==> q in s.calls;
    }
    assert p in Creations(t, user) ==> p in Creations(s, user);
  }

  lemma {:induction false} OneCallEffect(s: System, t: System, a: Action, user: int)
    requires (Prepares(a) || Records(a)) && !a.Check? && !(a.CommitCreate? && a.ok)
    requires OnlyCall(s, t, a.p)
    ensures Effect(s, t, a, user)
  {
    OneCallCounts(s, t, a.p, user);
    OneFewer(RowsOf(s, user), Creations(s, user), Creations(t, user), a.p);
    hide OnlyCall, RowsOf, Creations, CTA.Moves;
  }

  lemma {:induction false} OneFewer(rows: set<int>, w: set<int>, w': set<int>, p: int)
    ensures p in w && p !in w' && w == w' + {p} ==> CTA.Moves(rows, rows, w, w', CTA.GiveUp)
    ensures w' == w ==> CTA.Moves(rows, rows, w, w', CTA.Skip)
  {
  }

  lemma {:induction false} CreatesEffect(s: System, a: Action, user: int)
    requires Prepares(a) || Records(a)
    requires !a.Check? && !(a.CommitCreate? && a.ok)
    ensures Effect(s, Do(s, a), a, user)
  {
    if Prepares(a) {
      PrepareIsOneCall(s, a);
      OneCallEffect(s, PrepareStep(s, a), a, user);
    } else {
      RecordIsOneCall(s, a);
      OneCallEffect(s, RecordStep(s, a), a, user);
    }
  }

  lemma {:induction false} RowAdded(s: System, t: System, p: int, user: int)
    requires p in s.calls && s.calls[p].WithRow? && s.calls[p].id !in s.rows
    requires t.rows == s.rows[s.calls[p].id := s.calls[p].row] && t.calls == s.calls - {p}
    ensures var mine := s.calls[p].row.user == user;
            && RowsOf(t, user) == RowsOf(s, user) + (if mine then {s.calls[p].id} else {})
            && Creations(s, user) == Creations(t, user) + (if mine then {p} else {})
            && (s.calls[p].id !in RowsOf(s, user)) && p !in Creations(t, user)
  {
  }

  lemma {:induction false} CommitEffect(s: System, a: Action, user: int)
    requires Ok(s) && a.CommitCreate? && a.ok
    ensures Effect(s, Do(s, a), a, user)
  {
    var t := RecordStep(s, a);
    if t != s {
      var c := s.calls[a.p];
      assert CallOk(s, a.p);
      RowAdded(s, t, a.p, user);
    }
  }

  lemma {:induction false} ChangeStepIsOneCall(s: System, a: Action)
    requires Changes(a) && !a.CommitChange?
    ensures OnlyCall(s, ChangeStep(s, a), a.p)
  {
    hide Locked;
    if a.UpdateRow? || a.DockerActs? {
      GoingOnIsOneCall(s, a);
    }
  }

  lemma {:induction false} GoingOnIsOneCall(s: System, a: Action)
    requires a.UpdateRow? || a.DockerActs?
    ensures OnlyCall(s, ChangeStep(s, a), a.p)
  {
    hide Locked;
  }

  lemma {:induction false} CommitChangeCounts(s: System, a: Action, user: int)
    requires a.CommitChange?
    ensures RowsOf(ChangeStep(s, a), user) == RowsOf(s, user)
    ensures Creations(ChangeStep(s, a), user) == Creations(s, user)
  {
  }

  lemma {:induction false} ChangeEffect(s: System, a: Action, user: int)
    requires Changes(a)
    ensures Effect(s, Do(s, a), a, user)
  {
    var t := Do(s, a);
    if a.CommitChange? {
      CommitChangeCounts(s, a, user);
    } else {
      hide Locked;
      ChangeStepIsOneCall(s, a);
      OneCallCounts(s, t, a.p, user);
      assert a.p in Creations(s, user) ==> t == s;
    }
  }

  lemma {:induction false} RemoveIsOneCall(s: System, a: Action)
    requires a.ReadToRemove? || a.DockerRemoves?
    ensures OnlyCall(s, RemoveStep(s, a), a.p)
  {
  }

  lemma {:induction false} DropIsOneCall(s: System, a: Action)
    requires a.CommitRemove?
    ensures OnlyCall(s, RemoveStep(s, a).(rows := s.rows), a.p)
    ensures forall id | id in RemoveStep(s, a).rows :: id in s.rows && RemoveStep(s, a).rows[id] == s.rows[id]
  {
  }

  lemma {:induction false} RemoveEffect(s: System, a: Action, user: int)
    requires Removes(a)
    ensures Effect(s, Do(s, a), a, user)
  {
    var t := RemoveStep(s, a);
    if a.DeleteUser? {
      assert Creations(t, user) == Creations(s, user);
      assert RowsOf(t, user) <= RowsOf(s, user);
    } else {
      assert a.p in Creations(s, user) ==> t == s;
      if a.CommitRemove? {
        DropIsOneCall(s, a);
        OneCallCounts(s, t.(rows := s.rows), a.p, user);
        assert Creations(t, user) == Creations(t.(rows := s.rows), user);
      } else {
        RemoveIsOneCall(s, a);
        OneCallCounts(s, t, a.p, user);
      }
    }
  }

  lemma {:induction false} AloneEffect(s: System, a: Action, user: int)
    requires a.Runs? || a.WriteStatus?
    ensures Effect(s, Do(s, a), a, user)
  {
    var t := Do(s, a);
    assert RowsOf(t, user) == RowsOf(s, user);
    assert Creations(t, user) == Creations(s, user);
  }

  lemma {:induction false} StepHasEffect(s: System, a: Action, user: int)
    requires Ok(s)
    ensures Effect(s, Do(s, a), a, user)
  {
    match a
    case Check(_, _, _, _, _) => CheckEffect(s, a, user);
    case CommitCreate(_, ok) => if ok { CommitEffect(s, a, user); } else { CreatesEffect(s, a, user); }
    case ReadToStart(_, _, _) => ChangeEffect(s, a, user);
    case ReadToStop(_, _) => ChangeEffect(s, a, user);
    case UpdateRow(_, _) => ChangeEffect(s, a, user);
    case DockerActs(_, _) => ChangeEffect(s, a, user);
    case CommitChange(_, _) => ChangeEffect(s, a, user);
    case ReadToRemove(_, _, _) => RemoveEffect(s, a, user);
    case CommitRemove(_, _) => RemoveEffect(s, a, user);
    case DockerRemoves(_, _) => RemoveEffect(s, a, user);
    case DeleteUser(_) => RemoveEffect(s, a, user);
    case Runs(_, _) => AloneEffect(s, a, user);
    case WriteStatus(_, _) => AloneEffect(s, a, user);
    case _ => CreatesEffect(s, a, user);
  }

  lemma {:induction false} StepIsAbstract(s: System, a: Action, user: int)
    requires Ok(s)
    ensures Abs(Do(s, a), user) == CTA.Do(Limit(s, user), Abs(s, user), AbsAction(s, a, user))
  {
    var t, x := Do(s, a), AbsAction(s, a, user);
    StepHasEffect(s, a, user);
    assert x.Lose? ==> x.n == |RowsOf(s, user) - RowsOf(t, user)|;
    assert x.Admit? ==> |RowsOf(s, user)| < Limit(s, user);
    CTA.MovesCount(Limit(s, user), RowsOf(s, user), RowsOf(t, user), Creations(s, user), Creations(t, user), x);
  }

  lemma {:induction false} CreatingKeepsPlans(s: System, a: Action)
    ensures Prepares(a) ==> PrepareStep(s, a).plans == s.plans
    ensures Records(a) ==> RecordStep(s, a).plans == s.plans
  {
  }

  lemma {:induction false} StepKeepsPlans(s: System, a: Action)
    ensures Do(s, a).plans == s.plans
  {
    CreatingKeepsPlans(s, a);
    assert ChangeStep(s, a).plans == s.plans;
    assert RemoveStep(s, a).plans == s.plans;
  }

  lemma {:induction false} PlansStay(s: System, actions: seq<Action>)
    ensures Exec(s, actions).plans == s.plans
  {
    if actions != [] {
      PlansStay(s, actions[..|actions| - 1]);
      StepKeepsPlans(Exec(s, actions[..|actions| - 1]), actions[|actions| - 1]);
    }
  }

  ghost function AbsActions(s: System, actions: seq<Action>, user: int): (r: seq<CTA.Action>)
    ensures |r| == |actions|
  {
    if actions == [] then []
    else
      var before := actions[..|actions| - 1];
      AbsActions(s, before, user) + [AbsAction(Exec(s, before), actions[|actions| - 1], user)]
  }

  lemma {:induction false} RunIsAbstract(s: System, actions: seq<Action>, user: int)
    requires Initial(s)
    ensures Abs(Exec(s, actions), user)
            == CTA.Exec(Limit(s, user), CTA.State(0, 0), AbsActions(s, actions, user))
  {
    if actions == [] {
      assert RowsOf(s, user) == {} && Creations(s, user) == {};
    } else {
      var before := actions[..|actions| - 1];
      RunIsAbstract(s, before, user);
      RunsAreOk(s, before);
      PlansStay(s, before);
      StepIsAbstract(Exec(s, before), actions[|actions| - 1], user);
      var abs := AbsActions(s, actions, user);
      assert abs[..|abs| - 1] == AbsActions(s, before, user);
    }
  }

  lemma {:induction false} AbsPrefix(s: System, actions: seq<Action>, user: int, n: nat)
    requires n <= |actions|
    ensures AbsActions(s, actions, user)[..n] == AbsActions(s, actions[..n], user)
  {
    if n < |actions| {
      var before := actions[..|actions| - 1];
      AbsPrefix(s, before, user, n);
      assert before[..n] == actions[..n];
      assert AbsActions(s, actions, user)[..n] == AbsActions(s, before, user)[..n];
    } else {
      assert actions[..n] == actions;
    }
  }

  // At no point of the run are more than k creations of the user past the plan check.
  ghost predicate AtMostCreating(k: nat, s: System, actions: seq<Action>, user: int) {
    forall i | 0 <= i <= |actions| :: |Creations(Exec(s, actions[..i]), user)| <= k
  }

  /** With a fixed plan and at most k creations of a user under way at a time, the user's rows
      and creations stay within MaxContainers - 1 + k. */
  lemma {:induction false} QuotaBound(k: nat, s: System, actions: seq<Action>, user: int)
    requires Initial(s) && AtMostCreating(k, s, actions, user)
    requires user in s.plans && 0 <= s.plans[user] - 1 + k
    ensures var e := Exec(s, actions);
            |RowsOf(e, user)| + |Creations(e, user)| <= s.plans[user] - 1 + k
  {
    var abs := AbsActions(s, actions, user);
    forall i | 0 <= i <= |abs|
      ensures CTA.Exec(Limit(s, user), CTA.State(0, 0), abs[..i]).inFlight <= k
    {
      AbsPrefix(s, actions, user, i);
      RunIsAbstract(s, actions[..i], user);
    }
    RunIsAbstract(s, actions, user);
    CTA.Overshoot(Limit(s, user), k, CTA.State(0, 0), abs);
  }

  /** A user who creates one container at a time never has more than the plan allows. */
  lemma {:induction false} SerialQuota(s: System, actions: seq<Action>, user: int)
    requires Initial(s) && AtMostCreating(1, s, actions, user)
    requires user in s.plans && 0 <= s.plans[user]
    ensures |RowsOf(Exec(s, actions), user)| <= s.plans[user]
  {
    QuotaBound(1, s, actions, user);
  }
}
