/**
 A counter guarded by a check that is not atomic with the act it guards.

 An actor is admitted when it sees the counter below the limit, and acts (adds one)
 or gives up some time later. Crash handlers, container creations and e-mail token
 creations all follow this shape; each of those modules maps its own runs here.
 */
module CheckThenAct {

  // count: units recorded so far; inFlight: actors admitted that have not acted yet.
  datatype State = State(count: nat, inFlight: nat)

  datatype Action =
    | Admit
    | Renew         // an actor clears the counter and is admitted at once
    | Act
    | GiveUp
    | Lose(n: nat)  // units disappear: a reset, a deletion, a consumption
    | Skip

  // Any sequence of actions is a run: an action that is not enabled changes nothing.
  function Do(limit: int, s: State, a: Action): State {
    match a
    case Admit => if s.count < limit then s.(inFlight := s.inFlight + 1) else s
    case Renew => if 0 < limit then State(0, s.inFlight + 1) else s
    case Act => if s.inFlight > 0 then State(s.count + 1, s.inFlight - 1) else s
    case GiveUp => if s.inFlight > 0 then s.(inFlight := s.inFlight - 1) else s
    case Lose(n) => if n <= s.count then s.(count := s.count - n) else s
    case Skip => s
  }

  function Exec(limit: int, s: State, actions: seq<Action>): State {
    if actions == [] then s
    else Do(limit, Exec(limit, s, actions[..|actions| - 1]), actions[|actions| - 1])
  }

  // At no point of the run are more than k actors between their check and their act.
  ghost predicate AtMost(k: nat, limit: int, s: State, actions: seq<Action>) {
    forall i | 0 <= i <= |actions| :: Exec(limit, s, actions[..i]).inFlight <= k
  }

  /** The overshoot bound: with at most k overlapping actors, what is recorded plus what
      is still admitted stays within k - 1 of the limit. */
  lemma {:induction false} Overshoot(limit: int, k: nat, s: State, actions: seq<Action>)
    requires s.count + s.inFlight <= limit - 1 + k
    requires AtMost(k, limit, s, actions)
    ensures var e := Exec(limit, s, actions); e.count + e.inFlight <= limit - 1 + k
  {
    if actions != [] {
      var before := actions[..|actions| - 1];
      AtMostPrefix(k, limit, s, actions, |before|);
      Overshoot(limit, k, s, before);
      assert actions[..|actions|] == actions;
    }
  }

  lemma {:induction false} AtMostPrefix(k: nat, limit: int, s: State, actions: seq<Action>, n: nat)
    requires n <= |actions|
    requires AtMost(k, limit, s, actions)
    ensures AtMost(k, limit, s, actions[..n])
  {
    forall i | 0 <= i <= n
      ensures Exec(limit, s, actions[..n][..i]).inFlight <= k
    {
      assert actions[..n][..i] == actions[..i];
    }
  }

  // ------------------------------------------------------------------ counters that count sets

  // t is s with one more element.
  ghost predicate OneMore<T(!new)>(s: set<T>, t: set<T>) {
    exists x :: x !in s && t == s + {x}
  }

  lemma {:induction false} OneMoreCounts<T(!new)>(s: set<T>, t: set<T>)
    requires OneMore(s, t)
    ensures |t| == |s| + 1
  {
    var x :| x !in s && t == s + {x};
  }

  lemma {:induction false} Subset<T>(s: set<T>, t: set<T>)
    requires s <= t
    ensures |s| <= |t|
  {
    assert |t - s| == |t| - |s|;
  }

  // What a step does to the units recorded and to the actors admitted.
  ghost predicate Moves<A(!new), B(!new)>(live: set<A>, live': set<A>, pending: set<B>, pending': set<B>, x: Action) {
    match x
    case Admit => live' == live && OneMore(pending, pending')
    case Renew => live' == {} && OneMore(pending, pending')
    case Act => OneMore(live, live') && OneMore(pending', pending)
    case GiveUp => live' == live && OneMore(pending', pending)
    case Lose(n) => pending' == pending && live' <= live
    case Skip => live' == live && pending' == pending
  }

  lemma {:induction false} MovesCount<A(!new), B(!new)>(limit: int, live: set<A>, live': set<A>,
                                                        pending: set<B>, pending': set<B>, x: Action)
    requires Moves(live, live', pending, pending', x)
    requires x.Admit? ==> |live| < limit
    requires x.Renew? ==> 0 < limit
    requires x.Lose? ==> x.n == |live - live'|
    ensures State(|live'|, |pending'|) == Do(limit, State(|live|, |pending|), x)
  {
    match x
    case Admit =>
      OneMoreCounts(pending, pending');
    case Renew =>
      OneMoreCounts(pending, pending');
    case Act =>
      OneMoreCounts(live, live');
      OneMoreCounts(pending', pending);
    case GiveUp =>
      OneMoreCounts(pending', pending);
    case Lose(n) =>
      assert |live - live'| == |live| - |live'|;
    case Skip =>
  }

  // ------------------------------------------------------------------ the bound is reached

  function Repeat(a: Action, n: nat): (r: seq<Action>)
    ensures |r| == n
    ensures forall i | 0 <= i < n :: r[i] == a
  {
    seq(n, _ => a)
  }

  lemma {:induction false} ExecConcat(limit: int, s: State, a: seq<Action>, b: seq<Action>)
    ensures Exec(limit, s, a + b) == Exec(limit, Exec(limit, s, a), b)
  {
    if b == [] {
      assert a + b == a;
    } else {
      var ab := a + b;
      assert ab[..|ab| - 1] == a + b[..|b| - 1];
      ExecConcat(limit, s, a, b[..|b| - 1]);
    }
  }

  // n actors one after the other, each checking and acting before the next one starts.
  function OneByOne(n: nat): seq<Action> {
    if n == 0 then [] else OneByOne(n - 1) + [Admit, Act]
  }

  lemma {:induction false} OneMoreAction(limit: int, k: nat, s: State, actions: seq<Action>, a: Action)
    requires AtMost(k, limit, s, actions) && Do(limit, Exec(limit, s, actions), a).inFlight <= k
    ensures AtMost(k, limit, s, actions + [a])
    ensures Exec(limit, s, actions + [a]) == Do(limit, Exec(limit, s, actions), a)
  {
    var all := actions + [a];
    assert all[..|actions|] == actions;
    forall i | 0 <= i <= |all|
      ensures Exec(limit, s, all[..i]).inFlight <= k
    {
      if i <= |actions| {
        assert all[..i] == actions[..i];
      } else {
        assert all[..i] == all;
      }
    }
  }

  lemma {:induction false} OneByOneRun(limit: int, k: nat, n: nat)
    requires 1 <= k && n <= limit
    ensures Exec(limit, State(0, 0), OneByOne(n)) == State(n, 0)
    ensures AtMost(k, limit, State(0, 0), OneByOne(n))
  {
    if n == 0 {
    } else {
      hide AtMost, Exec;
      OneByOneRun(limit, k, n - 1);
      var prev := OneByOne(n - 1);
      OneMoreAction(limit, k, State(0, 0), prev, Admit);
      OneMoreAction(limit, k, State(0, 0), prev + [Admit], Act);
      assert OneByOne(n) == prev + [Admit] + [Act];
    }
  }

  lemma {:induction false} AdmitMany(limit: int, s: State, n: nat)
    requires s.count < limit
    ensures Exec(limit, s, Repeat(Admit, n)) == s.(inFlight := s.inFlight + n)
  {
    if n > 0 {
      assert Repeat(Admit, n)[..n - 1] == Repeat(Admit, n - 1);
      AdmitMany(limit, s, n - 1);
    }
  }

  lemma {:induction false} ActMany(limit: int, s: State, n: nat)
    requires n <= s.inFlight
    ensures Exec(limit, s, Repeat(Act, n)) == State(s.count + n, s.inFlight - n)
  {
    if n > 0 {
      assert Repeat(Act, n)[..n - 1] == Repeat(Act, n - 1);
      ActMany(limit, s, n - 1);
    }
  }

  // The run that overshoots the most: all but one unit serially, then k actors check together.
  function WorstRun(limit: nat, k: nat): seq<Action>
    requires 1 <= limit
  {
    OneByOne(limit - 1) + Repeat(Admit, k) + Repeat(Act, k)
  }

  lemma {:induction false} AfterSerial(limit: nat, k: nat, n: nat)
    requires 1 <= limit && 1 <= k
    ensures Exec(limit, State(0, 0), OneByOne(limit - 1) + Repeat(Admit, n)) == State(limit - 1, n)
  {
    OneByOneRun(limit, k, limit - 1);
    ExecConcat(limit, State(0, 0), OneByOne(limit - 1), Repeat(Admit, n));
    AdmitMany(limit, State(limit - 1, 0), n);
  }

  lemma {:induction false} AfterAdmitted(limit: nat, k: nat, n: nat)
    requires 1 <= limit && 1 <= k && n <= k
    ensures Exec(limit, State(0, 0), OneByOne(limit - 1) + Repeat(Admit, k) + Repeat(Act, n))
            == State(limit - 1 + n, k - n)
  {
    AfterSerial(limit, k, k);
    ExecConcat(limit, State(0, 0), OneByOne(limit - 1) + Repeat(Admit, k), Repeat(Act, n));
    ActMany(limit, State(limit - 1, k), n);
  }

  lemma {:induction false} WorstRunPrefix(limit: nat, k: nat, i: nat)
    requires 1 <= limit && 1 <= k && i <= |WorstRun(limit, k)|
    ensures Exec(limit, State(0, 0), WorstRun(limit, k)[..i]).inFlight <= k
  {
    var w, a := WorstRun(limit, k), OneByOne(limit - 1);
    if i <= |a| {
      OneByOneRun(limit, k, limit - 1);
      assert w[..i] == a[..i];
    } else if i <= |a| + k {
      assert w[..i] == a + Repeat(Admit, i - |a|);
      AfterSerial(limit, k, i - |a|);
    } else {
      assert w[..i] == a + Repeat(Admit, k) + Repeat(Act, i - |a| - k);
      AfterAdmitted(limit, k, i - |a| - k);
    }
  }

  /** The bound of Overshoot is reached for every limit and every k, so it cannot be improved. */
  lemma {:induction false} OvershootIsTight(limit: nat, k: nat)
    requires 1 <= limit && 1 <= k
    ensures AtMost(k, limit, State(0, 0), WorstRun(limit, k))
    ensures Exec(limit, State(0, 0), WorstRun(limit, k)) == State(limit - 1 + k, 0)
  {
    forall i | 0 <= i <= |WorstRun(limit, k)|
      ensures Exec(limit, State(0, 0), WorstRun(limit, k)[..i]).inFlight <= k
    {
      WorstRunPrefix(limit, k, i);
    }
    AfterAdmitted(limit, k, k);
  }
}
