/**
 The e-mail tokens of repository/tokenRepo.go: verification and password links.

 Create is two statements, Consume is one. A token is named by its hash, which the table
 holds unique; generated tokens are random, so a hash is never generated twice.
 */
module Tokens {
  import opened Common
  import CTA = CheckThenAct

  datatype Kind = EmailVerification | PasswordReset

  datatype Row = Row(user: int, kind: Kind, expires: int, usedAt: Option<int>)

  // A Create call: it has generated a token, and has or has not yet run its first statement.
  datatype Creator = Creator(user: int, kind: Kind, hash: string, ttl: int, invalidated: bool)

  datatype Use = Use(hash: string, user: int, kind: Kind, at: int)

  // made: every row as it was inserted; uses: the successful Consume calls, in order.
  datatype System = System(
    rows: map<string, Row>, clock: int, creators: map<int, Creator>,
    issued: set<string>, made: map<string, Row>, uses: seq<Use>)

  datatype Action =
    | Generate(id: int, user: int, kind: Kind, hash: string, ttl: int)
    | Invalidate(id: int, ok: bool)
    | Insert(id: int, ok: bool)
    | Consume(hash: string, kind: Kind, ok: bool)
    | Tick(seconds: nat)
    | DeleteUser(user: int)

  predicate Unused(r: Row, user: int, kind: Kind) {
    r.user == user && r.kind == kind && r.usedAt.None?
  }

  // The UPDATE of Create.
  function Invalidated(rows: map<string, Row>, user: int, kind: Kind, now: int): map<string, Row> {
    map h | h in rows :: if Unused(rows[h], user, kind) then rows[h].(usedAt := Some(now)) else rows[h]
  }

  // The WHERE clause of Consume.
  predicate Usable(rows: map<string, Row>, hash: string, kind: Kind, now: int) {
    hash in rows && rows[hash].kind == kind && rows[hash].usedAt.None? && rows[hash].expires > now
  }

  function Do(s: System, a: Action): System {
    match a
    case Generate(id, user, kind, hash, ttl) =>
      if id in s.creators || hash in s.issued then s
      else s.(creators := s.creators[id := Creator(user, kind, hash, ttl, false)], issued := s.issued + {hash})
    case Invalidate(id, ok) =>
      // a failure is ignored
      if id in s.creators && !s.creators[id].invalidated then
        var c := s.creators[id];
        s.(creators := s.creators[id := c.(invalidated := true)],
           rows := if ok then Invalidated(s.rows, c.user, c.kind, s.clock) else s.rows)
      else s
    case Insert(id, ok) =>
      if id in s.creators && s.creators[id].invalidated then
        var c := s.creators[id];
        var t := s.(creators := s.creators - {id});
        if ok && c.hash !in s.rows then
          var r := Row(c.user, c.kind, s.clock + c.ttl, None);
          t.(rows := s.rows[c.hash := r], made := s.made[c.hash := r])
        else t
      else s
    case Consume(hash, kind, ok) =>
      if ok && Usable(s.rows, hash, kind, s.clock) then
        s.(rows := s.rows[hash := s.rows[hash].(usedAt := Some(s.clock))],
           uses := s.uses + [Use(hash, s.rows[hash].user, kind, s.clock)])
      else s
    case Tick(seconds) => s.(clock := s.clock + seconds)
    case DeleteUser(user) => s.(rows := map h | h in s.rows && s.rows[h].user != user :: s.rows[h])
  }

  function Exec(s: System, actions: seq<Action>): System {
    if actions == [] then s
    else Do(Exec(s, actions[..|actions| - 1]), actions[|actions| - 1])
  }

  const EMPTY := System(map[], 0, map[], {}, map[], [])

  // ------------------------------------------------------------------ at most one use

  ghost predicate CreatorOk(s: System, id: int)
    requires id in s.creators
  {
    var h := s.creators[id].hash;
    && h in s.issued && h !in s.rows && h !in s.made
    && forall j | j in s.creators && j != id :: s.creators[j].hash != h
  }

  ghost predicate RowOk(s: System, h: string)
    requires h in s.rows
  {
    h in s.made && s.made[h] == s.rows[h].(usedAt := None)
  }

  // A use is of a token of its user and kind, made before and not expired, and it was the last one.
  ghost predicate UseOk(s: System, i: nat)
    requires i < |s.uses|
  {
    var u := s.uses[i];
    && u.hash in s.made
    && s.made[u.hash].user == u.user && s.made[u.hash].kind == u.kind && u.at < s.made[u.hash].expires
    && (u.hash in s.rows ==> s.rows[u.hash].usedAt.Some?)
    && forall j | i < j < |s.uses| :: s.uses[j].hash != u.hash
  }

  ghost predicate Ok(s: System) {
    && s.made.Keys <= s.issued
    && (forall id | id in s.creators :: CreatorOk(s, id))
    && (forall h | h in s.rows :: RowOk(s, h))
    && (forall i | 0 <= i < |s.uses| :: UseOk(s, i))
  }

  lemma {:induction false} StepKeepsUses(s: System, a: Action)
    requires Ok(s)
    ensures var t := Do(s, a); forall i | 0 <= i < |t.uses| :: UseOk(t, i)
  {
    var t := Do(s, a);
    forall i | 0 <= i < |t.uses|
      ensures UseOk(t, i)
    {
      if i < |s.uses| {
        assert UseOk(s, i);
        if a.Insert? && a.id in s.creators {
          assert CreatorOk(s, a.id);
        }
      } else {
        assert RowOk(s, a.hash);
      }
    }
  }

  lemma {:induction false} StepKeepsOk(s: System, a: Action)
    requires Ok(s)
    ensures Ok(Do(s, a))
  {
    var t := Do(s, a);
    StepKeepsUses(s, a);
    forall h | h in t.rows
      ensures RowOk(t, h)
    {
      assert h in s.rows ==> RowOk(s, h);
      if a.Insert? && a.id in s.creators {
        assert CreatorOk(s, a.id);
      }
    }
    forall id | id in t.creators
      ensures CreatorOk(t, id)
    {
      assert id in s.creators ==> CreatorOk(s, id);
    }
  }

  /** In every interleaving, a token is used at most once, by the user and for the purpose it
      was made for, and before it expires. */
  lemma {:induction false} UsedAtMostOnce(actions: seq<Action>)
    ensures Ok(Exec(EMPTY, actions))
  {
    if actions != [] {
      UsedAtMostOnce(actions[..|actions| - 1]);
      StepKeepsOk(Exec(EMPTY, actions[..|actions| - 1]), actions[|actions| - 1]);
    }
  }

  // The token can no longer be used.
  ghost predicate Dead(s: System, h: string) {
    && h in s.made
    && (h in s.rows ==> s.rows[h].usedAt.Some?)
  }

  lemma {:induction false} StepKeepsDead(s: System, a: Action, h: string)
    requires Ok(s) && Dead(s, h)
    ensures var t := Do(s, a);
            Dead(t, h) && (t.uses == s.uses || (t.uses == s.uses + [t.uses[|s.uses|]] && t.uses[|s.uses|].hash != h))
  {
    if a.Insert? && a.id in s.creators {
      assert CreatorOk(s, a.id);
    }
  }

  /** A link that was used, replaced or deleted stays dead, whatever happens next. */
  lemma {:induction false} DeadStaysDead(before: seq<Action>, after: seq<Action>, h: string)
    requires Dead(Exec(EMPTY, before), h)
    ensures var s, t := Exec(EMPTY, before), Exec(EMPTY, before + after);
            && Dead(t, h)
            && s.uses <= t.uses
            && forall i | |s.uses| <= i < |t.uses| :: t.uses[i].hash != h
  {
    if after == [] {
      assert before + after == before;
    } else {
      var n := |after| - 1;
      var all := before + after;
      assert all[..|all| - 1] == before + after[..n];
      DeadStaysDead(before, after[..n], h);
      UsedAtMostOnce(before + after[..n]);
      StepKeepsDead(Exec(EMPTY, before + after[..n]), after[n], h);
    }
  }

  // ------------------------------------------------------------------ how many links work at a time

  function Live(s: System, user: int, kind: Kind): set<string> {
    set h | h in s.rows && Unused(s.rows[h], user, kind)
  }

  // The Create calls between their two statements.
  function Pending(s: System, user: int, kind: Kind): set<int> {
    set id | id in s.creators && s.creators[id].user == user && s.creators[id].kind == kind
             && s.creators[id].invalidated
  }

  ghost function Abs(s: System, user: int, kind: Kind): CTA.State {
    CTA.State(|Live(s, user, kind)|, |Pending(s, user, kind)|)
  }

  predicate Concerns(s: System, id: int, user: int, kind: Kind) {
    id in s.creators && s.creators[id].user == user && s.creators[id].kind == kind
  }

  // How many links an action takes away.
  ghost function Lost(s: System, a: Action, user: int, kind: Kind): nat {
    |Live(s, user, kind) - Live(Do(s, a), user, kind)|
  }

  ghost function AbsAction(s: System, a: Action, user: int, kind: Kind): CTA.Action {
    match a
    case Invalidate(id, ok) =>
      if Concerns(s, id, user, kind) && !s.creators[id].invalidated then CTA.Renew else CTA.Skip
    case Insert(id, ok) =>
      if id !in Pending(s, user, kind) then CTA.Skip
      else if ok && s.creators[id].hash !in s.rows then CTA.Act else CTA.GiveUp
    case Consume(_, _, _) => CTA.Lose(Lost(s, a, user, kind))
    case DeleteUser(_) => CTA.Lose(Lost(s, a, user, kind))
    case _ => CTA.Skip
  }

  ghost predicate Effect(s: System, t: System, a: Action, user: int, kind: Kind) {
    CTA.Moves(Live(s, user, kind), Live(t, user, kind), Pending(s, user, kind), Pending(t, user, kind),
          AbsAction(s, a, user, kind))
  }

  lemma {:induction false} InvalidateEffect(s: System, a: Action, user: int, kind: Kind)
    requires a.Invalidate? && a.ok
    ensures Effect(s, Do(s, a), a, user, kind)
  {
    if AbsAction(s, a, user, kind).Renew? {
      assert Pending(Do(s, a), user, kind) == Pending(s, user, kind) + {a.id};
    }
  }

  lemma {:induction false} InsertEffect(s: System, a: Action, user: int, kind: Kind)
    requires a.Insert?
    ensures Effect(s, Do(s, a), a, user, kind)
  {
    var t := Do(s, a);
    if a.id in Pending(s, user, kind) {
      assert Pending(s, user, kind) == Pending(t, user, kind) + {a.id};
      if AbsAction(s, a, user, kind).Act? {
        assert Live(t, user, kind) == Live(s, user, kind) + {s.creators[a.id].hash};
      }
    }
  }

  lemma {:induction false} OtherEffect(s: System, a: Action, user: int, kind: Kind)
    requires a.Generate? || a.Tick? || a.Consume? || a.DeleteUser?
    ensures Effect(s, Do(s, a), a, user, kind)
  {
    var t := Do(s, a);
    assert Pending(t, user, kind) == Pending(s, user, kind);
    assert a.Generate? || a.Tick? ==> Live(t, user, kind) == Live(s, user, kind);
    assert Live(t, user, kind) <= Live(s, user, kind);
  }

  lemma {:induction false} StepIsAbstract(s: System, a: Action, user: int, kind: Kind)
    requires a.Invalidate? ==> a.ok
    ensures Abs(Do(s, a), user, kind) == CTA.Do(1, Abs(s, user, kind), AbsAction(s, a, user, kind))
  {
    match a {
      case Invalidate(_, _) => InvalidateEffect(s, a, user, kind);
      case Insert(_, _) => InsertEffect(s, a, user, kind);
      case _ => OtherEffect(s, a, user, kind);
    }
    var t := Do(s, a);
    CTA.MovesCount(1, Live(s, user, kind), Live(t, user, kind), Pending(s, user, kind), Pending(t, user, kind),
                   AbsAction(s, a, user, kind));
  }

  ghost function AbsActions(s: System, actions: seq<Action>, user: int, kind: Kind): (r: seq<CTA.Action>)
    ensures |r| == |actions|
  {
    if actions == [] then []
    else
      var before := actions[..|actions| - 1];
      AbsActions(s, before, user, kind) + [AbsAction(Exec(s, before), actions[|actions| - 1], user, kind)]
  }

  ghost predicate InvalidationsWork(actions: seq<Action>) {
    forall i | 0 <= i < |actions| :: actions[i].Invalidate? ==> actions[i].ok
  }

  lemma {:induction false} RunIsAbstract(actions: seq<Action>, user: int, kind: Kind)
    requires InvalidationsWork(actions)
    ensures Abs(Exec(EMPTY, actions), user, kind)
            == CTA.Exec(1, CTA.State(0, 0), AbsActions(EMPTY, actions, user, kind))
  {
    if actions == [] {
      assert Live(EMPTY, user, kind) == {} && Pending(EMPTY, user, kind) == {};
    } else {
      var before := actions[..|actions| - 1];
      RunIsAbstract(before, user, kind);
      StepIsAbstract(Exec(EMPTY, before), actions[|actions| - 1], user, kind);
      var abs := AbsActions(EMPTY, actions, user, kind);
      assert abs[..|abs| - 1] == AbsActions(EMPTY, before, user, kind);
    }
  }

  lemma {:induction false} AbsPrefix(actions: seq<Action>, user: int, kind: Kind, n: nat)
    requires n <= |actions|
    ensures AbsActions(EMPTY, actions, user, kind)[..n] == AbsActions(EMPTY, actions[..n], user, kind)
  {
    if n < |actions| {
      var before := actions[..|actions| - 1];
      AbsPrefix(before, user, kind, n);
      assert before[..n] == actions[..n];
      assert AbsActions(EMPTY, actions, user, kind)[..n] == AbsActions(EMPTY, before, user, kind)[..n];
    } else {
      assert actions[..n] == actions;
    }
  }

  ghost predicate AtMostPending(k: nat, actions: seq<Action>, user: int, kind: Kind) {
    forall i | 0 <= i <= |actions| :: |Pending(Exec(EMPTY, actions[..i]), user, kind)| <= k
  }

  /** When invalidations succeed and at most k Create calls of a user and kind are between
      their two statements at a time, at most k links work or are about to. */
  lemma {:induction false} LiveBound(k: nat, actions: seq<Action>, user: int, kind: Kind)
    requires InvalidationsWork(actions) && AtMostPending(k, actions, user, kind)
    ensures var e := Exec(EMPTY, actions); |Live(e, user, kind)| + |Pending(e, user, kind)| <= k
  {
    var abs := AbsActions(EMPTY, actions, user, kind);
    forall i | 0 <= i <= |abs|
      ensures CTA.Exec(1, CTA.State(0, 0), abs[..i]).inFlight <= k
    {
      AbsPrefix(actions, user, kind, i);
      RunIsAbstract(actions[..i], user, kind);
    }
    RunIsAbstract(actions, user, kind);
    CTA.Overshoot(1, k, CTA.State(0, 0), abs);
  }

  // ------------------------------------------------------------------ the repository

  // The machine with these rows, and no call under way.
  function Idle(rows: map<string, Row>, now: int): System {
    System(rows, now, map[], {}, map[], [])
  }

  // The steps of a Create call that nothing interferes with.
  function CreateSteps(s: System, user: int, kind: Kind, hash: string, ttl: int, invalidates: bool, inserts: bool): System {
    Do(Do(Do(s, Generate(0, user, kind, hash, ttl)), Invalidate(0, invalidates)), Insert(0, inserts))
  }

  lemma {:induction false} CreateRun(rows: map<string, Row>, now: int, user: int, kind: Kind, hash: string, ttl: int,
                                     invalidates: bool, inserts: bool)
    ensures var left := if invalidates then Invalidated(rows, user, kind, now) else rows;
            CreateSteps(Idle(rows, now), user, kind, hash, ttl, invalidates, inserts).rows
            == if inserts && hash !in rows then left[hash := Row(user, kind, now + ttl, None)] else left
  {
    var s1 := Do(Idle(rows, now), Generate(0, user, kind, hash, ttl));
    assert s1.creators == map[0 := Creator(user, kind, hash, ttl, false)] && s1.rows == rows;
    var s2 := Do(s1, Invalidate(0, invalidates));
    assert s2.creators == map[0 := Creator(user, kind, hash, ttl, true)];
  }

  /** The repository as the code has it, each call by itself: its rows go through the machine's steps. */
  class TokenRepo {
    var rows: map<string, Row>

    constructor ()
      ensures rows == map[]
    {
      rows := map[];
    }

    ghost function LiveRows(user: int, kind: Kind): set<string>
      reads this
    {
      set h | h in rows && Unused(rows[h], user, kind)
    }

    // When both statements work, the new link is the only live one. When the first one fails,
    // which is ignored, the older links stay alive beside it.
    method Create(user: int, kind: Kind, hash: string, ttl: int, now: int, invalidates: bool, inserts: bool)
      returns (ok: bool)
      modifies this
      ensures ok == (inserts && hash !in old(rows))
      ensures LiveRows(user, kind)
              == (if invalidates then {} else old(LiveRows(user, kind))) + (if ok then {hash} else {})
      ensures ok ==> (LiveRows(user, kind) == {hash} <==> invalidates || old(LiveRows(user, kind)) == {})
      ensures forall h | h in old(rows) && !Unused(old(rows)[h], user, kind) :: h in rows && rows[h] == old(rows)[h]
      ensures ok ==> hash in rows && rows[hash] == Row(user, kind, now + ttl, None)
      ensures rows.Keys == old(rows).Keys + if ok then {hash} else {}
      ensures rows == CreateSteps(Idle(old(rows), now), user, kind, hash, ttl, invalidates, inserts).rows
    {
      CreateRun(rows, now, user, kind, hash, ttl, invalidates, inserts);
      if invalidates {
        rows := Invalidated(rows, user, kind, now);
      }
      ok := inserts && hash !in rows;
      if ok {
        rows := rows[hash := Row(user, kind, now + ttl, None)];
      }
    }

    method Consume(hash: string, kind: Kind, now: int, works: bool) returns (user: Option<int>)
      modifies this
      ensures user.Some? <==> works && Usable(old(rows), hash, kind, now)
      ensures user.Some? ==>
                && user.value == old(rows)[hash].user
                && rows == old(rows)[hash := old(rows)[hash].(usedAt := Some(now))]
                && !Usable(rows, hash, kind, now)
      ensures user.None? ==> rows == old(rows)
      ensures var t := Do(Idle(old(rows), now), Action.Consume(hash, kind, works));
              && rows == t.rows
              && t.uses == if user.Some? then [Use(hash, user.value, kind, now)] else []
    {
      if works && Usable(rows, hash, kind, now) {
        user := Some(rows[hash].user);
        rows := rows[hash := rows[hash].(usedAt := Some(now))];
      } else {
        user := None;
      }
    }
  }
}
