/**
 Starts and stops that overlap: a row and its container change together, since each start and
 each stop locks the row until its transaction ends.
 */
module LifecycleLocks {
  import opened Common
  import opened Lifecycle

  predicate Up(row: Row) {
    row.status == "running"
  }

  // Docker has followed the call, whose transaction has not ended.
  predicate HasActed(c: Call, id: int) {
    c.Changing? && c.id == id && c.stage.Done?
  }

  // The row says that the container runs exactly when it does.
  predicate Agrees(s: System, id: int)
    requires id in s.rows && s.rows[id].cid in s.docker
  {
    Up(s.rows[id]) <==> s.docker[s.rows[id].cid]
  }

  // A start or stop whose commit fails after Docker acted leaves the row behind, if it was to
  // change; the next one that commits catches up.
  function BehindAfter(s: System, a: Action, id: int, behind: bool): bool {
    if a.CommitChange? && a.p in s.calls && HasActed(s.calls[a.p], id) && id in s.rows
    then !a.ok && (Up(s.calls[a.p].row) <==> !Up(s.rows[id]))
    else behind
  }

  function Behind(s: System, actions: seq<Action>, id: int): bool {
    if actions == [] then false
    else
      var before := actions[..|actions| - 1];
      BehindAfter(Exec(s, before), actions[|actions| - 1], id, Behind(s, before, id))
  }

  // ------------------------------------------------------------------ the lock

  // A row that is locked is there, and locked once; a container that a creation has started runs.
  ghost predicate HolderOk(s: System, p: int)
    requires p in s.calls
  {
    match s.calls[p]
    case Changing(id, row, stage) =>
      stage != Waiting ==>
        && id in s.rows && s.rows[id].cid == row.cid
        && forall q | q in s.calls && Holds(s.calls[q], id) :: q == p
    case Started(_, _, _, cid, _) => cid in s.docker && s.docker[cid]
    case WithRow(_, _, row) => row.cid in s.docker && s.docker[row.cid] && Up(row)
    case _ => true
  }

  ghost predicate LocksOk(s: System) {
    forall p | p in s.calls :: HolderOk(s, p)
  }

  // What row and container say of each other.
  ghost predicate Follows(s: System, id: int, behind: bool)
    requires id in s.rows ==> s.rows[id].cid in s.docker
  {
    && (id in s.rows ==>
          && (forall p | p in s.calls && HasActed(s.calls[p], id) :: s.docker[s.rows[id].cid] == Up(s.calls[p].row))
          && ((forall p | p in s.calls :: !HasActed(s.calls[p], id)) ==> (Agrees(s, id) <==> !behind)))
    && (behind ==> id in s.issued && forall p | p in s.calls && s.calls[p].WithRow? :: s.calls[p].id != id)
  }

  // ------------------------------------------------------------------ small changes

  // A step of one call that changes no row, and of Docker's containers at most this one.
  ghost predicate Touches(s: System, t: System, p: int, cid: Option<string>) {
    && t.rows == s.rows && s.issued <= t.issued
    && (forall q | q != p :: q in t.calls <==> q in s.calls)
    && (forall q | q in t.calls && q != p :: t.calls[q] == s.calls[q])
    && (forall d | d in s.docker && Some(d) != cid :: d in t.docker && t.docker[d] == s.docker[d])
  }

  // No row and no other creation under way has the container.
  ghost predicate Own(s: System, p: int, cid: Option<string>) {
    cid.Some? ==>
      && Unnamed(s, cid.value)
      && forall q | q in s.calls && q != p && Private(s.calls[q]) :: Cid(s.calls[q]) != cid
  }

  // The call has not acted, and what it inserts is new.
  predicate Modest(s: System, t: System, p: int) {
    && (p in s.calls ==> !(s.calls[p].Changing? && s.calls[p].stage.Done?))
    && (p in t.calls ==> !(t.calls[p].Changing? && t.calls[p].stage.Done?))
    && (p in t.calls && t.calls[p].WithRow? ==> t.calls[p].id !in s.issued)
  }

  lemma {:induction false} TouchKeepsLocks(s: System, t: System, p: int, cid: Option<string>)
    requires LocksOk(s) && Touches(s, t, p, cid) && Own(s, p, cid) && (p in t.calls ==> HolderOk(t, p))
    ensures LocksOk(t)
  {
    forall q | q in t.calls
      ensures HolderOk(t, q)
    {
      if q != p {
        assert HolderOk(s, q);
      }
    }
  }

  // A row that stays as it is, with its container and the calls that have acted on it.
  ghost predicate RowStays(s: System, t: System, id: int)
    requires id in s.rows ==> s.rows[id].cid in s.docker
  {
    && s.issued <= t.issued
    && (id in t.rows ==>
          && id in s.rows && t.rows[id] == s.rows[id]
          && s.rows[id].cid in t.docker && t.docker[s.rows[id].cid] == s.docker[s.rows[id].cid])
    && (forall q | q in s.calls && HasActed(s.calls[q], id) :: q in t.calls && t.calls[q] == s.calls[q])
    && (forall q | q in t.calls && HasActed(t.calls[q], id) :: q in s.calls && t.calls[q] == s.calls[q])
    && (forall q | q in t.calls && t.calls[q].WithRow? :: q in s.calls && t.calls[q] == s.calls[q])
  }

  lemma {:induction false} StaysFollows(s: System, t: System, id: int, behind: bool)
    requires id in s.rows ==> s.rows[id].cid in s.docker
    requires Follows(s, id, behind) && RowStays(s, t, id)
    ensures id in t.rows ==> t.rows[id].cid in t.docker
    ensures Follows(t, id, behind)
  {
  }

  lemma {:induction false} TouchFollows(s: System, t: System, p: int, cid: Option<string>, id: int, behind: bool)
    requires id in s.rows ==> s.rows[id].cid in s.docker
    requires Follows(s, id, behind) && Touches(s, t, p, cid) && Own(s, p, cid) && Modest(s, t, p)
    ensures id in t.rows ==> t.rows[id].cid in t.docker
    ensures Follows(t, id, behind)
  {
    assert forall q | q in s.calls && HasActed(s.calls[q], id) :: q in t.calls && t.calls[q] == s.calls[q];
  }

  ghost predicate Kept(s: System, id: int, behind: bool) {
    LocksOk(s) && (id in s.rows ==> s.rows[id].cid in s.docker) && Follows(s, id, behind)
  }

  lemma {:induction false} TouchKeeps(s: System, t: System, p: int, cid: Option<string>, id: int, behind: bool)
    requires Kept(s, id, behind) && Touches(s, t, p, cid) && Own(s, p, cid) && Modest(s, t, p)
    requires p in t.calls ==> HolderOk(t, p)
    ensures Kept(t, id, behind)
  {
    TouchKeepsLocks(s, t, p, cid);
    TouchFollows(s, t, p, cid, id, behind);
  }

  // ------------------------------------------------------------------ creations

  // The container that a step of a creation changes.
  function Changed(s: System, a: Action): Option<string>
    requires Prepares(a) || Records(a)
  {
    if a.ContainerCreate? then if a.ok then Some(a.cid) else None
    else if a.p in s.calls then Cid(s.calls[a.p])
    else None
  }

  lemma {:induction false} PrepareTouches(s: System, a: Action)
    requires Prepares(a)
    ensures Touches(s, PrepareStep(s, a), a.p, Changed(s, a))
  {
  }

  lemma {:induction false} PrepareHolder(s: System, a: Action)
    requires Ok(s) && LocksOk(s) && Prepares(a) && PrepareStep(s, a) != s
    ensures var t := PrepareStep(s, a); Own(s, a.p, Changed(s, a)) && Modest(s, t, a.p) && (a.p in t.calls ==> HolderOk(t, a.p))
  {
    if a.ContainerCreate? {
      assert forall id | id in s.rows :: RowOk(s, id);
      assert forall q | q in s.calls :: CallOk(s, q);
    } else if a.p in s.calls {
      assert CallOk(s, a.p);
    }
  }

  lemma {:induction false} RecordTouches(s: System, a: Action)
    requires Records(a) && !(a.CommitCreate? && a.ok)
    ensures Touches(s, RecordStep(s, a), a.p, Changed(s, a))
  {
  }

  lemma {:induction false} RecordHolder(s: System, a: Action)
    requires Ok(s) && LocksOk(s) && Records(a) && RecordStep(s, a) != s && !(a.CommitCreate? && a.ok)
    ensures var t := RecordStep(s, a); Own(s, a.p, Changed(s, a)) && Modest(s, t, a.p) && (a.p in t.calls ==> HolderOk(t, a.p))
  {
    assert CallOk(s, a.p);
  }

  lemma {:induction false} CreatingKeeps(s: System, a: Action, id: int, behind: bool)
    requires Ok(s) && Kept(s, id, behind) && (Prepares(a) || Records(a)) && !(a.CommitCreate? && a.ok)
    ensures Kept(Do(s, a), id, behind)
  {
    if Do(s, a) != s {
      if Prepares(a) {
        PrepareTouches(s, a);
        PrepareHolder(s, a);
      } else {
        RecordTouches(s, a);
        RecordHolder(s, a);
      }
      TouchKeeps(s, Do(s, a), a.p, Changed(s, a), id, behind);
    }
  }

  lemma {:induction false} CommitKeepsLocks(s: System, a: Action)
    requires Ok(s) && LocksOk(s) && a.CommitCreate? && a.ok
    ensures LocksOk(RecordStep(s, a))
  {
    var t := RecordStep(s, a);
    forall q | q in t.calls
      ensures HolderOk(t, q)
    {
      assert HolderOk(s, q);
    }
  }

  lemma {:induction false} CommitFollows(s: System, a: Action, id: int, behind: bool)
    requires Ok(s) && Kept(s, id, behind) && a.CommitCreate? && a.ok
    ensures var t := RecordStep(s, a); (id in t.rows ==> t.rows[id].cid in t.docker) && Follows(t, id, behind)
  {
    var t := RecordStep(s, a);
    if t != s {
      assert CallOk(s, a.p) && HolderOk(s, a.p);
      if id == s.calls[a.p].id {
        assert forall q | q in s.calls :: HolderOk(s, q);
      } else {
        StaysFollows(s, t, id, behind);
      }
    }
  }

  // ------------------------------------------------------------------ starts and stops

  lemma {:induction false} ReadKeepsLocks(s: System, a: Action, id: int, behind: bool)
    requires Ok(s) && Kept(s, id, behind) && (a.ReadToStart? || a.ReadToStop?)
    ensures Kept(ChangeStep(s, a), id, behind)
  {
    var t := ChangeStep(s, a);
    if t != s {
      TouchKeeps(s, t, a.p, None, id, behind);
    }
  }

  lemma {:induction false} UpdateKeepsLocks(s: System, a: Action, id: int, behind: bool)
    requires Ok(s) && Kept(s, id, behind) && a.UpdateRow?
    ensures Kept(ChangeStep(s, a), id, behind)
  {
    var t := ChangeStep(s, a);
    if t != s {
      assert CallOk(s, a.p);
      TouchKeeps(s, t, a.p, None, id, behind);
    }
  }

  lemma {:induction false} ActsKeepsLocks(s: System, a: Action)
    requires Ok(s) && LocksOk(s) && a.DockerActs?
    ensures LocksOk(ChangeStep(s, a))
  {
    var t := ChangeStep(s, a);
    if t != s {
      assert CallOk(s, a.p) && HolderOk(s, a.p);
      forall q | q in t.calls
        ensures HolderOk(t, q)
      {
        assert CallOk(s, q) && HolderOk(s, q);
      }
    }
  }

  lemma {:induction false} ActsFollows(s: System, a: Action, id: int, behind: bool)
    requires Ok(s) && Kept(s, id, behind) && a.DockerActs?
    ensures var t := ChangeStep(s, a); (id in t.rows ==> t.rows[id].cid in t.docker) && Follows(t, id, behind)
  {
    var t := ChangeStep(s, a);
    if t != s {
      assert CallOk(s, a.p) && HolderOk(s, a.p);
      if id != s.calls[a.p].id || a.p !in t.calls {
        StaysFollows(s, t, id, behind);
      } else {
        assert HasActed(t.calls[a.p], id);
      }
    }
  }

  lemma {:induction false} CommitChangeKeepsLocks(s: System, a: Action)
    requires Ok(s) && LocksOk(s) && a.CommitChange?
    ensures LocksOk(ChangeStep(s, a))
  {
    var t := ChangeStep(s, a);
    if t != s {
      assert HolderOk(s, a.p);
      forall q | q in t.calls
        ensures HolderOk(t, q)
      {
        assert HolderOk(s, q);
      }
    }
  }

  lemma {:induction false} CommitChangeFollows(s: System, a: Action, id: int, behind: bool)
    requires Ok(s) && Kept(s, id, behind) && a.CommitChange?
    ensures var t := ChangeStep(s, a);
            (id in t.rows ==> t.rows[id].cid in t.docker) && Follows(t, id, BehindAfter(s, a, id, behind))
  {
    var t := ChangeStep(s, a);
    if t != s {
      assert CallOk(s, a.p) && HolderOk(s, a.p);
      if id != s.calls[a.p].id {
        StaysFollows(s, t, id, behind);
      } else {
        assert HasActed(s.calls[a.p], id);
      }
    }
  }

  // ------------------------------------------------------------------ removals

  lemma {:induction false} ReadToRemoveKeepsLocks(s: System, a: Action, id: int, behind: bool)
    requires Ok(s) && Kept(s, id, behind) && a.ReadToRemove?
    ensures Kept(RemoveStep(s, a), id, behind)
  {
    var t := RemoveStep(s, a);
    if t != s {
      TouchKeeps(s, t, a.p, None, id, behind);
    }
  }

  lemma {:induction false} DockerRemovesKeepsLocks(s: System, a: Action, id: int, behind: bool)
    requires Ok(s) && Kept(s, id, behind) && a.DockerRemoves?
    ensures Kept(RemoveStep(s, a), id, behind)
  {
    var t := RemoveStep(s, a);
    if t != s {
      assert CallOk(s, a.p);
      assert forall q | q in s.calls :: CallOk(s, q);
      TouchKeeps(s, t, a.p, Some(s.calls[a.p].cid), id, behind);
    }
  }

  // Rows that nobody has locked go.
  lemma {:induction false} RowsGoKeepsLocks(s: System, rows: map<int, Row>, id: int, behind: bool)
    requires Kept(s, id, behind) && rows.Keys <= s.rows.Keys && forall j | j in rows :: rows[j] == s.rows[j]
    requires forall j | j in s.rows && j !in rows :: !Locked(s.calls, j)
    ensures Kept(s.(rows := rows), id, behind)
  {
    var t := s.(rows := rows);
    forall q | q in t.calls
      ensures HolderOk(t, q)
    {
      assert HolderOk(s, q);
    }
  }

  lemma {:induction false} DeleteUserKeepsLocks(s: System, a: Action, id: int, behind: bool)
    requires Kept(s, id, behind) && a.DeleteUser?
    ensures Kept(RemoveStep(s, a), id, behind)
  {
    if !AnyLocked(s, a.user) {
      RowsGoKeepsLocks(s, s.rows - RowsOf(s, a.user), id, behind);
    }
  }

  lemma {:induction false} CommitRemoveKeepsLocks(s: System, a: Action, id: int, behind: bool)
    requires Ok(s) && Kept(s, id, behind) && a.CommitRemove?
    ensures Kept(RemoveStep(s, a), id, behind)
  {
    var t := RemoveStep(s, a);
    if t != s {
      RowsGoKeepsLocks(s, t.rows, id, behind);
      TouchKeeps(s.(rows := t.rows), t, a.p, None, id, behind);
    }
  }

  // ------------------------------------------------------------------ every run

  // No container stops or starts by itself, and the recovery service writes no status.
  predicate Called(a: Action) {
    !a.Runs? && !a.WriteStatus?
  }

  lemma {:induction false} ChangeKeepsLocks(s: System, a: Action, id: int, behind: bool)
    requires Ok(s) && Kept(s, id, behind) && Changes(a)
    ensures Kept(ChangeStep(s, a), id, BehindAfter(s, a, id, behind))
  {
    match a
    case UpdateRow(_, _) => UpdateKeepsLocks(s, a, id, behind);
    case DockerActs(_, _) =>
      ActsKeepsLocks(s, a);
      ActsFollows(s, a, id, behind);
    case CommitChange(_, _) =>
      CommitChangeKeepsLocks(s, a);
      CommitChangeFollows(s, a, id, behind);
    case _ => ReadKeepsLocks(s, a, id, behind);
  }

  lemma {:induction false} RemoveKeepsLocks(s: System, a: Action, id: int, behind: bool)
    requires Ok(s) && Kept(s, id, behind) && Removes(a)
    ensures Kept(RemoveStep(s, a), id, behind)
  {
    match a
    case ReadToRemove(_, _, _) => ReadToRemoveKeepsLocks(s, a, id, behind);
    case CommitRemove(_, _) => CommitRemoveKeepsLocks(s, a, id, behind);
    case DockerRemoves(_, _) => DockerRemovesKeepsLocks(s, a, id, behind);
    case DeleteUser(_) => DeleteUserKeepsLocks(s, a, id, behind);
  }

  lemma {:induction false} StepKeepsLocks(s: System, a: Action, id: int, behind: bool)
    requires Ok(s) && Kept(s, id, behind) && Called(a)
    ensures Kept(Do(s, a), id, BehindAfter(s, a, id, behind))
  {
    if a.CommitCreate? && a.ok {
      CommitKeepsLocks(s, a);
      CommitFollows(s, a, id, behind);
    } else if Prepares(a) || Records(a) {
      CreatingKeeps(s, a, id, behind);
    } else if Changes(a) {
      ChangeKeepsLocks(s, a, id, behind);
    } else {
      RemoveKeepsLocks(s, a, id, behind);
    }
  }

  lemma {:induction false} RunsKeepLocks(s: System, actions: seq<Action>, id: int)
    requires Initial(s) && forall a | a in actions :: Called(a)
    ensures Kept(Exec(s, actions), id, Behind(s, actions, id))
  {
    if actions != [] {
      var before := actions[..|actions| - 1];
      RunsKeepLocks(s, before, id);
      RunsAreOk(s, before);
      StepKeepsLocks(Exec(s, before), actions[|actions| - 1], id, Behind(s, before, id));
    }
  }

  /** Under every interleaving of creations, starts, stops and removals, and whatever fails: no row
      is locked twice, and a row that no call has locked says that its container runs exactly when
      it does, unless the last start or stop in which Docker acted on it failed to commit a change
      of status. */
  lemma {:induction false} RowFollowsDocker(s: System, actions: seq<Action>, id: int)
    requires Initial(s) && forall a | a in actions :: Called(a)
    requires id in Exec(s, actions).rows && !Locked(Exec(s, actions).calls, id)
    ensures var e := Exec(s, actions);
            e.rows[id].cid in e.docker && (Agrees(e, id) <==> !Behind(s, actions, id))
  {
    RunsKeepLocks(s, actions, id);
    var e := Exec(s, actions);
    assert forall p | p in e.calls :: !Holds(e.calls[p], id);
    assert forall p | p in e.calls :: !HasActed(e.calls[p], id);
  }

  // Two calls never hold the same row.
  lemma {:induction false} LockedOnce(s: System, actions: seq<Action>, p: int, q: int, id: int)
    requires Initial(s) && forall a | a in actions :: Called(a)
    requires var e := Exec(s, actions); p in e.calls && q in e.calls && Holds(e.calls[p], id) && Holds(e.calls[q], id)
    ensures p == q && id in Exec(s, actions).rows
  {
    RunsKeepLocks(s, actions, id);
    assert HolderOk(Exec(s, actions), p);
  }

  // A commit that fails after Docker has acted on the row.
  predicate FailsToCommit(s: System, a: Action, id: int) {
    a.CommitChange? && !a.ok && a.p in s.calls && HasActed(s.calls[a.p], id)
  }

  ghost predicate CommitsWork(s: System, actions: seq<Action>, id: int) {
    forall i | 0 <= i < |actions| :: !FailsToCommit(Exec(s, actions[..i]), actions[i], id)
  }

  lemma {:induction false} NeverBehind(s: System, actions: seq<Action>, id: int)
    requires CommitsWork(s, actions, id)
    ensures !Behind(s, actions, id)
  {
    if actions != [] {
      var n := |actions| - 1;
      forall i | 0 <= i < n
        ensures !FailsToCommit(Exec(s, actions[..n][..i]), actions[..n][i], id)
      {
        assert actions[..n][..i] == actions[..i];
      }
      NeverBehind(s, actions[..n], id);
      assert !FailsToCommit(Exec(s, actions[..n]), actions[n], id);
    }
  }

  /** When no commit fails after Docker has acted on the row, the row and its container agree
      whenever no call has locked the row. */
  lemma {:induction false} RowsAndDockerAgree(s: System, actions: seq<Action>, id: int)
    requires Initial(s) && (forall a | a in actions :: Called(a)) && CommitsWork(s, actions, id)
    requires id in Exec(s, actions).rows && !Locked(Exec(s, actions).calls, id)
    ensures var e := Exec(s, actions); e.rows[id].cid in e.docker && Agrees(e, id)
  {
    NeverBehind(s, actions, id);
    RowFollowsDocker(s, actions, id);
  }
}
