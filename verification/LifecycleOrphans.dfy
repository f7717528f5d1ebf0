/**
 Containers that Docker has and no row names: where they come from.
 */
module LifecycleOrphans {
  import opened Common
  import opened Lifecycle

  ghost predicate NamedByRow(s: System, cid: string) {
    exists id :: id in s.rows && s.rows[id].cid == cid
  }

  // A creation under way still holds the container, or a removal is about to take it down.
  predicate HeldBy(c: Call, cid: string) {
    (Private(c) || c.Removed?) && Cid(c) == Some(cid)
  }

  ghost predicate Held(s: System, cid: string) {
    exists p :: p in s.calls && HeldBy(s.calls[p], cid)
  }

  ghost predicate NoOrphan(s: System) {
    forall cid | cid in s.docker :: NamedByRow(s, cid) || Held(s, cid)
  }

  // The steps that leave a container behind: a removal that fails, deleting a user who has
  // containers, and CreateContainerWithPort failing once its container runs.
  predicate Leaks(s: System, a: Action) {
    match a
    case UndoContainer(p, ok) =>
      !ok && p in s.calls && s.calls[p].UndoingContainer? && s.calls[p].cid in s.docker
    case DockerRemoves(p, ok) =>
      !ok && p in s.calls && s.calls[p].Removed? && s.calls[p].cid in s.docker
    case DeleteUser(user) => !AnyLocked(s, user) && exists id | id in s.rows :: s.rows[id].user == user
    case _ => FailsLate(s, a)
  }

  // CreateContainerWithPort fails with its container running.
  predicate FailsLate(s: System, a: Action) {
    (a.Inspect? || a.Insert? || a.CommitCreate?) && !a.ok && a.p in s.calls
    && match s.calls[a.p]
       case Started(_, _, withPort, _, port) => withPort && (if port.None? then a.Inspect? else a.Insert?)
       case WithRow(withPort, _, _) => withPort && a.CommitCreate?
       case _ => false
  }

  ghost predicate Kept(s: System, cid: string) {
    NamedByRow(s, cid) || Held(s, cid)
  }

  lemma {:induction false} HeldStill(s: System, t: System, p: int, cid: string)
    requires Kept(s, cid)
    requires forall id | id in s.rows :: id in t.rows && t.rows[id].cid == s.rows[id].cid
    requires forall q | q in s.calls && q != p :: q in t.calls && t.calls[q] == s.calls[q]
    requires p in s.calls && HeldBy(s.calls[p], cid) ==> p in t.calls && HeldBy(t.calls[p], cid)
    ensures Kept(t, cid)
  {
    if id :| id in s.rows && s.rows[id].cid == cid {
      assert id in t.rows && t.rows[id].cid == cid;
    } else {
      var q :| q in s.calls && HeldBy(s.calls[q], cid);
      assert q in t.calls && HeldBy(t.calls[q], cid);
    }
  }

  lemma {:induction false} PrepareLeaksNothing(s: System, a: Action, cid: string)
    requires Prepares(a) && cid in PrepareStep(s, a).docker && (cid in s.docker ==> Kept(s, cid))
    ensures Kept(PrepareStep(s, a), cid)
  {
    var t := PrepareStep(s, a);
    if t != s {
      if cid in s.docker {
        HeldStill(s, t, a.p, cid);
      } else {
        assert HeldBy(t.calls[a.p], cid);
      }
    }
  }

  lemma {:induction false} CommitLeaksNothing(s: System, a: Action, cid: string)
    requires Ok(s) && a.CommitCreate? && a.ok
    requires cid in RecordStep(s, a).docker && Kept(s, cid)
    ensures Kept(RecordStep(s, a), cid)
  {
    var t := RecordStep(s, a);
    if t != s {
      assert CallOk(s, a.p);
      if HeldBy(s.calls[a.p], cid) {
        assert t.rows[s.calls[a.p].id].cid == cid;
      } else {
        HeldStill(s, t, a.p, cid);
      }
    }
  }

  // What else a creation does changes no row, and its call holds on to the container.
  lemma {:induction false} RecordHolds(s: System, a: Action, cid: string)
    requires Records(a) && !Leaks(s, a) && !(a.CommitCreate? && a.ok) && cid in RecordStep(s, a).docker
    ensures var t := RecordStep(s, a);
            && t.rows == s.rows
            && (forall q | q in s.calls && q != a.p :: q in t.calls && t.calls[q] == s.calls[q])
            && (a.p in s.calls && HeldBy(s.calls[a.p], cid) ==> a.p in t.calls && HeldBy(t.calls[a.p], cid))
  {
  }

  lemma {:induction false} RecordLeaksNothing(s: System, a: Action, cid: string)
    requires Ok(s) && Records(a) && !Leaks(s, a)
    requires cid in RecordStep(s, a).docker && Kept(s, cid)
    ensures Kept(RecordStep(s, a), cid)
  {
    if a.CommitCreate? && a.ok {
      CommitLeaksNothing(s, a, cid);
    } else {
      RecordHolds(s, a, cid);
      HeldStill(s, RecordStep(s, a), a.p, cid);
    }
  }

  lemma {:induction false} ChangeLeaksNothing(s: System, a: Action, cid: string)
    requires Ok(s) && Changes(a)
    requires cid in ChangeStep(s, a).docker && Kept(s, cid)
    ensures Kept(ChangeStep(s, a), cid)
  {
    var t := ChangeStep(s, a);
    if t != s {
      assert a.p in s.calls ==> CallOk(s, a.p);
      HeldStill(s, t, a.p, cid);
    }
  }

  lemma {:induction false} NobodyToDelete(s: System, user: int)
    requires forall id | id in s.rows :: s.rows[id].user != user
    ensures forall id | id in s.rows :: id in (s.rows - RowsOf(s, user))
  {
    assert forall id | id in s.rows :: id !in RowsOf(s, user);
  }

  lemma {:induction false} DeletionLeaksNothing(s: System, a: Action, cid: string)
    requires a.DeleteUser? && !Leaks(s, a) && Kept(s, cid)
    ensures Kept(RemoveStep(s, a), cid)
  {
    if !AnyLocked(s, a.user) {
      NobodyToDelete(s, a.user);
    }
    HeldStill(s, RemoveStep(s, a), 0, cid);
  }

  lemma {:induction false} CommittedRemovalLeaksNothing(s: System, a: Action, cid: string)
    requires Ok(s) && a.CommitRemove? && Kept(s, cid)
    ensures Kept(RemoveStep(s, a), cid)
  {
    var t := RemoveStep(s, a);
    if t != s {
      assert CallOk(s, a.p);
      if t.rows == s.rows {
        HeldStill(s, t, a.p, cid);
      } else if s.calls[a.p].cid == cid {
        assert HeldBy(t.calls[a.p], cid);
      } else {
        OthersHeld(s, t, a.p, s.calls[a.p].id, cid);
      }
    }
  }

  lemma {:induction false} RemoveLeaksNothing(s: System, a: Action, cid: string)
    requires Ok(s) && Removes(a) && !Leaks(s, a)
    requires cid in RemoveStep(s, a).docker && Kept(s, cid)
    ensures Kept(RemoveStep(s, a), cid)
  {
    if a.DeleteUser? {
      DeletionLeaksNothing(s, a, cid);
    } else if a.CommitRemove? {
      CommittedRemovalLeaksNothing(s, a, cid);
    } else {
      HeldStill(s, RemoveStep(s, a), a.p, cid);
    }
  }

  lemma {:induction false} OthersHeld(s: System, t: System, p: int, gone: int, cid: string)
    requires Kept(s, cid) && t.rows == s.rows - {gone} && (gone in s.rows ==> s.rows[gone].cid != cid)
    requires forall q | q in s.calls && q != p :: q in t.calls && t.calls[q] == s.calls[q]
    requires p in s.calls ==> !HeldBy(s.calls[p], cid)
    ensures Kept(t, cid)
  {
    if id :| id in s.rows && s.rows[id].cid == cid {
      assert id in t.rows && t.rows[id].cid == cid;
    } else {
      var q :| q in s.calls && HeldBy(s.calls[q], cid);
      assert q in t.calls && HeldBy(t.calls[q], cid);
    }
  }

  lemma {:induction false} OwnLeaksNothing(s: System, a: Action, cid: string)
    requires cid in OwnStep(s, a).docker && Kept(s, cid)
    ensures Kept(OwnStep(s, a), cid)
  {
    var t := OwnStep(s, a);
    if id :| id in s.rows && s.rows[id].cid == cid {
      assert id in t.rows && t.rows[id].cid == cid;
    } else {
      var q :| q in s.calls && HeldBy(s.calls[q], cid);
      assert q in t.calls && HeldBy(t.calls[q], cid);
    }
  }

  lemma {:induction false} StepLeaksNothing(s: System, a: Action)
    requires Ok(s) && NoOrphan(s) && !Leaks(s, a)
    ensures NoOrphan(Do(s, a))
  {
    var t := Do(s, a);
    forall cid | cid in t.docker
      ensures Kept(t, cid)
    {
      if Prepares(a) {
        PrepareLeaksNothing(s, a, cid);
      } else {
        NothingNew(s, a, cid);
        if Records(a) {
          RecordLeaksNothing(s, a, cid);
        } else if Changes(a) {
          ChangeLeaksNothing(s, a, cid);
        } else if Removes(a) {
          RemoveLeaksNothing(s, a, cid);
        } else {
          OwnLeaksNothing(s, a, cid);
        }
      }
    }
  }

  // Only ContainerCreate makes a container.
  lemma {:induction false} NothingNew(s: System, a: Action, cid: string)
    requires !Prepares(a) && cid in Do(s, a).docker
    ensures cid in s.docker
  {
    assert Records(a) ==> RecordStep(s, a).docker.Keys <= s.docker.Keys;
    assert ChangeStep(s, a).docker.Keys <= s.docker.Keys;
    assert RemoveStep(s, a).docker.Keys <= s.docker.Keys;
  }

  ghost predicate LeakFree(s: System, actions: seq<Action>) {
    forall i | 0 <= i < |actions| :: !Leaks(Exec(s, actions[..i]), actions[i])
  }

  lemma {:induction false} RunLeaksNothing(s: System, actions: seq<Action>)
    requires Initial(s) && LeakFree(s, actions)
    ensures NoOrphan(Exec(s, actions))
  {
    if actions != [] {
      var n := |actions| - 1;
      forall i | 0 <= i < n
        ensures !Leaks(Exec(s, actions[..n][..i]), actions[..n][i])
      {
        assert actions[..n][..i] == actions[..i];
      }
      RunLeaksNothing(s, actions[..n]);
      RunsAreOk(s, actions[..n]);
      StepLeaksNothing(Exec(s, actions[..n]), actions[n]);
    }
  }

  /** Orphans come from the leaking steps alone: without them, and once no call is under way,
      Docker's containers are exactly the ones the rows name. */
  lemma {:induction false} WithoutLeaksTheyAgree(s: System, actions: seq<Action>)
    requires Initial(s) && LeakFree(s, actions) && Exec(s, actions).calls == map[]
    ensures var e := Exec(s, actions); forall cid :: cid in e.docker <==> NamedByRow(e, cid)
  {
    var e := Exec(s, actions);
    RunLeaksNothing(s, actions);
    RunsAreOk(s, actions);
    forall cid
      ensures cid in e.docker <==> NamedByRow(e, cid)
    {
      assert cid in e.docker ==> !Held(e, cid) && (NamedByRow(e, cid) || Held(e, cid));
      if id :| id in e.rows && e.rows[id].cid == cid {
        assert RowOk(e, id);
      }
    }
  }

  /** When CreateContainerWithPort fails after its container was started, the container always
      stays behind, and nothing in the service knows of it any more. */
  lemma {:induction false} FailingLateLeaksAnOrphan(s: System, a: Action)
    requires Ok(s) && FailsLate(s, a)
    ensures var t, cid := Do(s, a), Cid(s.calls[a.p]).value;
            cid in t.docker && !NamedByRow(t, cid) && forall q | q in t.calls :: Cid(t.calls[q]) != Some(cid)
  {
    var t := RecordStep(s, a);
    assert CallOk(s, a.p);
    assert t == Ends(s, a.p);
  }

  // ------------------------------------------------------------------ orphans stay

  ghost predicate Orphan(s: System, cid: string) {
    cid in s.docker && !Kept(s, cid)
  }

  // The containers of two removals differ.
  ghost predicate RemovedOnce(s: System) {
    forall p, q | p in s.calls && q in s.calls && s.calls[p].Removed? && s.calls[q].Removed?
                  && s.calls[p].cid == s.calls[q].cid :: p == q
  }

  // Nothing newly names or holds the container, and it is not removed.
  ghost predicate LeavesAlone(s: System, t: System, cid: string) {
    && cid in t.docker
    && (forall id | id in t.rows && t.rows[id].cid == cid :: id in s.rows && s.rows[id].cid == cid)
    && (forall p | p in t.calls && HeldBy(t.calls[p], cid) :: p in s.calls && HeldBy(s.calls[p], cid))
  }

  lemma {:induction false} LeftAloneStays(s: System, t: System, cid: string)
    requires Orphan(s, cid) && LeavesAlone(s, t, cid)
    ensures Orphan(t, cid)
  {
    if id :| id in t.rows && t.rows[id].cid == cid {
      assert NamedByRow(s, cid);
      assert false;
    }
    if p :| p in t.calls && HeldBy(t.calls[p], cid) {
      assert Held(s, cid);
      assert false;
    }
  }

  lemma {:induction false} PrepareLeavesAlone(s: System, a: Action, cid: string)
    requires Ok(s) && Prepares(a) && Orphan(s, cid)
    ensures LeavesAlone(s, PrepareStep(s, a), cid)
  {
    assert cid in s.made;
  }

  // A call that does not hold the container changes nothing about it.
  lemma {:induction false} RecordLeavesAlone(s: System, a: Action, cid: string)
    requires Ok(s) && Records(a) && Orphan(s, cid)
    ensures LeavesAlone(s, RecordStep(s, a), cid)
  {
    assert a.p in s.calls ==> !HeldBy(s.calls[a.p], cid);
    if a.CommitCreate? || a.UndoContainer? {
      CommitLeavesAlone(s, a, cid);
    }
  }

  lemma {:induction false} CommitLeavesAlone(s: System, a: Action, cid: string)
    requires (a.CommitCreate? || a.UndoContainer?) && cid in s.docker && (a.p in s.calls ==> !HeldBy(s.calls[a.p], cid))
    ensures LeavesAlone(s, RecordStep(s, a), cid)
  {
  }

  lemma {:induction false} ChangeLeavesAlone(s: System, a: Action, cid: string)
    requires Ok(s) && Changes(a) && Orphan(s, cid)
    ensures LeavesAlone(s, ChangeStep(s, a), cid)
  {
    hide Locked, RowOk;
    if a.CommitChange? && a.p in s.calls {
      assert CallOk(s, a.p);
    }
  }

  lemma {:induction false} RemoveLeavesAlone(s: System, a: Action, cid: string)
    requires Ok(s) && Removes(a) && Orphan(s, cid)
    ensures LeavesAlone(s, RemoveStep(s, a), cid)
  {
    hide Locked, AnyLocked, RowOk;
    if a.DockerRemoves? || a.ReadToRemove? {
      RemovedLeavesAlone(s, a, cid);
    } else if a.CommitRemove? && a.p in s.calls {
      assert CallOk(s, a.p);
    }
  }

  lemma {:induction false} RemovedLeavesAlone(s: System, a: Action, cid: string)
    requires (a.DockerRemoves? || a.ReadToRemove?) && Orphan(s, cid)
    ensures LeavesAlone(s, RemoveStep(s, a), cid)
  {
    if a.DockerRemoves? && a.p in s.calls {
      assert !HeldBy(s.calls[a.p], cid);
    }
  }

  /** What is an orphan stays one, whatever happens. */
  lemma {:induction false} OrphansStay(s: System, a: Action, cid: string)
    requires Ok(s) && Orphan(s, cid)
    ensures Orphan(Do(s, a), cid)
  {
    if Prepares(a) {
      PrepareLeavesAlone(s, a, cid);
    } else if Records(a) {
      RecordLeavesAlone(s, a, cid);
    } else if Changes(a) {
      ChangeLeavesAlone(s, a, cid);
    } else if Removes(a) {
      RemoveLeavesAlone(s, a, cid);
    } else {
      assert LeavesAlone(s, OwnStep(s, a), cid);
    }
    LeftAloneStays(s, Do(s, a), cid);
  }

  // ------------------------------------------------------------------ every leak makes one

  lemma {:induction false} StepKeepsRemovedOnce(s: System, a: Action)
    requires Ok(s) && RemovedOnce(s)
    ensures RemovedOnce(Do(s, a))
  {
    if a.CommitRemove? {
      if a.p in s.calls {
        var t := RemoveStep(s, a);
        assert CallOk(s, a.p);
        forall q | q in s.calls && q != a.p && s.calls[q].Removed? && a.p in t.calls && t.calls[a.p].Removed?
          ensures s.calls[q].cid != t.calls[a.p].cid
        {
          assert CallOk(s, q);
        }
      }
    } else {
      NobodyNewRemoved(s, a);
    }
  }

  // Only the commit of a removal makes a call one that has removed its row.
  ghost predicate NoneNewRemoved(s: System, t: System) {
    forall p | p in t.calls && t.calls[p].Removed? :: p in s.calls && s.calls[p] == t.calls[p]
  }

  lemma {:induction false} PrepareRemovesNothing(s: System, a: Action)
    requires Prepares(a)
    ensures NoneNewRemoved(s, PrepareStep(s, a))
  {
  }

  lemma {:induction false} RecordRemovesNothing(s: System, a: Action)
    requires Records(a)
    ensures NoneNewRemoved(s, RecordStep(s, a))
  {
  }

  lemma {:induction false} NobodyNewRemoved(s: System, a: Action)
    requires !a.CommitRemove?
    ensures NoneNewRemoved(s, Do(s, a))
  {
    if Prepares(a) {
      PrepareRemovesNothing(s, a);
    } else if Records(a) {
      RecordRemovesNothing(s, a);
    } else {
      assert Changes(a) ==> NoneNewRemoved(s, ChangeStep(s, a));
      assert Removes(a) ==> NoneNewRemoved(s, RemoveStep(s, a));
    }
  }

  lemma {:induction false} LeakMakesOrphan(s: System, a: Action) returns (cid: string)
    requires Ok(s) && RemovedOnce(s) && Leaks(s, a)
    ensures Orphan(Do(s, a), cid)
  {
    var t := Do(s, a);
    if a.DeleteUser? {
      var id :| id in s.rows && s.rows[id].user == a.user;
      cid := s.rows[id].cid;
      UserLeavesOrphan(s, a.user, id);
    } else if a.DockerRemoves? {
      cid := s.calls[a.p].cid;
      RemovalLeavesOrphan(s, a);
    } else {
      cid := Cid(s.calls[a.p]).value;
      CreationLeavesOrphan(s, a);
    }
  }

  lemma {:induction false} UserLeavesOrphan(s: System, user: int, id: int)
    requires Ok(s) && id in RowsOf(s, user) && !AnyLocked(s, user)
    ensures Orphan(RemoveStep(s, DeleteUser(user)), s.rows[id].cid)
  {
    var t, cid := RemoveStep(s, DeleteUser(user)), s.rows[id].cid;
    assert RowOk(s, id);
    forall p | p in t.calls
      ensures !HeldBy(t.calls[p], cid)
    {
      assert CallOk(s, p);
    }
  }

  lemma {:induction false} RemovalLeavesOrphan(s: System, a: Action)
    requires Ok(s) && RemovedOnce(s) && a.DockerRemoves? && Leaks(s, a)
    ensures Orphan(RemoveStep(s, a), s.calls[a.p].cid)
  {
    var t, cid := RemoveStep(s, a), s.calls[a.p].cid;
    assert CallOk(s, a.p);
    forall p | p in t.calls
      ensures !HeldBy(t.calls[p], cid)
    {
      if p != a.p {
        assert CallOk(s, p);
      }
    }
  }

  lemma {:induction false} CreationLeavesOrphan(s: System, a: Action)
    requires Ok(s) && (a.UndoContainer? || FailsLate(s, a)) && Leaks(s, a)
    ensures Orphan(RecordStep(s, a), Cid(s.calls[a.p]).value)
  {
    var t, cid := RecordStep(s, a), Cid(s.calls[a.p]).value;
    assert CallOk(s, a.p);
    assert forall p | p in t.calls && p != a.p :: t.calls[p] == s.calls[p] && Cid(s.calls[p]) != Some(cid);
  }

  lemma {:induction false} RunsRemoveOnce(s: System, actions: seq<Action>)
    requires Initial(s)
    ensures RemovedOnce(Exec(s, actions))
  {
    if actions != [] {
      var n := |actions| - 1;
      RunsRemoveOnce(s, actions[..n]);
      RunsAreOk(s, actions[..n]);
      StepKeepsRemovedOnce(Exec(s, actions[..n]), actions[n]);
    }
  }

  // A leak at step i is an orphan ever after.
  lemma {:induction false} LeakLasts(s: System, actions: seq<Action>, i: nat) returns (cid: string)
    requires Initial(s) && i < |actions| && Leaks(Exec(s, actions[..i]), actions[i])
    ensures Orphan(Exec(s, actions), cid)
  {
    var n := |actions| - 1;
    RunsAreOk(s, actions[..n]);
    if i == n {
      RunsRemoveOnce(s, actions[..n]);
      cid := LeakMakesOrphan(Exec(s, actions[..n]), actions[n]);
    } else {
      assert actions[..n][..i] == actions[..i];
      cid := LeakLasts(s, actions[..n], i);
      OrphansStay(Exec(s, actions[..n]), actions[n], cid);
    }
  }

  // Docker has exactly the containers that rows name.
  ghost predicate Agree(s: System) {
    forall cid :: cid in s.docker <==> NamedByRow(s, cid)
  }

  /** Once no call is under way, rows and Docker agree exactly when no step of the run leaked. */
  lemma {:induction false} AgreeExactlyWithoutLeaks(s: System, actions: seq<Action>)
    requires Initial(s) && Exec(s, actions).calls == map[]
    ensures Agree(Exec(s, actions)) <==> LeakFree(s, actions)
  {
    if LeakFree(s, actions) {
      WithoutLeaksTheyAgree(s, actions);
    } else {
      var i :| 0 <= i < |actions| && Leaks(Exec(s, actions[..i]), actions[i]);
      var cid := LeakLasts(s, actions, i);
      assert cid in Exec(s, actions).docker && !NamedByRow(Exec(s, actions), cid);
    }
  }
}
