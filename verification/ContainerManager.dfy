/**
 The calls of service/hostContainerService.go on containers, each by itself: what it leaves in
 the table, in Docker and on disk, whichever of its steps fails.
 */
module ContainerManagers {
  import opened Common
  import opened ContainerCalls
  import opened Lifecycle
  import U = UserContainers
  import A = AutoStop

  // The deferred functions of CreateContainer.
  datatype Deferred = Rollback | RemoveAll(leaf: Path) | StopAndRemove(cid: string)

  class ContainerManager {
    var rows: map<int, Row>
    var issued: set<int>
    var docker: map<string, bool>
    var made: set<string>
    var folders: set<Path>
    var plans: map<int, int>
    ghost var calls: map<int, Call>

    ghost function View(): System
      reads this
    {
      System(rows, issued, docker, made, folders, plans, calls)
    }

    // ---------------------------------------------------------------- single steps

    // Each changes what it changes as the step of the machine does.

    method PassPlanCheck(ghost p: int, user: int, leaf: Path, withPort: bool, answer: seq<U.JoinRow>, w: Works)
      returns (ok: bool)
      requires p !in calls && U.IsJoin(View(), user, answer)
      modifies this`calls
      ensures View() == Do(old(View()), Check(p, user, leaf, withPort, w.begins && w.lists))
      ensures ok == WithinPlan(old(View()), user, w)
      ensures calls == if ok then old(calls)[p := Admitted(user, leaf, withPort)] else old(calls)
    {
      if !w.begins || !w.lists {
        return false;
      }
      if user in plans {
        U.ListIsTheRows(View(), user, answer);
      }
      var found := U.GetContainersForUserByID(answer);
      if found.None? {
        return false;
      }
      if |found.value.1| >= plans[user] {
        return false;
      }
      calls := calls[p := Admitted(user, leaf, withPort)];
      return true;
    }

    // A pull, a folder or a container that cannot be made ends the call or sends it to its clean-up.
    method Pull(ghost p: int, w: Works)
      requires p in calls && calls[p].Admitted?
      modifies this`calls
      ensures View() == if w.pulls then old(View()) else Do(old(View()), PullFails(p))
      ensures calls == if w.pulls then old(calls) else old(calls) - {p}
    {
      if !w.pulls {
        calls := calls - {p};
      }
    }

    method MkdirAll(ghost p: int, leaf: Path, w: Works)
      requires p in calls && calls[p].Admitted? && calls[p].leaf == leaf
      modifies this`calls, this`folders
      ensures View() == Do(old(View()), MakeFolder(p, w.makesFolder))
      ensures folders == if w.makesFolder then old(folders) + AndParents(leaf) else old(folders)
      ensures calls == if w.makesFolder then old(calls)[p := WithFolder(old(calls)[p].user, leaf, old(calls)[p].withPort)]
                       else old(calls) - {p}
    {
      if w.makesFolder {
        folders := folders + AndParents(leaf);
        calls := calls[p := WithFolder(calls[p].user, leaf, calls[p].withPort)];
      } else {
        calls := calls - {p};
      }
    }

    method DockerCreate(ghost p: int, cid: string, w: Works)
      requires p in calls && calls[p].WithFolder? && cid !in made
      modifies this`calls, this`docker, this`made
      ensures View() == Do(old(View()), ContainerCreate(p, w.creates, cid))
      ensures docker == if w.creates then old(docker)[cid := false] else old(docker)
      ensures made == if w.creates then old(made) + {cid} else old(made)
      ensures calls == old(calls)[p := var c := old(calls)[p];
                                       if w.creates then WithContainer(c.user, c.leaf, c.withPort, cid) else RemovingFolder(c.leaf)]
    {
      if w.creates {
        docker, made := docker[cid := false], made + {cid};
        calls := calls[p := WithContainer(calls[p].user, calls[p].leaf, calls[p].withPort, cid)];
      } else {
        calls := calls[p := RemovingFolder(calls[p].leaf)];
      }
    }

    method DockerStart(ghost p: int, cid: string, w: Works)
      requires p in calls && calls[p].WithContainer? && calls[p].cid == cid
      modifies this`calls, this`docker
      ensures View() == Do(old(View()), ContainerStart(p, w.starts))
      ensures docker == if w.starts then old(docker)[cid := true] else old(docker)
      ensures calls == old(calls)[p := var c := old(calls)[p];
                                       if w.starts then Started(c.user, c.leaf, c.withPort, cid, if c.withPort then None else Some(""))
                                       else UndoingContainer(c.leaf, cid)]
    {
      if w.starts {
        docker := docker[cid := true];
        calls := calls[p := Started(calls[p].user, calls[p].leaf, calls[p].withPort, cid, if calls[p].withPort then None else Some(""))];
      } else {
        calls := calls[p := UndoingContainer(calls[p].leaf, cid)];
      }
    }

    method DockerInspect(ghost p: int, port: string, w: Works)
      requires p in calls && calls[p].Started? && calls[p].withPort && calls[p].port.None?
      modifies this`calls
      ensures View() == Do(old(View()), Inspect(p, w.inspects, port))
      ensures calls == if w.inspects then old(calls)[p := old(calls)[p].(port := Some(port))] else old(calls) - {p}
    {
      if w.inspects {
        calls := calls[p := calls[p].(port := Some(port))];
      } else {
        calls := calls - {p};
      }
    }

    // The row stays in the transaction until it commits.
    method InsertRow(ghost p: int, id: int, row: Row, w: Works)
      requires p in calls && calls[p].Started? && id !in issued
      requires calls[p].port == Some(row.port) && row.user == calls[p].user && row.cid == calls[p].cid
      requires row.folder == calls[p].leaf && row.status == "running" && row.startedAt.Some?
      modifies this`calls, this`issued
      ensures View() == Do(old(View()), Insert(p, w.writes, id, row.startedAt.value))
      ensures issued == if w.writes then old(issued) + {id} else old(issued)
      ensures calls == if w.writes then old(calls)[p := WithRow(old(calls)[p].withPort, id, row)]
                       else if old(calls)[p].withPort then old(calls) - {p}
                       else old(calls)[p := UndoingContainer(row.folder, row.cid)]
    {
      if w.writes {
        issued := issued + {id};
        calls := calls[p := WithRow(calls[p].withPort, id, row)];
      } else {
        calls := if calls[p].withPort then calls - {p} else calls[p := UndoingContainer(row.folder, row.cid)];
      }
    }

    method CommitInsert(ghost p: int, id: int, row: Row, w: Works)
      requires p in calls && calls[p].WithRow? && calls[p].id == id && calls[p].row == row
      modifies this`calls, this`rows
      ensures View() == Do(old(View()), CommitCreate(p, w.commits))
      ensures rows == if w.commits then old(rows)[id := row] else old(rows)
      ensures calls == if w.commits || old(calls)[p].withPort then old(calls) - {p}
                       else old(calls)[p := UndoingContainer(row.folder, row.cid)]
    {
      if w.commits {
        rows := rows[id := row];
        calls := calls - {p};
      } else {
        calls := if calls[p].withPort then calls - {p} else calls[p := UndoingContainer(row.folder, row.cid)];
      }
    }

    method DockerStopAndRemove(ghost p: int, cid: string, w: Works)
      requires p in calls && calls[p].UndoingContainer? && calls[p].cid == cid
      modifies this`calls, this`docker
      ensures View() == Do(old(View()), UndoContainer(p, w.removes))
      ensures docker == if w.removes then old(docker) - {cid} else old(docker)
      ensures calls == old(calls)[p := RemovingFolder(old(calls)[p].leaf)]
    {
      if w.removes {
        docker := docker - {cid};
      }
      calls := calls[p := RemovingFolder(calls[p].leaf)];
    }

    method OsRemoveAll(ghost p: int, leaf: Path, w: Works)
      requires p in calls && calls[p].RemovingFolder? && calls[p].leaf == leaf
      modifies this`calls, this`folders
      ensures View() == Do(old(View()), RemoveFolder(p, w.rmdirs))
      ensures folders == if w.rmdirs then Without(old(folders), leaf) else old(folders)
      ensures calls == old(calls) - {p}
    {
      if w.rmdirs {
        folders := Without(folders, leaf);
      }
      calls := calls - {p};
    }

    // ---------------------------------------------------------------- CreateContainer

    // The deferred functions, last one first; those that clean up look at the error.
    method RunDeferred(ghost p: int, defers: seq<Deferred>, ok: bool, leaf: Path, cid: string, w: Works)
      requires 1 <= |defers| <= 3 && defers == Deferrals(leaf, cid)[..|defers|]
      requires ok || |defers| == 1 ==> p !in calls
      requires !ok && |defers| == 2 ==> p in calls && calls[p] == RemovingFolder(leaf)
      requires !ok && |defers| == 3 ==> p in calls && calls[p] == UndoingContainer(leaf, cid)
      modifies this`calls, this`docker, this`folders
      ensures calls == old(calls) - {p}
      ensures docker == if !ok && |defers| == 3 && w.removes then old(docker) - {cid} else old(docker)
      ensures folders == if !ok && |defers| >= 2 && w.rmdirs then Without(old(folders), leaf) else old(folders)
    {
      hide Do;
      var i := |defers|;
      while i > 0
        invariant 0 <= i <= |defers|
        invariant ok || i <= 1 ==> p !in calls
        invariant !ok && i == 2 ==> p in calls && calls[p] == RemovingFolder(leaf)
        invariant !ok && i == 3 ==> p in calls && calls[p] == UndoingContainer(leaf, cid)
        invariant calls - {p} == old(calls) - {p}
        invariant docker == if !ok && |defers| == 3 && i < 3 && w.removes then old(docker) - {cid} else old(docker)
        invariant folders == if !ok && |defers| >= 2 && i < 2 && w.rmdirs then Without(old(folders), leaf) else old(folders)
      {
        i := i - 1;
        match defers[i] {
          case Rollback =>
          case RemoveAll(path) =>
            if !ok {
              OsRemoveAll(p, path, w);
            }
          case StopAndRemove(container) =>
            if !ok {
              DockerStopAndRemove(p, container, w);
            }
        }
      }
    }

    // What both ways to create a container start with.
    method Place(ghost p: int, user: int, leaf: Path, withPort: bool, answer: seq<U.JoinRow>, w: Works)
      returns (ok: bool)
      requires p !in calls && U.IsJoin(View(), user, answer)
      modifies this`calls, this`folders
      ensures ok == Placed(old(View()), user, w)
      ensures calls == if ok then old(calls)[p := WithFolder(user, leaf, withPort)] else old(calls)
      ensures folders == if ok then old(folders) + AndParents(leaf) else old(folders)
    {
      hide Do;
      ok := PassPlanCheck(p, user, leaf, withPort, answer, w);
      if !ok {
        return false;
      }
      Pull(p, w);
      if !w.pulls {
        return false;
      }
      MkdirAll(p, leaf, w);
      return w.makesFolder;
    }

    /** All or nothing: a container, its row and its folder, or none of them. cid, id and now
        are what Docker, the table and the clock give. The call is a run of the machine. */
    method CreateContainer(ghost p: int, user: int, leaf: Path, answer: seq<U.JoinRow>, cid: string, id: int, now: int,
                           w: Works)
      returns (ok: bool)
      requires p !in calls && U.IsJoin(View(), user, answer)
      requires cid !in made && cid !in docker && id !in issued
      modifies this
      ensures ok == Succeeds(old(View()), user, false, w)
      ensures View() == Created(old(View()), user, leaf, false, cid, id, "", now, w)
      ensures View() == Creation(old(View()), p, user, leaf, false, cid, id, "", now, w)
    {
      CreationRun(View(), p, user, leaf, false, cid, id, "", now, w);
      ok := Create(p, user, leaf, answer, cid, id, now, w);
    }

    // The body of CreateContainer.
    method Create(ghost p: int, user: int, leaf: Path, answer: seq<U.JoinRow>, cid: string, id: int, now: int, w: Works)
      returns (ok: bool)
      requires p !in calls && U.IsJoin(View(), user, answer)
      requires cid !in made && cid !in docker && id !in issued
      modifies this
      ensures ok == Succeeds(old(View()), user, false, w)
      ensures View() == Created(old(View()), user, leaf, false, cid, id, "", now, w)
    {
      hide Do;
      var defers: seq<Deferred> := [Rollback];
      ok := Place(p, user, leaf, false, answer, w);
      if !ok {
        RunDeferred(p, defers, false, leaf, cid, w);
        return false;
      }
      defers := defers + [RemoveAll(leaf)];
      ok := Fill(p, user, leaf, cid, id, now, defers, w);
    }

    // The part of CreateContainer that has a folder to clean up.
    method Fill(ghost p: int, user: int, leaf: Path, cid: string, id: int, now: int, defers: seq<Deferred>, w: Works)
      returns (ok: bool)
      requires p in calls && calls[p] == WithFolder(user, leaf, false)
      requires defers == [Rollback, RemoveAll(leaf)]
      requires cid !in made && cid !in docker && id !in issued
      modifies this
      ensures calls == old(calls) - {p} && plans == old(plans)
      ensures ok == (w.creates && w.starts && w.writes && w.commits)
      ensures rows == if ok then old(rows)[id := Row(user, cid, leaf, "", "running", Some(now))] else old(rows)
      ensures issued == if w.creates && w.starts && w.writes then old(issued) + {id} else old(issued)
      ensures docker == if w.creates && (ok || !w.removes) then old(docker)[cid := w.starts] else old(docker)
      ensures made == if w.creates then old(made) + {cid} else old(made)
      ensures folders == if ok || !w.rmdirs then old(folders) else Without(old(folders), leaf)
    {
      hide Do;
      MadeAndUnmade(docker, cid);
      DockerCreate(p, cid, w);
      if !w.creates {
        RunDeferred(p, defers, false, leaf, cid, w);
        return false;
      }
      var defers := defers + [StopAndRemove(cid)];
      DockerStart(p, cid, w);
      if !w.starts {
        RunDeferred(p, defers, false, leaf, cid, w);
        return false;
      }
      ok := Record(p, user, leaf, cid, id, now, defers, w);
    }

    // The part that has a running container to clean up as well.
    method Record(ghost p: int, user: int, leaf: Path, cid: string, id: int, now: int, defers: seq<Deferred>, w: Works)
      returns (ok: bool)
      requires p in calls && calls[p] == Started(user, leaf, false, cid, Some(""))
      requires defers == Deferrals(leaf, cid) && id !in issued
      modifies this
      ensures calls == old(calls) - {p} && plans == old(plans) && made == old(made)
      ensures issued == if w.writes then old(issued) + {id} else old(issued)
      ensures ok == (w.writes && w.commits)
      ensures rows == if ok then old(rows)[id := Row(user, cid, leaf, "", "running", Some(now))] else old(rows)
      ensures docker == if !ok && w.removes then old(docker) - {cid} else old(docker)
      ensures folders == if !ok && w.rmdirs then Without(old(folders), leaf) else old(folders)
    {
      hide Do;
      var row := Row(user, cid, leaf, "", "running", Some(now));
      InsertRow(p, id, row, w);
      if !w.writes {
        RunDeferred(p, defers, false, leaf, cid, w);
        return false;
      }
      CommitInsert(p, id, row, w);
      RunDeferred(p, defers, w.commits, leaf, cid, w);
      return w.commits;
    }

    // ---------------------------------------------------------------- CreateContainerWithPort

    /** All or nothing only until the container runs: a failure after that leaves the container
        and the folder, and no row. The call is a run of the machine. */
    method CreateContainerWithPort(ghost p: int, user: int, leaf: Path, answer: seq<U.JoinRow>, cid: string, id: int,
                                   now: int, hostPort: string, containerPort: string, w: Works)
      returns (ok: bool)
      requires p !in calls && U.IsJoin(View(), user, answer)
      requires cid !in made && cid !in docker && id !in issued
      modifies this
      ensures ok == Succeeds(old(View()), user, true, w)
      ensures View() == Created(old(View()), user, leaf, true, cid, id, PortEntry(hostPort, containerPort), now, w)
      ensures View() == Creation(old(View()), p, user, leaf, true, cid, id, PortEntry(hostPort, containerPort), now, w)
    {
      var port := PortEntry(hostPort, containerPort);
      CreationRun(View(), p, user, leaf, true, cid, id, port, now, w);
      ok := CreateWithPort(p, user, leaf, answer, cid, id, port, now, w);
    }

    // The body of CreateContainerWithPort.
    method CreateWithPort(ghost p: int, user: int, leaf: Path, answer: seq<U.JoinRow>, cid: string, id: int, port: string,
                          now: int, w: Works)
      returns (ok: bool)
      requires p !in calls && U.IsJoin(View(), user, answer)
      requires cid !in made && cid !in docker && id !in issued
      modifies this
      ensures ok == Succeeds(old(View()), user, true, w)
      ensures View() == Created(old(View()), user, leaf, true, cid, id, port, now, w)
    {
      hide Do, Without, AndParents, RowsOf;
      ok := Place(p, user, leaf, true, answer, w);
      if !ok {
        return false;
      }
      ok := FillWithPort(p, user, leaf, cid, id, port, now, w);
    }

    // The part of CreateContainerWithPort that has a folder.
    method FillWithPort(ghost p: int, user: int, leaf: Path, cid: string, id: int, port: string, now: int, w: Works)
      returns (ok: bool)
      requires p in calls && calls[p] == WithFolder(user, leaf, true)
      requires cid !in made && cid !in docker && id !in issued
      modifies this`calls, this`docker, this`made, this`folders, this`rows, this`issued
      ensures calls == old(calls) - {p}
      ensures var runs := w.creates && w.starts;
              && ok == (runs && w.inspects && w.writes && w.commits)
              && rows == (if ok then old(rows)[id := Row(user, cid, leaf, port, "running", Some(now))] else old(rows))
              && issued == (if runs && w.inspects && w.writes then old(issued) + {id} else old(issued))
              && docker == (if w.creates && (runs || !w.removes) then old(docker)[cid := w.starts] else old(docker))
              && made == (if w.creates then old(made) + {cid} else old(made))
              && folders == (if runs || !w.rmdirs then old(folders) else Without(old(folders), leaf))
    {
      hide Do;
      ok := Run(p, user, leaf, cid, w);
      if ok {
        ok := RecordPort(p, user, leaf, cid, id, now, port, w);
      }
    }

    method Run(ghost p: int, user: int, leaf: Path, cid: string, w: Works) returns (ok: bool)
      requires p in calls && calls[p] == WithFolder(user, leaf, true)
      requires cid !in made && cid !in docker
      modifies this`calls, this`docker, this`made, this`folders
      ensures ok == (w.creates && w.starts)
      ensures calls == if ok then old(calls)[p := Started(user, leaf, true, cid, None)] else old(calls) - {p}
      ensures docker == if w.creates && (ok || !w.removes) then old(docker)[cid := w.starts] else old(docker)
      ensures made == if w.creates then old(made) + {cid} else old(made)
      ensures folders == if ok || !w.rmdirs then old(folders) else Without(old(folders), leaf)
    {
      hide Do;
      MadeAndUnmade(docker, cid);
      DockerCreate(p, cid, w);
      if !w.creates {
        OsRemoveAll(p, leaf, w);
        return false;
      }
      DockerStart(p, cid, w);
      if !w.starts {
        DockerStopAndRemove(p, cid, w);
        OsRemoveAll(p, leaf, w);
        return false;
      }
      return true;
    }

    method RecordPort(ghost p: int, user: int, leaf: Path, cid: string, id: int, now: int, port: string, w: Works)
      returns (ok: bool)
      requires p in calls && calls[p] == Started(user, leaf, true, cid, None) && id !in issued
      modifies this`calls, this`rows, this`issued
      ensures ok == (w.inspects && w.writes && w.commits)
      ensures issued == if w.inspects && w.writes then old(issued) + {id} else old(issued)
      ensures rows == if ok then old(rows)[id := Row(user, cid, leaf, port, "running", Some(now))] else old(rows)
      ensures calls == old(calls) - {p}
    {
      hide Do;
      DockerInspect(p, port, w);
      if !w.inspects {
        return false;
      }
      var row := Row(user, cid, leaf, port, "running", Some(now));
      InsertRow(p, id, row, w);
      if !w.writes {
        return false;
      }
      CommitInsert(p, id, row, w);
      return w.commits;
    }

    // ---------------------------------------------------------------- start, stop, remove

    // The UPDATE in the transaction, then Docker, then the commit.
    method ChangeRow(ghost p: int, id: int, row: Row, w: Works) returns (ok: bool)
      requires id in rows && row.user == rows[id].user && row.cid == rows[id].cid
      modifies this`docker, this`rows
      ensures var acted := w.writes && w.acts && row.cid in old(docker);
              && ok == (acted && w.commits)
              && rows == (if ok then old(rows)[id := row] else old(rows))
              && docker == (if acted then old(docker)[row.cid := row.status == "running"] else old(docker))
    {
      if !w.writes || !w.acts || row.cid !in docker {
        return false;
      }
      docker := docker[row.cid := row.status == "running"];
      if w.commits {
        rows := rows[id := row];
      }
      return w.commits;
    }

    /** Docker and the row both change or neither does, except when the commit fails after
        Docker has acted. The call is a run of the machine, which waits while another call has
        locked the row. */
    method StartContainer(ghost p: int, id: int, now: int, w: Works) returns (ok: bool)
      requires p !in calls
      modifies this`docker, this`rows
      ensures ok == (Acted(old(View()), id, w) && w.commits)
      ensures View() == if id in old(rows) then Changed(old(View()), id, StartedRow(old(View()), id, now), w) else old(View())
      ensures !Locked(calls, id) ==> View() == Change(old(View()), p, ReadToStart(p, id, now), w)
    {
      if !Locked(calls, id) {
        StartRun(View(), p, id, now, w);
      }
      if !w.begins || id !in rows {
        return false;
      }
      ok := ChangeRow(p, id, rows[id].(status := "running", startedAt := Some(now)), w);
    }

    method StopContainer(ghost p: int, id: int, w: Works) returns (ok: bool)
      requires p !in calls
      modifies this`docker, this`rows
      ensures ok == (Acted(old(View()), id, w) && w.commits)
      ensures View() == if id in old(rows) then Changed(old(View()), id, StoppedRow(old(View()), id), w) else old(View())
      ensures !Locked(calls, id) ==> View() == Change(old(View()), p, ReadToStop(p, id), w)
    {
      if !Locked(calls, id) {
        StopRun(View(), p, id, w);
      }
      if !w.begins || id !in rows {
        return false;
      }
      ok := ChangeRow(p, id, rows[id].(status := "stopped"), w);
    }

    /** The row goes first; what Docker or the disk then fail to remove stays behind. */
    method RemoveContainer(ghost p: int, id: int, removeFolder: bool, w: Works) returns (ok: bool)
      requires p !in calls
      modifies this`calls, this`docker, this`rows, this`folders
      ensures !Locked(calls, id) ==> View() == Removal(old(View()), p, id, removeFolder, w)
      ensures calls == old(calls)
      ensures ok == (w.begins && id in old(rows) && w.writes && w.commits)
      ensures rows == if ok then old(rows) - {id} else old(rows)
      ensures docker == if ok && w.removes then old(docker) - {old(rows)[id].cid} else old(docker)
      ensures folders == if ok && removeFolder && w.rmdirs then Without(old(folders), old(rows)[id].folder) else old(folders)
    {
      hide Removal, Locked, Without;
      if !(w.begins && id in rows && w.writes && w.commits) {
        RemovalRefused(View(), p, id, removeFolder, w);
      } else if !Locked(calls, id) {
        RemovalRun(View(), p, id, removeFolder, w);
      }
      if !w.begins || id !in rows {
        return false;
      }
      var info := rows[id];
      if !w.writes || !w.commits {
        return false;
      }
      rows := rows - {id};
      if w.removes {
        docker := docker - {info.cid};
      }
      if removeFolder && w.rmdirs {
        folders := Without(folders, info.folder);
      }
      return true;
    }

    // ---------------------------------------------------------------- the sweep

    /** One sweep of the auto-stop watcher. expired: what the query returns, in its order;
        works: which steps of each stop work. Docker halts a container whose stop gets to it, and
        the row follows if the commit works too. */
    method CheckAndStopExpiredContainers(ghost p: int, now: int, timeout: int, expired: seq<int>, works: int -> Works)
      requires p !in calls
      requires forall id | id in rows :: rows[id].cid in docker
      requires forall id :: id in expired <==> id in rows && A.Expired(rows[id], now - timeout)
      modifies this`docker, this`rows
      ensures rows == A.Swept(old(rows), now - timeout, Committing(expired, works))
      ensures docker == A.Halted(old(docker), old(rows), expired, Acting(expired, works))
    {
      hide Change, Locked;
      for i := 0 to |expired|
        invariant rows == A.Stopped(old(rows), expired[..i], Committing(expired, works))
        invariant docker.Keys == old(docker).Keys
        invariant docker == A.Halted(old(docker), old(rows), expired[..i], Acting(expired, works))
      {
        var id := expired[i];
        assert id in expired && expired[..i + 1][..i] == expired[..i];
        A.StoppedIs(old(rows), expired[..i], Committing(expired, works), id);
        var _ := StopContainer(p, id, works(id));
      }
      assert expired[..|expired|] == expired;
      A.StoppedIsSwept(old(rows), now - timeout, expired, Committing(expired, works));
    }
  }

  predicate Acts(w: Works) {
    w.begins && w.writes && w.acts
  }

  // The stops that get to Docker, and those that also commit.
  function Acting(ids: seq<int>, works: int -> Works): set<int> {
    set id | id in ids && Acts(works(id))
  }

  function Committing(ids: seq<int>, works: int -> Works): set<int> {
    set id | id in ids && Acts(works(id)) && works(id).commits
  }

  /** After a sweep, an expired container's row and Docker disagree exactly when the commit of
      its stop failed after Docker had acted. */
  lemma {:induction false} SweepDisagrees(rows: map<int, Row>, docker: map<string, bool>, cutoff: int, expired: seq<int>,
                                          works: int -> Works, id: int)
    requires forall j :: j in expired <==> j in rows && A.Expired(rows[j], cutoff)
    requires id in expired && rows[id].cid in docker && docker[rows[id].cid]
    requires forall j | j in rows && rows[j].cid == rows[id].cid :: j == id
    ensures var rows' := A.Swept(rows, cutoff, Committing(expired, works));
            var docker' := A.Halted(docker, rows, expired, Acting(expired, works));
            && id in rows' && rows[id].cid in docker'
            && ((rows'[id].status == "running" <==> docker'[rows[id].cid]) <==> (Acts(works(id)) ==> works(id).commits))
  {
    A.AgreesAfterSweep(rows, docker, expired, Acting(expired, works), Committing(expired, works), id);
    A.StoppedIsSwept(rows, cutoff, expired, Committing(expired, works));
  }

  // A container that is made, started and removed again leaves no trace.
  lemma {:induction false} MadeAndUnmade(docker: map<string, bool>, cid: string)
    requires cid !in docker
    ensures docker - {cid} == docker && docker[cid := false] - {cid} == docker && docker[cid := true] - {cid} == docker
    ensures docker[cid := false][cid := true] == docker[cid := true]
  {
  }

  // "host:container", or nothing when Docker assigned no port.
  function PortEntry(hostPort: string, containerPort: string): string {
    if hostPort != "" then hostPort + ":" + containerPort else ""
  }

  function Deferrals(leaf: Path, cid: string): seq<Deferred> {
    [Rollback, RemoveAll(leaf), StopAndRemove(cid)]
  }
}
