/**
 What one call of service/hostContainerService.go comes to when nothing interferes with it:
 the steps of the machine in Lifecycle.dfy, in the order of the code.
 */
module ContainerCalls {
  import opened Common
  import opened Lifecycle

  // Which steps work. lists: the query for the user's containers and the one for the plan;
  // writes: the INSERT, UPDATE or DELETE; acts: ContainerStart or ContainerStop of a container
  // that has a row; removes, rmdirs: ContainerRemove and os.RemoveAll.
  datatype Works = Works(begins: bool, lists: bool, pulls: bool, makesFolder: bool, creates: bool, starts: bool,
                         inspects: bool, writes: bool, acts: bool, commits: bool, removes: bool, rmdirs: bool)

  predicate WithinPlan(s: System, user: int, w: Works) {
    w.begins && w.lists && user in s.plans && |RowsOf(s, user)| < s.plans[user]
  }

  // The folders at and below a path.
  function Under(folders: set<Path>, leaf: Path): set<Path> {
    set f | f in folders && leaf <= f
  }

  // ------------------------------------------------------------------ a creation

  // Its steps, in order. Those of the branches it does not take are not enabled.

  function PlaceSteps(s: System, p: int, user: int, leaf: Path, withPort: bool, w: Works): System {
    var s1 := Do(s, Check(p, user, leaf, withPort, w.begins && w.lists));
    var s2 := if w.pulls then s1 else Do(s1, PullFails(p));
    Do(s2, MakeFolder(p, w.makesFolder))
  }

  function RunSteps(s: System, p: int, cid: string, w: Works): System {
    Do(Do(s, ContainerCreate(p, w.creates, cid)), ContainerStart(p, w.starts))
  }

  function RecordSteps(s: System, p: int, id: int, port: string, now: int, w: Works): System {
    Do(Do(Do(s, Inspect(p, w.inspects, port)), Insert(p, w.writes, id, now)), CommitCreate(p, w.commits))
  }

  function CleanSteps(s: System, p: int, w: Works): System {
    Do(Do(s, UndoContainer(p, w.removes)), RemoveFolder(p, w.rmdirs))
  }

  function Creation(s: System, p: int, user: int, leaf: Path, withPort: bool, cid: string, id: int, port: string, now: int,
                    w: Works): System
  {
    CleanSteps(RecordSteps(RunSteps(PlaceSteps(s, p, user, leaf, withPort, w), p, cid, w), p, id, port, now, w), p, w)
  }

  // How far a creation gets.

  predicate Placed(s: System, user: int, w: Works) {
    WithinPlan(s, user, w) && w.pulls && w.makesFolder
  }

  predicate Running(s: System, user: int, w: Works) {
    Placed(s, user, w) && w.creates && w.starts
  }

  predicate Inserted(s: System, user: int, withPort: bool, w: Works) {
    Running(s, user, w) && (withPort ==> w.inspects) && w.writes
  }

  predicate Succeeds(s: System, user: int, withPort: bool, w: Works) {
    Inserted(s, user, withPort, w) && w.commits
  }

  // What it leaves: on success a row, a container and a folder; otherwise what is not taken
  // down, which with a port is everything once the container runs.
  function Created(s: System, user: int, leaf: Path, withPort: bool, cid: string, id: int, port: string, now: int,
                   w: Works): System
  {
    var stays := Succeeds(s, user, withPort, w) || (withPort && Running(s, user, w));
    var made := Placed(s, user, w) && w.creates;
    var folders := s.folders + AndParents(leaf);
    s.(rows := if Succeeds(s, user, withPort, w) then s.rows[id := Row(user, cid, leaf, port, "running", Some(now))] else s.rows,
       issued := if Inserted(s, user, withPort, w) then s.issued + {id} else s.issued,
       docker := if made && (stays || !w.removes) then s.docker[cid := w.starts] else s.docker,
       made := if made then s.made + {cid} else s.made,
       folders := if !Placed(s, user, w) then s.folders
                  else if stays || !w.rmdirs then folders else Without(folders, leaf))
  }

  // Without a call, no step but the check does anything.
  lemma {:induction false} NoPlacing(s: System, p: int, w: Works)
    requires p !in s.calls
    ensures Do(s, PullFails(p)) == s && Do(s, MakeFolder(p, w.makesFolder)) == s
  {
  }

  lemma {:induction false} NoRunning(s: System, p: int, cid: string, w: Works)
    requires p !in s.calls
    ensures RunSteps(s, p, cid, w) == s
  {
  }

  lemma {:induction false} NoRecording(s: System, p: int, id: int, port: string, now: int, w: Works)
    requires p !in s.calls
    ensures Do(s, Insert(p, w.writes, id, now)) == s && Do(s, CommitCreate(p, w.commits)) == s
    ensures RecordSteps(s, p, id, port, now, w) == s
  {
  }

  lemma {:induction false} NoCleaning(s: System, p: int, w: Works)
    requires p !in s.calls
    ensures CleanSteps(s, p, w) == s
  {
  }

  lemma {:induction false} CheckIs(s: System, p: int, user: int, leaf: Path, withPort: bool, w: Works)
    requires p !in s.calls
    ensures Do(s, Check(p, user, leaf, withPort, w.begins && w.lists))
            == if WithinPlan(s, user, w) then Goes(s, p, Admitted(user, leaf, withPort)) else s
  {
  }

  lemma {:induction false} PlaceIs(s: System, p: int, user: int, leaf: Path, withPort: bool, w: Works)
    requires p !in s.calls
    ensures PlaceSteps(s, p, user, leaf, withPort, w)
            == if !Placed(s, user, w) then s
               else Goes(s.(folders := s.folders + AndParents(leaf)), p, WithFolder(user, leaf, withPort))
  {
    CheckIs(s, p, user, leaf, withPort, w);
    NoPlacing(s, p, w);
    var c := Admitted(user, leaf, withPort);
    assert s.calls[p := c] - {p} == s.calls;
    assert s.calls[p := c][p := WithFolder(user, leaf, withPort)] == s.calls[p := WithFolder(user, leaf, withPort)];
  }

  lemma {:induction false} Again(s: System, p: int, c: Call, d: Call)
    requires p !in s.calls
    ensures Goes(Goes(s, p, c), p, d) == Goes(s, p, d) && Ends(Goes(s, p, c), p) == s
  {
    assert s.calls[p := c][p := d] == s.calls[p := d];
    assert s.calls[p := c] - {p} == s.calls;
  }

  lemma {:induction false} MadeIs(s: System, p: int, user: int, leaf: Path, withPort: bool, cid: string, ok: bool)
    requires p !in s.calls && cid !in s.made
    ensures Do(Goes(s, p, WithFolder(user, leaf, withPort)), ContainerCreate(p, ok, cid))
            == if !ok then Goes(s, p, RemovingFolder(leaf))
               else Goes(s.(docker := s.docker[cid := false], made := s.made + {cid}), p,
                         WithContainer(user, leaf, withPort, cid))
  {
    Again(s, p, WithFolder(user, leaf, withPort), WithContainer(user, leaf, withPort, cid));
    Again(s, p, WithFolder(user, leaf, withPort), RemovingFolder(leaf));
  }

  function JustStarted(user: int, leaf: Path, withPort: bool, cid: string): Call {
    Started(user, leaf, withPort, cid, if withPort then None else Some(""))
  }

  lemma {:induction false} StartedIs(s: System, p: int, user: int, leaf: Path, withPort: bool, cid: string, ok: bool)
    requires p !in s.calls
    ensures Do(Goes(s, p, WithContainer(user, leaf, withPort, cid)), ContainerStart(p, ok))
            == if ok then Goes(s.(docker := s.docker[cid := true]), p, JustStarted(user, leaf, withPort, cid))
               else Goes(s, p, UndoingContainer(leaf, cid))
    ensures Do(Goes(s, p, RemovingFolder(leaf)), ContainerStart(p, ok)) == Goes(s, p, RemovingFolder(leaf))
  {
    Again(s, p, WithContainer(user, leaf, withPort, cid), JustStarted(user, leaf, withPort, cid));
    Again(s, p, WithContainer(user, leaf, withPort, cid), UndoingContainer(leaf, cid));
  }

  lemma {:induction false} RunIs(s: System, p: int, user: int, leaf: Path, withPort: bool, cid: string, w: Works)
    requires p !in s.calls && cid !in s.made
    ensures var made := s.(docker := s.docker[cid := w.starts], made := s.made + {cid});
            RunSteps(Goes(s, p, WithFolder(user, leaf, withPort)), p, cid, w)
            == if !w.creates then Goes(s, p, RemovingFolder(leaf))
               else if !w.starts then Goes(made, p, UndoingContainer(leaf, cid))
               else Goes(made, p, JustStarted(user, leaf, withPort, cid))
  {
    MadeIs(s, p, user, leaf, withPort, cid, w.creates);
    var t := if w.creates then s.(docker := s.docker[cid := false], made := s.made + {cid}) else s;
    StartedIs(t, p, user, leaf, withPort, cid, w.starts);
    assert s.docker[cid := false][cid := true] == s.docker[cid := true];
  }

  // Nothing is recorded of what is being taken down.
  lemma {:induction false} NothingRecorded(s: System, p: int, c: Call, id: int, port: string, now: int, w: Works)
    requires p !in s.calls && (c.UndoingContainer? || c.RemovingFolder?)
    ensures RecordSteps(Goes(s, p, c), p, id, port, now, w) == Goes(s, p, c)
  {
  }

  lemma {:induction false} InspectIs(s: System, p: int, user: int, leaf: Path, withPort: bool, cid: string, port: string, ok: bool)
    requires p !in s.calls && (withPort || port == "")
    ensures Do(Goes(s, p, JustStarted(user, leaf, withPort, cid)), Inspect(p, ok, port))
            == if withPort && !ok then s else Goes(s, p, Started(user, leaf, withPort, cid, Some(port)))
  {
    Again(s, p, Started(user, leaf, withPort, cid, None), Started(user, leaf, withPort, cid, Some(port)));
  }

  lemma {:induction false} InsertIs(s: System, p: int, user: int, leaf: Path, withPort: bool, cid: string, id: int, port: string,
                                    now: int, ok: bool)
    requires p !in s.calls && id !in s.issued
    ensures Do(Goes(s, p, Started(user, leaf, withPort, cid, Some(port))), Insert(p, ok, id, now))
            == if ok then Goes(s.(issued := s.issued + {id}), p,
                               WithRow(withPort, id, Row(user, cid, leaf, port, "running", Some(now))))
               else if withPort then s else Goes(s, p, UndoingContainer(leaf, cid))
  {
    var c := Started(user, leaf, withPort, cid, Some(port));
    Again(s, p, c, WithRow(withPort, id, Row(user, cid, leaf, port, "running", Some(now))));
    Again(s, p, c, UndoingContainer(leaf, cid));
  }

  lemma {:induction false} CommitIs(s: System, p: int, withPort: bool, id: int, row: Row, ok: bool)
    requires p !in s.calls
    ensures Do(Goes(s, p, WithRow(withPort, id, row)), CommitCreate(p, ok))
            == if ok then s.(rows := s.rows[id := row])
               else if withPort then s else Goes(s, p, UndoingContainer(row.folder, row.cid))
    ensures Do(s, CommitCreate(p, ok)) == s
    ensures Do(Goes(s, p, UndoingContainer(row.folder, row.cid)), CommitCreate(p, ok))
            == Goes(s, p, UndoingContainer(row.folder, row.cid))
  {
    Again(s, p, WithRow(withPort, id, row), UndoingContainer(row.folder, row.cid));
  }

  lemma {:induction false} RecordIs(s: System, p: int, user: int, leaf: Path, withPort: bool, cid: string, id: int, port: string,
                                    now: int, w: Works)
    requires p !in s.calls && id !in s.issued && (withPort || port == "")
    ensures var row := Row(user, cid, leaf, port, "running", Some(now));
            var inserted := (withPort ==> w.inspects) && w.writes;
            var t := if inserted then s.(issued := s.issued + {id}) else s;
            RecordSteps(Goes(s, p, JustStarted(user, leaf, withPort, cid)), p, id, port, now, w)
            == if inserted && w.commits then t.(rows := s.rows[id := row])
               else if withPort then t else Goes(t, p, UndoingContainer(leaf, cid))
  {
    InspectIs(s, p, user, leaf, withPort, cid, port, w.inspects);
    NoRecording(s, p, id, port, now, w);
    InsertIs(s, p, user, leaf, withPort, cid, id, port, now, w.writes);
    var row := Row(user, cid, leaf, port, "running", Some(now));
    CommitIs(s, p, withPort, id, row, w.commits);
    CommitIs(s.(issued := s.issued + {id}), p, withPort, id, row, w.commits);
  }

  lemma {:induction false} CleanIs(s: System, p: int, leaf: Path, cid: string, w: Works)
    requires p !in s.calls
    ensures var folders := if w.rmdirs then Without(s.folders, leaf) else s.folders;
            && CleanSteps(Goes(s, p, UndoingContainer(leaf, cid)), p, w)
               == s.(docker := if w.removes then s.docker - {cid} else s.docker, folders := folders)
            && CleanSteps(Goes(s, p, RemovingFolder(leaf)), p, w) == s.(folders := folders)
  {
    var t := s.(docker := if w.removes then s.docker - {cid} else s.docker);
    Again(s, p, UndoingContainer(leaf, cid), RemovingFolder(leaf));
    assert Do(Goes(s, p, UndoingContainer(leaf, cid)), UndoContainer(p, w.removes)) == Goes(t, p, RemovingFolder(leaf));
    Again(t, p, RemovingFolder(leaf), RemovingFolder(leaf));
    Again(s, p, RemovingFolder(leaf), RemovingFolder(leaf));
  }

  // How it ends from a container that runs, from one that does not, and from none.

  lemma {:induction false} EndFromRunning(s: System, p: int, user: int, leaf: Path, withPort: bool, cid: string, id: int,
                                          port: string, now: int, w: Works)
    requires p !in s.calls && id !in s.issued && (withPort || port == "")
    ensures var inserted := (withPort ==> w.inspects) && w.writes;
            var t := if inserted then s.(issued := s.issued + {id}) else s;
            CleanSteps(RecordSteps(Goes(s, p, JustStarted(user, leaf, withPort, cid)), p, id, port, now, w), p, w)
            == if inserted && w.commits then t.(rows := s.rows[id := Row(user, cid, leaf, port, "running", Some(now))])
               else if withPort then t
               else t.(docker := if w.removes then s.docker - {cid} else s.docker,
                       folders := if w.rmdirs then Without(s.folders, leaf) else s.folders)
  {
    RecordIs(s, p, user, leaf, withPort, cid, id, port, now, w);
    var inserted := (withPort ==> w.inspects) && w.writes;
    var t := if inserted then s.(issued := s.issued + {id}) else s;
    CleanIs(t, p, leaf, cid, w);
    NoCleaning(t, p, w);
    NoCleaning(t.(rows := s.rows[id := Row(user, cid, leaf, port, "running", Some(now))]), p, w);
  }

  lemma {:induction false} EndFromStopped(s: System, p: int, leaf: Path, cid: string, id: int, port: string, now: int, w: Works)
    requires p !in s.calls
    ensures var folders := if w.rmdirs then Without(s.folders, leaf) else s.folders;
            && CleanSteps(RecordSteps(Goes(s, p, UndoingContainer(leaf, cid)), p, id, port, now, w), p, w)
               == s.(docker := if w.removes then s.docker - {cid} else s.docker, folders := folders)
            && CleanSteps(RecordSteps(Goes(s, p, RemovingFolder(leaf)), p, id, port, now, w), p, w) == s.(folders := folders)
  {
    NothingRecorded(s, p, UndoingContainer(leaf, cid), id, port, now, w);
    NothingRecorded(s, p, RemovingFolder(leaf), id, port, now, w);
    CleanIs(s, p, leaf, cid, w);
  }

  /** A creation that nothing interferes with: its steps come to what Created says, whichever of
      them fail. */
  lemma {:induction false} CreationRun(s: System, p: int, user: int, leaf: Path, withPort: bool, cid: string, id: int,
                                       port: string, now: int, w: Works)
    requires p !in s.calls && cid !in s.made && cid !in s.docker && id !in s.issued && (withPort || port == "")
    ensures Creation(s, p, user, leaf, withPort, cid, id, port, now, w)
            == Created(s, user, leaf, withPort, cid, id, port, now, w)
  {
    PlaceIs(s, p, user, leaf, withPort, w);
    if !Placed(s, user, w) {
      NoRunning(s, p, cid, w);
      NoRecording(s, p, id, port, now, w);
      NoCleaning(s, p, w);
    } else {
      var t := s.(folders := s.folders + AndParents(leaf));
      var made := t.(docker := t.docker[cid := w.starts], made := t.made + {cid});
      assert s.docker[cid := w.starts] - {cid} == s.docker;
      RunIs(t, p, user, leaf, withPort, cid, w);
      EndFromStopped(t, p, leaf, cid, id, port, now, w);
      EndFromStopped(made, p, leaf, cid, id, port, now, w);
      EndFromRunning(made, p, user, leaf, withPort, cid, id, port, now, w);
    }
  }

  /** What a failed creation leaves of folders, when the clean-up works: outside the project's
      folder, parents that were missing; inside it nothing, which is as before exactly when
      the folder was new. */
  lemma {:induction false} FolderAfterFailure(folders: set<Path>, leaf: Path)
    ensures var left := Without(folders + AndParents(leaf), leaf);
            && (Under(left, leaf) == Under(folders, leaf) <==> Under(folders, leaf) == {})
            && forall f | !(leaf <= f) :: f in left <==> f in folders || f < leaf
  {
    var left := Without(folders + AndParents(leaf), leaf);
    assert Under(left, leaf) == {};
    forall f: Path | !(leaf <= f)
      ensures f in left <==> f in folders || f < leaf
    {
      assert f < leaf ==> leaf[..|f|] == f;
    }
  }

  /** All or nothing. A creation that succeeds adds one row and one running container. One that
      fails, and whose clean-up works, leaves the rows as before; it leaves Docker as before
      exactly when it had no port or its container did not come to run; and then the folder is as
      before exactly when it was new or was not reached. */
  lemma {:induction false} AllOrNothing(s: System, user: int, leaf: Path, withPort: bool, cid: string, id: int, port: string,
                                        now: int, w: Works)
    requires cid !in s.docker && id !in s.rows
    ensures var t := Created(s, user, leaf, withPort, cid, id, port, now, w);
            if Succeeds(s, user, withPort, w) then
              && id in t.rows && t.rows - {id} == s.rows
              && cid in t.docker && t.docker[cid] && t.docker - {cid} == s.docker
              && t.rows[id].cid == cid && t.rows[id].user == user && leaf in t.folders
            else
              && t.rows == s.rows
              && (w.removes && w.rmdirs ==>
                    && (t.docker == s.docker <==> !(withPort && Running(s, user, w)))
                    && (t.docker == s.docker ==>
                          (Under(t.folders, leaf) == Under(s.folders, leaf)
                           <==> !Placed(s, user, w) || Under(s.folders, leaf) == {})))
  {
    FolderAfterFailure(s.folders, leaf);
    assert leaf[..|leaf|] == leaf;
    assert cid in s.docker[cid := w.starts];
  }

  // ------------------------------------------------------------------ a removal

  // No call has locked the row.
  lemma {:induction false} OnlyReader(s: System, p: int, c: Call, id: int)
    requires !Locked(s.calls, id) && !Holds(c, id)
    ensures !Locked(s.calls[p := c], id)
  {
  }

  // The steps of a removal that nothing interferes with; those that do not apply change nothing.
  function Removal(s: System, p: int, id: int, removeFolder: bool, w: Works): System {
    var s1 := if w.begins then Do(s, ReadToRemove(p, id, removeFolder)) else s;
    var s2 := Do(s1, CommitRemove(p, w.writes && w.commits));
    var s3 := Do(s2, DockerRemoves(p, w.removes));
    Do(s3, RemoveFolder(p, w.rmdirs))
  }

  lemma {:induction false} AfterRead(s: System, p: int, id: int, removeFolder: bool)
    requires p !in s.calls && id in s.rows
    ensures Do(s, ReadToRemove(p, id, removeFolder))
            == Goes(s, p, Removing(id, s.rows[id].cid, if removeFolder then Some(s.rows[id].folder) else None))
  {
  }

  lemma {:induction false} AfterCommit(s: System, p: int, id: int, cid: string, folder: Option<Path>)
    requires id in s.rows && !Locked(s.calls, id)
    ensures Do(Goes(s, p, Removing(id, cid, folder)), CommitRemove(p, true))
            == Goes(s.(rows := s.rows - {id}), p, Removed(cid, folder))
  {
    OnlyReader(s, p, Removing(id, cid, folder), id);
    assert s.calls[p := Removing(id, cid, folder)][p := Removed(cid, folder)] == s.calls[p := Removed(cid, folder)];
  }

  lemma {:induction false} AfterDocker(s: System, p: int, cid: string, folder: Option<Path>, ok: bool)
    requires p !in s.calls
    ensures var t := s.(docker := if ok then s.docker - {cid} else s.docker);
            Do(Goes(s, p, Removed(cid, folder)), DockerRemoves(p, ok))
            == if folder.Some? then Goes(t, p, RemovingFolder(folder.value)) else t
  {
    assert s.calls[p := Removed(cid, folder)] - {p} == s.calls;
    assert folder.Some? ==>
      s.calls[p := Removed(cid, folder)][p := RemovingFolder(folder.value)] == s.calls[p := RemovingFolder(folder.value)];
  }

  lemma {:induction false} AfterFolder(s: System, p: int, leaf: Path, ok: bool)
    requires p !in s.calls
    ensures Do(Goes(s, p, RemovingFolder(leaf)), RemoveFolder(p, ok))
            == s.(folders := if ok then Without(s.folders, leaf) else s.folders)
    ensures Do(s, RemoveFolder(p, ok)) == s
  {
    assert s.calls[p := RemovingFolder(leaf)] - {p} == s.calls;
  }

  lemma {:induction false} NoCall(s: System, p: int, ok: bool)
    requires p !in s.calls
    ensures Do(s, CommitRemove(p, ok)) == s && Do(s, DockerRemoves(p, ok)) == s && Do(s, RemoveFolder(p, ok)) == s
  {
  }

  lemma {:induction false} CommitRefused(s: System, p: int, id: int, cid: string, folder: Option<Path>)
    requires p !in s.calls
    ensures Do(Goes(s, p, Removing(id, cid, folder)), CommitRemove(p, false)) == s
  {
    assert s.calls[p := Removing(id, cid, folder)] - {p} == s.calls;
  }

  // A removal that fails changes nothing.
  lemma {:induction false} RemovalRefused(s: System, p: int, id: int, removeFolder: bool, w: Works)
    requires p !in s.calls && !(w.begins && id in s.rows && w.writes && w.commits)
    ensures Removal(s, p, id, removeFolder, w) == s
  {
    if w.begins && id in s.rows {
      AfterRead(s, p, id, removeFolder);
      CommitRefused(s, p, id, s.rows[id].cid, if removeFolder then Some(s.rows[id].folder) else None);
    }
    NoCall(s, p, w.writes && w.commits);
    NoCall(s, p, w.removes);
    NoCall(s, p, w.rmdirs);
  }

  /** RemoveContainer is a run of the machine: what the method leaves is what its steps leave. */
  lemma {:induction false} RemovalRun(s: System, p: int, id: int, removeFolder: bool, w: Works)
    requires p !in s.calls && w.begins && id in s.rows && !Locked(s.calls, id) && w.writes && w.commits
    ensures Removal(s, p, id, removeFolder, w)
            == s.(rows := s.rows - {id},
                  docker := if w.removes then s.docker - {s.rows[id].cid} else s.docker,
                  folders := if removeFolder && w.rmdirs then Without(s.folders, s.rows[id].folder) else s.folders)
  {
    var cid, leaf := s.rows[id].cid, s.rows[id].folder;
    var folder := if removeFolder then Some(leaf) else None;
    var t := s.(rows := s.rows - {id});
    AfterRead(s, p, id, removeFolder);
    AfterCommit(s, p, id, cid, folder);
    AfterDocker(t, p, cid, folder, w.removes);
    AfterFolder(t.(docker := if w.removes then s.docker - {cid} else s.docker), p, leaf, w.rmdirs);
  }

  // ------------------------------------------------------------------ a start or a stop

  // read is ReadToStart or ReadToStop.
  function Change(s: System, p: int, read: Action, w: Works): System {
    var s1 := if w.begins then Do(s, read) else s;
    Do(Do(Do(s1, UpdateRow(p, w.writes)), DockerActs(p, w.acts)), CommitChange(p, w.commits))
  }

  // What the change of a row comes to: Docker follows the new status when the steps up to it
  // work, and the row when the commit works too.
  predicate Acted(s: System, id: int, w: Works) {
    w.begins && id in s.rows && w.writes && w.acts && s.rows[id].cid in s.docker
  }

  function Changed(s: System, id: int, row: Row, w: Works): System {
    s.(rows := if Acted(s, id, w) && w.commits then s.rows[id := row] else s.rows,
       docker := if Acted(s, id, w) then s.docker[s.rows[id].cid := row.status == "running"] else s.docker)
  }

  lemma {:induction false} NoChange(s: System, p: int, w: Works)
    requires p !in s.calls
    ensures Do(s, UpdateRow(p, w.writes)) == s && Do(s, DockerActs(p, w.acts)) == s && Do(s, CommitChange(p, w.commits)) == s
  {
  }

  lemma {:induction false} LockIs(s: System, p: int, id: int, row: Row, ok: bool)
    requires p !in s.calls && id in s.rows && !Locked(s.calls, id)
    ensures Do(Goes(s, p, Changing(id, row, Waiting)), UpdateRow(p, ok))
            == if ok then Goes(s, p, Changing(id, row, Holding)) else s
  {
    OnlyReader(s, p, Changing(id, row, Waiting), id);
    Again(s, p, Changing(id, row, Waiting), Changing(id, row, Holding));
  }

  lemma {:induction false} ActsIs(s: System, p: int, id: int, row: Row, ok: bool)
    requires p !in s.calls
    ensures Do(Goes(s, p, Changing(id, row, Holding)), DockerActs(p, ok))
            == if ok && row.cid in s.docker
               then Goes(s.(docker := s.docker[row.cid := row.status == "running"]), p, Changing(id, row, Done)) else s
  {
    Again(s, p, Changing(id, row, Holding), Changing(id, row, Done));
  }

  lemma {:induction false} CommitsIs(s: System, p: int, id: int, row: Row, ok: bool)
    requires p !in s.calls && id in s.rows && row.user == s.rows[id].user
    ensures Do(Goes(s, p, Changing(id, row, Done)), CommitChange(p, ok)) == if ok then s.(rows := s.rows[id := row]) else s
  {
    Again(s, p, Changing(id, row, Done), Changing(id, row, Done));
    assert row.(user := s.rows[id].user) == row;
  }

  // The same for a start and a stop.
  lemma {:induction false} ChangeRun(s: System, p: int, id: int, row: Row, read: Action, w: Works)
    requires p !in s.calls && !Locked(s.calls, id) && (id in s.rows ==> row.user == s.rows[id].user && row.cid == s.rows[id].cid)
    requires Do(s, read) == if id in s.rows then Goes(s, p, Changing(id, row, Waiting)) else s
    ensures Change(s, p, read, w) == Changed(s, id, row, w)
  {
    NoChange(s, p, w);
    if w.begins && id in s.rows {
      LockIs(s, p, id, row, w.writes);
      ActsIs(s, p, id, row, w.acts);
      CommitsIs(s.(docker := s.docker[row.cid := row.status == "running"]), p, id, row, w.commits);
    }
  }

  function StartedRow(s: System, id: int, now: int): Row
    requires id in s.rows
  {
    s.rows[id].(status := "running", startedAt := Some(now))
  }

  function StoppedRow(s: System, id: int): Row
    requires id in s.rows
  {
    s.rows[id].(status := "stopped")
  }

  /** StartContainer and StopContainer that nothing interferes with: their steps come to what
      Changed says; without a row they change nothing. */
  lemma {:induction false} StartRun(s: System, p: int, id: int, now: int, w: Works)
    requires p !in s.calls && !Locked(s.calls, id)
    ensures Change(s, p, ReadToStart(p, id, now), w) == if id in s.rows then Changed(s, id, StartedRow(s, id, now), w) else s
  {
    var nobody := Row(0, "", [], "", "", None);
    ChangeRun(s, p, id, if id in s.rows then StartedRow(s, id, now) else nobody, ReadToStart(p, id, now), w);
  }

  lemma {:induction false} StopRun(s: System, p: int, id: int, w: Works)
    requires p !in s.calls && !Locked(s.calls, id)
    ensures Change(s, p, ReadToStop(p, id), w) == if id in s.rows then Changed(s, id, StoppedRow(s, id), w) else s
  {
    var nobody := Row(0, "", [], "", "", None);
    ChangeRun(s, p, id, if id in s.rows then StoppedRow(s, id) else nobody, ReadToStop(p, id), w);
  }

  /** After a start or a stop, row and Docker disagree about running exactly when the commit
      failed after Docker had acted and the status was to change. */
  lemma {:induction false} ChangeDisagrees(s: System, id: int, row: Row, w: Works)
    requires id in s.rows && row.cid == s.rows[id].cid && row.cid in s.docker
    requires s.rows[id].status == "running" <==> s.docker[row.cid]
    ensures var t := Changed(s, id, row, w);
            (t.rows[id].status == "running" <==> t.docker[row.cid])
            <==> !(Acted(s, id, w) && !w.commits && (row.status == "running" <==> s.rows[id].status != "running"))
  {
  }
}
