/**
 The life of a container in service/hostContainerService.go and service/repository.go: table
 rows, Docker containers and folders, changed by calls that overlap and whose every step may fail.

 A step is one SQL statement, one Docker call or one folder operation. A transaction's writes
 take effect when it commits, and a failed commit has no effect.
 */
module Lifecycle {
  import opened Common

  type Path = seq<string>

  datatype Row = Row(user: int, cid: string, folder: Path, port: string, status: string, startedAt: Option<int>)

  // A start or a stop locks its row with its UPDATE; it waits for the lock, holds it while Docker
  // acts, and gives it up with the end of its transaction.
  datatype Stage = Waiting | Holding | Done

  // How far a call has come. The first five are the two ways to create a container.
  datatype Call =
    | Admitted(user: int, leaf: Path, withPort: bool)
    | WithFolder(user: int, leaf: Path, withPort: bool)
    | WithContainer(user: int, leaf: Path, withPort: bool, cid: string)
    | Started(user: int, leaf: Path, withPort: bool, cid: string, port: Option<string>)
    | WithRow(withPort: bool, id: int, row: Row)
    | UndoingContainer(leaf: Path, cid: string)
    | RemovingFolder(leaf: Path)
    | Changing(id: int, row: Row, stage: Stage)
    | Removing(id: int, cid: string, folder: Option<Path>)
    | Removed(cid: string, folder: Option<Path>)

  // rows: committed; issued, made: ids given out so far by the table and by Docker;
  // docker: its containers, and whether they run; plans: MaxContainers of each user.
  datatype System = System(
    rows: map<int, Row>, issued: set<int>, docker: map<string, bool>, made: set<string>,
    folders: set<Path>, plans: map<int, int>, calls: map<int, Call>)

  datatype Action =
    // creations
    | Check(p: int, user: int, leaf: Path, withPort: bool, ok: bool)
    | PullFails(p: int)
    | MakeFolder(p: int, ok: bool)
    | ContainerCreate(p: int, ok: bool, cid: string)
    | ContainerStart(p: int, ok: bool)
    | Inspect(p: int, ok: bool, port: string)
    | Insert(p: int, ok: bool, id: int, now: int)
    | CommitCreate(p: int, ok: bool)
    | UndoContainer(p: int, ok: bool)
    | RemoveFolder(p: int, ok: bool)
    // start and stop
    | ReadToStart(p: int, id: int, now: int)
    | ReadToStop(p: int, id: int)
    | UpdateRow(p: int, ok: bool)
    | DockerActs(p: int, ok: bool)
    | CommitChange(p: int, ok: bool)
    // removals
    | ReadToRemove(p: int, id: int, removeFolder: bool)
    | CommitRemove(p: int, ok: bool)
    | DockerRemoves(p: int, ok: bool)
    | DeleteUser(user: int)
    // Docker and the recovery service, by themselves
    | Runs(cid: string, up: bool)
    | WriteStatus(id: int, status: string)

  function RowsOf(s: System, user: int): set<int> {
    set id | id in s.rows && s.rows[id].user == user
  }

  // os.MkdirAll makes the missing parents as well.
  function AndParents(leaf: Path): set<Path> {
    set k | 0 <= k <= |leaf| :: leaf[..k]
  }

  // What os.RemoveAll leaves.
  function Without(folders: set<Path>, leaf: Path): set<Path> {
    set f | f in folders && !(leaf <= f)
  }

  function Goes(s: System, p: int, c: Call): System {
    s.(calls := s.calls[p := c])
  }

  function Ends(s: System, p: int): System {
    s.(calls := s.calls - {p})
  }

  // A creation that fails with a container at hand: the deferred functions of CreateContainer
  // take it down, CreateContainerWithPort leaves it.
  function GivesUp(s: System, p: int, withPort: bool, leaf: Path, cid: string): System {
    if withPort then Ends(s, p) else Goes(s, p, UndoingContainer(leaf, cid))
  }

  predicate Holds(c: Call, id: int) {
    c.Changing? && c.id == id && c.stage != Waiting
  }

  // Another transaction that writes the row waits.
  predicate Locked(calls: map<int, Call>, id: int) {
    exists p | p in calls :: Holds(calls[p], id)
  }

  // UpdateContainer writes these columns of a row that is still there.
  function Updated(rows: map<int, Row>, id: int, row: Row): map<int, Row> {
    if id in rows then rows[id := row.(user := rows[id].user)] else rows
  }

  predicate Prepares(a: Action) {
    a.Check? || a.PullFails? || a.MakeFolder? || a.ContainerCreate? || a.ContainerStart?
  }

  // From the plan check to a container that runs.
  function PrepareStep(s: System, a: Action): System
    requires Prepares(a)
  {
    match a
    case Check(p, user, leaf, withPort, ok) =>
      if p !in s.calls && ok && user in s.plans && |RowsOf(s, user)| < s.plans[user]
      then Goes(s, p, Admitted(user, leaf, withPort)) else s
    case PullFails(p) =>
      if p in s.calls && s.calls[p].Admitted? then Ends(s, p) else s
    case MakeFolder(p, ok) =>
      if p in s.calls && s.calls[p].Admitted? then
        var c := s.calls[p];
        if ok then Goes(s, p, WithFolder(c.user, c.leaf, c.withPort)).(folders := s.folders + AndParents(c.leaf)) else Ends(s, p)
      else s
    case ContainerCreate(p, ok, cid) =>
      if p in s.calls && s.calls[p].WithFolder? then
        var c := s.calls[p];
        if !ok then Goes(s, p, RemovingFolder(c.leaf))
        else if cid in s.made then s
        else Goes(s, p, WithContainer(c.user, c.leaf, c.withPort, cid))
             .(docker := s.docker[cid := false], made := s.made + {cid})
      else s
    case _ =>
      if a.p in s.calls && s.calls[a.p].WithContainer? then
        var c := s.calls[a.p];
        if a.ok
        then Goes(s, a.p, Started(c.user, c.leaf, c.withPort, c.cid, if c.withPort then None else Some("")))
             .(docker := s.docker[c.cid := true])
        else Goes(s, a.p, UndoingContainer(c.leaf, c.cid))
      else s
  }

  predicate Records(a: Action) {
    a.Inspect? || a.Insert? || a.CommitCreate? || a.UndoContainer? || a.RemoveFolder?
  }

  // From there to a committed row, or back.
  function RecordStep(s: System, a: Action): System
    requires Records(a)
  {
    match a
    case Inspect(p, ok, port) =>
      if p in s.calls && s.calls[p].Started? && s.calls[p].withPort && s.calls[p].port.None? then
        if ok then Goes(s, p, s.calls[p].(port := Some(port))) else Ends(s, p)
      else s
    case Insert(p, ok, id, now) =>
      if p in s.calls && s.calls[p].Started? && s.calls[p].port.Some? then
        var c := s.calls[p];
        if !ok then GivesUp(s, p, c.withPort, c.leaf, c.cid)
        else if id in s.issued then s
        else Goes(s, p, WithRow(c.withPort, id, Row(c.user, c.cid, c.leaf, c.port.value, "running", Some(now))))
             .(issued := s.issued + {id})
      else s
    case CommitCreate(p, ok) =>
      if p in s.calls && s.calls[p].WithRow? then
        var c := s.calls[p];
        if ok then Ends(s, p).(rows := s.rows[c.id := c.row]) else GivesUp(s, p, c.withPort, c.row.folder, c.row.cid)
      else s
    case UndoContainer(p, ok) =>
      if p in s.calls && s.calls[p].UndoingContainer? then
        Goes(s, p, RemovingFolder(s.calls[p].leaf)).(docker := if ok then s.docker - {s.calls[p].cid} else s.docker)
      else s
    case _ =>
      if a.p in s.calls && s.calls[a.p].RemovingFolder? then
        Ends(s, a.p).(folders := if a.ok then Without(s.folders, s.calls[a.p].leaf) else s.folders)
      else s
  }

  predicate Changes(a: Action) {
    a.ReadToStart? || a.ReadToStop? || a.UpdateRow? || a.DockerActs? || a.CommitChange?
  }

  predicate Removes(a: Action) {
    a.ReadToRemove? || a.CommitRemove? || a.DockerRemoves? || a.DeleteUser?
  }

  function ChangeStep(s: System, a: Action): System
  {
    match a
    case ReadToStart(p, id, now) =>
      if p !in s.calls && id in s.rows
      then Goes(s, p, Changing(id, s.rows[id].(status := "running", startedAt := Some(now)), Waiting)) else s
    case ReadToStop(p, id) =>
      if p !in s.calls && id in s.rows
      then Goes(s, p, Changing(id, s.rows[id].(status := "stopped"), Waiting)) else s
    case UpdateRow(p, ok) =>
      if p in s.calls && s.calls[p].Changing? && s.calls[p].stage.Waiting? then
        var c := s.calls[p];
        if !ok || c.id !in s.rows then Ends(s, p)
        else if Locked(s.calls, c.id) then s
        else Goes(s, p, c.(stage := Holding))
      else s
    case DockerActs(p, ok) =>
      if p in s.calls && s.calls[p].Changing? && s.calls[p].stage.Holding? then
        var c := s.calls[p];
        // Docker refuses when it has no such container; the transaction is rolled back
        if ok && c.row.cid in s.docker
        then Goes(s, p, c.(stage := Done)).(docker := s.docker[c.row.cid := c.row.status == "running"])
        else Ends(s, p)
      else s
    case CommitChange(p, ok) =>
      if p in s.calls && s.calls[p].Changing? && s.calls[p].stage.Done? then
        Ends(s, p).(rows := if ok then Updated(s.rows, s.calls[p].id, s.calls[p].row) else s.rows)
      else s
    case _ => s
  }

  predicate AnyLocked(s: System, user: int) {
    exists id | id in RowsOf(s, user) :: Locked(s.calls, id)
  }

  function RemoveStep(s: System, a: Action): System
  {
    match a
    case ReadToRemove(p, id, removeFolder) =>
      if p !in s.calls && id in s.rows
      then Goes(s, p, Removing(id, s.rows[id].cid, if removeFolder then Some(s.rows[id].folder) else None)) else s
    case CommitRemove(p, ok) =>
      if p in s.calls && s.calls[p].Removing? then
        var c := s.calls[p];
        // no row is deleted when another call was faster
        if ok && Locked(s.calls, c.id) then s
        else if ok && c.id in s.rows then Goes(s, p, Removed(c.cid, c.folder)).(rows := s.rows - {c.id}) else Ends(s, p)
      else s
    case DockerRemoves(p, ok) =>
      if p in s.calls && s.calls[p].Removed? then
        var c := s.calls[p];
        var t := if c.folder.Some? then Goes(s, p, RemovingFolder(c.folder.value)) else Ends(s, p);
        t.(docker := if ok then s.docker - {c.cid} else s.docker)
      else s
    case DeleteUser(user) => if AnyLocked(s, user) then s else s.(rows := s.rows - RowsOf(s, user))
    case _ => s
  }

  // What Docker and the recovery service do by themselves.
  function OwnStep(s: System, a: Action): System {
    match a
    case Runs(cid, up) => if cid in s.docker then s.(docker := s.docker[cid := up]) else s
    case WriteStatus(id, status) =>
      if id in s.rows && !Locked(s.calls, id) then s.(rows := s.rows[id := s.rows[id].(status := status)]) else s
    case _ => s
  }

  function Do(s: System, a: Action): System {
    if Prepares(a) then PrepareStep(s, a)
    else if Records(a) then RecordStep(s, a)
    else if Changes(a) then ChangeStep(s, a)
    else if Removes(a) then RemoveStep(s, a)
    else OwnStep(s, a)
  }

  function Exec(s: System, actions: seq<Action>): System {
    if actions == [] then s
    else Do(Exec(s, actions[..|actions| - 1]), actions[|actions| - 1])
  }

  // No container yet, and no call under way.
  predicate Initial(s: System) {
    s.rows == map[] && s.docker == map[] && s.calls == map[]
  }

  // ------------------------------------------------------------------ what every step keeps

  function Cid(c: Call): Option<string> {
    match c
    case WithContainer(_, _, _, cid) => Some(cid)
    case Started(_, _, _, cid, _) => Some(cid)
    case WithRow(_, _, row) => Some(row.cid)
    case UndoingContainer(_, cid) => Some(cid)
    case Changing(_, row, _) => Some(row.cid)
    case Removing(_, cid, _) => Some(cid)
    case Removed(cid, _) => Some(cid)
    case _ => None
  }

  function Id(c: Call): Option<int> {
    match c
    case WithRow(_, id, _) => Some(id)
    case Changing(id, _, _) => Some(id)
    case Removing(id, _, _) => Some(id)
    case _ => None
  }

  // A container whose row is not committed yet: only its call knows of it.
  predicate Private(c: Call) {
    c.WithContainer? || c.Started? || c.WithRow? || c.UndoingContainer?
  }

  ghost predicate RowOk(s: System, id: int)
    requires id in s.rows
  {
    && id in s.issued && s.rows[id].cid in s.docker
    && forall j | j in s.rows && s.rows[j].cid == s.rows[id].cid :: j == id
  }

  // No row names the container.
  ghost predicate Unnamed(s: System, cid: string) {
    forall id | id in s.rows :: s.rows[id].cid != cid
  }

  // A row names the container exactly when it has this id.
  ghost predicate NamedBy(s: System, id: int, cid: string) {
    forall j | j in s.rows :: s.rows[j].cid == cid <==> j == id
  }

  ghost predicate Alone(s: System, p: int)
    requires p in s.calls
  {
    && (Private(s.calls[p]) ==> forall q | q in s.calls && q != p :: Cid(s.calls[q]) != Cid(s.calls[p]))
    && (s.calls[p].WithRow? ==> forall q | q in s.calls && q != p :: Id(s.calls[q]) != Id(s.calls[p]))
  }

  ghost predicate Knows(s: System, c: Call) {
    && (Cid(c).Some? ==> Cid(c).value in s.made)
    && (Id(c).Some? ==> Id(c).value in s.issued)
    && match c
       case WithRow(_, id, row) => Unnamed(s, row.cid) && row.cid in s.docker && id !in s.rows
       case WithContainer(_, _, _, cid) => Unnamed(s, cid) && cid in s.docker
       case Started(_, _, _, cid, _) => Unnamed(s, cid) && cid in s.docker
       case UndoingContainer(_, cid) => Unnamed(s, cid)
       case Changing(id, row, _) => NamedBy(s, id, row.cid)
       case Removing(id, cid, _) => NamedBy(s, id, cid)
       case Removed(cid, _) => Unnamed(s, cid)
       case _ => true
  }

  ghost predicate CallOk(s: System, p: int)
    requires p in s.calls
  {
    Knows(s, s.calls[p]) && Alone(s, p)
  }

  ghost predicate Ok(s: System) {
    && s.docker.Keys <= s.made
    && (forall id | id in s.rows :: RowOk(s, id))
    && (forall p | p in s.calls :: CallOk(s, p))
  }

  // ------------------------------------------------------------------ small changes

  // Calls stay as they are; no row is new or names another container, no id is taken back, and
  // no container goes that a row or a creation under way needs.
  ghost predicate NoNewRow(s: System, t: System) {
    && t.calls == s.calls
    && (forall id | id in t.rows :: id in s.rows && t.rows[id].cid == s.rows[id].cid && t.rows[id].cid in t.docker)
    && s.issued <= t.issued && s.made <= t.made && t.docker.Keys <= t.made
    && (forall p | p in s.calls && Private(s.calls[p]) && !s.calls[p].UndoingContainer? ::
          Cid(s.calls[p]).value in t.docker)
  }

  lemma {:induction false} KnowsStill(s: System, t: System, p: int)
    requires NoNewRow(s, t) && p in s.calls && CallOk(s, p)
    ensures CallOk(t, p)
  {
  }

  lemma {:induction false} NoNewRowKeeps(s: System, t: System)
    requires Ok(s) && NoNewRow(s, t)
    ensures Ok(t)
  {
    forall id | id in t.rows
      ensures RowOk(t, id)
    {
      assert RowOk(s, id);
    }
    forall p | p in t.calls
      ensures CallOk(t, p)
    {
      assert CallOk(s, p);
      KnowsStill(s, t, p);
    }
  }

  lemma {:induction false} EndsKeeps(s: System, p: int)
    requires Ok(s)
    ensures Ok(Ends(s, p))
  {
    var t := Ends(s, p);
    assert forall id | id in s.rows :: RowOk(s, id) && RowOk(t, id);
    forall q | q in t.calls
      ensures CallOk(t, q)
    {
      assert CallOk(s, q) && Knows(t, s.calls[q]);
    }
  }

  // What a call knows and nobody else has for itself.
  ghost predicate Discreet(s: System, p: int, c: Call) {
    forall q | q in s.calls && q != p ::
      && (Private(s.calls[q]) || Private(c) ==> Cid(c).None? || Cid(c) != Cid(s.calls[q]))
      && (s.calls[q].WithRow? || c.WithRow? ==> Id(c).None? || Id(c) != Id(s.calls[q]))
  }

  lemma {:induction false} GoesKeeps(s: System, p: int, c: Call)
    requires Ok(s) && Knows(s, c) && Discreet(s, p, c)
    ensures Ok(Goes(s, p, c))
  {
    var t := Goes(s, p, c);
    assert forall id | id in s.rows :: RowOk(s, id) && RowOk(t, id);
    assert Knows(t, c);
    forall q | q in t.calls
      ensures CallOk(t, q)
    {
      if q != p {
        assert CallOk(s, q) && Knows(t, s.calls[q]);
      }
    }
  }

  // The same container and the same row as before.
  lemma {:induction false} GoesOnKeeps(s: System, p: int, c: Call)
    requires Ok(s) && Knows(s, c) && p in s.calls
    requires Cid(c).Some? ==> Cid(c) == Cid(s.calls[p])
    requires Id(c).Some? ==> Id(c) == Id(s.calls[p])
    requires Private(c) ==> Private(s.calls[p])
    requires c.WithRow? ==> s.calls[p].WithRow?
    ensures Ok(Goes(s, p, c))
  {
    assert CallOk(s, p);
    forall q | q in s.calls && q != p
      ensures CallOk(s, q)
    {
    }
    GoesKeeps(s, p, c);
  }

  lemma {:induction false} RowAddKeeps(s: System, id: int, row: Row)
    requires Ok(s) && id in s.issued && id !in s.rows && Unnamed(s, row.cid) && row.cid in s.docker
    requires forall q | q in s.calls :: Cid(s.calls[q]) != Some(row.cid) && Id(s.calls[q]) != Some(id)
    ensures Ok(s.(rows := s.rows[id := row]))
  {
    var t := s.(rows := s.rows[id := row]);
    forall j | j in t.rows
      ensures RowOk(t, j)
    {
      assert j in s.rows ==> RowOk(s, j);
    }
    forall q | q in t.calls
      ensures CallOk(t, q)
    {
      assert CallOk(s, q);
      assert Knows(t, s.calls[q]);
    }
  }

  // ------------------------------------------------------------------ every step

  lemma {:induction false} PrepareKeeps(s: System, a: Action)
    requires Ok(s) && (a.Check? || a.PullFails? || a.MakeFolder?)
    ensures Ok(PrepareStep(s, a))
  {
    var t := PrepareStep(s, a);
    if t != s {
      var u := t.(folders := s.folders);
      if a.p !in t.calls {
        EndsKeeps(s, a.p);
      } else if a.p !in s.calls {
        GoesKeeps(s, a.p, t.calls[a.p]);
      } else {
        assert CallOk(s, a.p);
        GoesOnKeeps(s, a.p, t.calls[a.p]);
      }
      NoNewRowKeeps(u, t);
    }
  }

  lemma {:induction false} RecordKeeps(s: System, a: Action)
    requires Ok(s) && (a.Inspect? || a.RemoveFolder?)
    ensures Ok(RecordStep(s, a))
  {
    var t := RecordStep(s, a);
    if t != s {
      var u := t.(folders := s.folders);
      if a.p !in t.calls {
        EndsKeeps(s, a.p);
      } else {
        assert CallOk(s, a.p);
        GoesOnKeeps(s, a.p, t.calls[a.p]);
      }
      NoNewRowKeeps(u, t);
    }
  }

  lemma {:induction false} ContainerCreateKeeps(s: System, a: Action)
    requires Ok(s) && a.ContainerCreate?
    ensures Ok(PrepareStep(s, a))
  {
    var t := PrepareStep(s, a);
    if t != s {
      var u := s.(docker := t.docker, made := t.made);
      assert CallOk(s, a.p);
      assert forall id | id in s.rows :: RowOk(s, id);
      NoNewRowKeeps(s, u);
      assert forall q | q in s.calls :: CallOk(s, q) && CallOk(u, q);
      GoesKeeps(u, a.p, t.calls[a.p]);
    }
  }

  lemma {:induction false} ContainerStartKeeps(s: System, a: Action)
    requires Ok(s) && a.ContainerStart?
    ensures Ok(PrepareStep(s, a))
  {
    var t := PrepareStep(s, a);
    if t != s {
      assert CallOk(s, a.p);
      GoesOnKeeps(s, a.p, t.calls[a.p]);
      var u := Goes(s, a.p, t.calls[a.p]);
      assert forall id | id in s.rows :: RowOk(s, id);
      NoNewRowKeeps(u, t);
    }
  }

  lemma {:induction false} InsertKeeps(s: System, a: Action)
    requires Ok(s) && a.Insert?
    ensures Ok(RecordStep(s, a))
  {
    var t := RecordStep(s, a);
    if t != s {
      assert CallOk(s, a.p);
      if a.p !in t.calls {
        EndsKeeps(s, a.p);
      } else if !a.ok {
        GoesOnKeeps(s, a.p, t.calls[a.p]);
      } else {
        var u := s.(issued := t.issued);
        assert forall id | id in s.rows :: RowOk(s, id);
        NoNewRowKeeps(s, u);
        assert forall q | q in s.calls :: CallOk(s, q) && CallOk(u, q);
        GoesKeeps(u, a.p, t.calls[a.p]);
      }
    }
  }

  lemma {:induction false} CommitCreateKeeps(s: System, a: Action)
    requires Ok(s) && a.CommitCreate?
    ensures Ok(RecordStep(s, a))
  {
    var t := RecordStep(s, a);
    if t != s {
      assert CallOk(s, a.p);
      if a.p in t.calls {
        GoesOnKeeps(s, a.p, t.calls[a.p]);
      } else {
        EndsKeeps(s, a.p);
        if a.ok {
          RowAddKeeps(Ends(s, a.p), s.calls[a.p].id, s.calls[a.p].row);
        }
      }
    }
  }

  lemma {:induction false} UndoContainerKeeps(s: System, a: Action)
    requires Ok(s) && a.UndoContainer?
    ensures Ok(RecordStep(s, a))
  {
    var t := RecordStep(s, a);
    if t != s {
      assert CallOk(s, a.p);
      ContainerGoes(s, s.calls[a.p].cid, t.docker);
      GoesOnKeeps(s.(docker := t.docker), a.p, t.calls[a.p]);
    }
  }

  // A container that no row names and no creation needs can go.
  lemma {:induction false} ContainerGoes(s: System, cid: string, docker: map<string, bool>)
    requires Ok(s) && Unnamed(s, cid)
    requires docker == s.docker || docker == s.docker - {cid}
    requires forall q | q in s.calls && Private(s.calls[q]) && !s.calls[q].UndoingContainer? :: Cid(s.calls[q]) != Some(cid)
    ensures Ok(s.(docker := docker))
  {
    assert forall id | id in s.rows :: RowOk(s, id);
    assert forall q | q in s.calls :: CallOk(s, q);
    NoNewRowKeeps(s, s.(docker := docker));
  }

  // A row of the table is nobody's secret.
  lemma {:induction false} RowIsKnown(s: System, id: int, q: int)
    requires Ok(s) && id in s.rows && q in s.calls
    ensures Private(s.calls[q]) ==> Cid(s.calls[q]) != Some(s.rows[id].cid)
    ensures s.calls[q].WithRow? ==> Id(s.calls[q]) != Some(id)
    ensures NamedBy(s, id, s.rows[id].cid) && id in s.issued && s.rows[id].cid in s.made
  {
    assert RowOk(s, id) && CallOk(s, q);
    forall j | j in s.rows
      ensures s.rows[j].cid == s.rows[id].cid <==> j == id
    {
      assert RowOk(s, j);
    }
  }

  lemma {:induction false} RowGoesKeeps(s: System, p: int, id: int, c: Call)
    requires Ok(s) && id in s.rows && p !in s.calls && (c.Changing? || c.Removing?)
    requires Id(c) == Some(id) && Cid(c) == Some(s.rows[id].cid)
    ensures Ok(Goes(s, p, c))
  {
    forall q | q in s.calls
      ensures Private(s.calls[q]) ==> Cid(s.calls[q]) != Cid(c)
      ensures s.calls[q].WithRow? ==> Id(s.calls[q]) != Id(c)
    {
      RowIsKnown(s, id, q);
    }
    assert RowOk(s, id) && forall j | j in s.rows :: RowOk(s, j);
    GoesKeeps(s, p, c);
  }

  lemma {:induction false} ReadKeeps(s: System, a: Action)
    requires Ok(s) && (a.ReadToStart? || a.ReadToStop?)
    ensures Ok(ChangeStep(s, a))
  {
    var t := ChangeStep(s, a);
    if t != s {
      RowGoesKeeps(s, a.p, a.id, t.calls[a.p]);
    }
  }

  lemma {:induction false} UpdateRowKeeps(s: System, a: Action)
    requires Ok(s) && a.UpdateRow?
    ensures Ok(ChangeStep(s, a))
  {
    hide Locked;
    var t := ChangeStep(s, a);
    if t != s {
      if a.p !in t.calls {
        EndsKeeps(s, a.p);
      } else {
        assert CallOk(s, a.p);
        GoesOnKeeps(s, a.p, t.calls[a.p]);
      }
    }
  }

  lemma {:induction false} DockerActsKeeps(s: System, a: Action)
    requires Ok(s) && a.DockerActs?
    ensures Ok(ChangeStep(s, a))
  {
    var t := ChangeStep(s, a);
    if t != s {
      if a.p !in t.calls {
        EndsKeeps(s, a.p);
      } else {
        assert CallOk(s, a.p);
        GoesOnKeeps(s, a.p, t.calls[a.p]);
        ContainerRuns(Goes(s, a.p, t.calls[a.p]), s.calls[a.p].row.cid, s.calls[a.p].row.status == "running");
      }
    }
  }

  lemma {:induction false} ContainerRuns(s: System, cid: string, up: bool)
    requires Ok(s) && cid in s.docker
    ensures Ok(s.(docker := s.docker[cid := up]))
  {
    assert forall id | id in s.rows :: RowOk(s, id);
    assert forall q | q in s.calls :: CallOk(s, q);
    NoNewRowKeeps(s, s.(docker := s.docker[cid := up]));
  }

  lemma {:induction false} CommitChangeKeeps(s: System, a: Action)
    requires Ok(s) && a.CommitChange?
    ensures Ok(ChangeStep(s, a))
  {
    var t := ChangeStep(s, a);
    if t != s {
      assert CallOk(s, a.p);
      EndsKeeps(s, a.p);
      assert forall id | id in s.rows :: RowOk(s, id);
      assert forall q | q in s.calls :: CallOk(s, q);
      NoNewRowKeeps(Ends(s, a.p), t);
    }
  }

  lemma {:induction false} RowsGo(s: System, rows: map<int, Row>)
    requires Ok(s) && forall id | id in rows :: id in s.rows && rows[id] == s.rows[id]
    ensures Ok(s.(rows := rows))
  {
    assert forall id | id in s.rows :: RowOk(s, id);
    assert forall q | q in s.calls :: CallOk(s, q);
    NoNewRowKeeps(s, s.(rows := rows));
  }

  lemma {:induction false} CommitRemoveKeeps(s: System, a: Action)
    requires Ok(s) && (a.CommitRemove? || a.DeleteUser?)
    ensures Ok(RemoveStep(s, a))
  {
    var t := RemoveStep(s, a);
    if t != s {
      if a.DeleteUser? {
        RowsGo(s, t.rows);
      } else if a.p !in t.calls {
        EndsKeeps(s, a.p);
      } else {
        assert CallOk(s, a.p);
        RowsGo(s, t.rows);
        GoesOnKeeps(s.(rows := t.rows), a.p, t.calls[a.p]);
      }
    }
  }

  lemma {:induction false} ReadToRemoveKeeps(s: System, a: Action)
    requires Ok(s) && a.ReadToRemove?
    ensures Ok(RemoveStep(s, a))
  {
    var t := RemoveStep(s, a);
    if t != s {
      RowGoesKeeps(s, a.p, a.id, t.calls[a.p]);
    }
  }

  lemma {:induction false} DockerRemovesKeeps(s: System, a: Action)
    requires Ok(s) && a.DockerRemoves?
    ensures Ok(RemoveStep(s, a))
  {
    var t := RemoveStep(s, a);
    if t != s {
      assert forall q | q in s.calls :: CallOk(s, q);
      ContainerGoes(s, s.calls[a.p].cid, t.docker);
      var u := s.(docker := t.docker);
      if a.p in t.calls {
        GoesOnKeeps(u, a.p, t.calls[a.p]);
      } else {
        EndsKeeps(u, a.p);
      }
    }
  }

  lemma {:induction false} PrepareStepKeeps(s: System, a: Action)
    requires Ok(s) && Prepares(a)
    ensures Ok(PrepareStep(s, a))
  {
    match a
    case ContainerCreate(_, _, _) => ContainerCreateKeeps(s, a);
    case ContainerStart(_, _) => ContainerStartKeeps(s, a);
    case _ => PrepareKeeps(s, a);
  }

  lemma {:induction false} RecordStepKeeps(s: System, a: Action)
    requires Ok(s) && Records(a)
    ensures Ok(RecordStep(s, a))
  {
    match a
    case Insert(_, _, _, _) => InsertKeeps(s, a);
    case CommitCreate(_, _) => CommitCreateKeeps(s, a);
    case UndoContainer(_, _) => UndoContainerKeeps(s, a);
    case _ => RecordKeeps(s, a);
  }

  lemma {:induction false} ChangeStepKeeps(s: System, a: Action)
    requires Ok(s) && Changes(a)
    ensures Ok(ChangeStep(s, a))
  {
    match a
    case UpdateRow(_, _) => UpdateRowKeeps(s, a);
    case DockerActs(_, _) => DockerActsKeeps(s, a);
    case CommitChange(_, _) => CommitChangeKeeps(s, a);
    case _ => ReadKeeps(s, a);
  }

  lemma {:induction false} RemoveStepKeeps(s: System, a: Action)
    requires Ok(s) && Removes(a)
    ensures Ok(RemoveStep(s, a))
  {
    match a
    case ReadToRemove(_, _, _) => ReadToRemoveKeeps(s, a);
    case DockerRemoves(_, _) => DockerRemovesKeeps(s, a);
    case _ => CommitRemoveKeeps(s, a);
  }

  lemma {:induction false} StepKeepsOk(s: System, a: Action)
    requires Ok(s)
    ensures Ok(Do(s, a))
  {
    if Prepares(a) {
      PrepareStepKeeps(s, a);
    } else if Records(a) {
      RecordStepKeeps(s, a);
    } else if Changes(a) {
      ChangeStepKeeps(s, a);
    } else if Removes(a) {
      RemoveStepKeeps(s, a);
    } else {
      ByItself(s, a);
    }
  }

  lemma {:induction false} ByItself(s: System, a: Action)
    requires Ok(s)
    ensures Ok(OwnStep(s, a))
  {
    assert forall id | id in s.rows :: RowOk(s, id);
    assert forall q | q in s.calls :: CallOk(s, q);
    NoNewRowKeeps(s, OwnStep(s, a));
  }

  lemma {:induction false} RunsAreOk(s: System, actions: seq<Action>)
    requires Initial(s)
    ensures Ok(Exec(s, actions))
  {
    if actions != [] {
      RunsAreOk(s, actions[..|actions| - 1]);
      StepKeepsOk(Exec(s, actions[..|actions| - 1]), actions[|actions| - 1]);
    }
  }

  /** Under every interleaving and whatever fails, each committed row names a container that
      Docker has, and no two rows name the same one. */
  lemma {:induction false} RowsNameContainers(s: System, actions: seq<Action>, id: int)
    requires Initial(s) && id in Exec(s, actions).rows
    ensures var e := Exec(s, actions);
            && e.rows[id].cid in e.docker
            && forall j | j in e.rows && e.rows[j].cid == e.rows[id].cid :: j == id
  {
    RunsAreOk(s, actions);
    assert RowOk(Exec(s, actions), id);
  }
}
