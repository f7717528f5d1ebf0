/**
 GetContainersForUserByID of service/repository.go: the rows of a LEFT JOIN, folded into a
 user and the list of the user's containers.
 */
module UserContainers {
  import opened Common
  import opened Lifecycle

  datatype User = User(id: int, name: string, email: string, verified: bool, role: string, plan: string)

  // The columns of containers, which are all NULL for a user without containers. Of a row
  // that is there, port and started_at can be NULL.
  datatype Columns = Columns(cid: string, id: int, folder: Path, port: Option<string>, status: string, startedAt: Option<int>)

  datatype JoinRow = JoinRow(user: User, container: Option<Columns>)

  datatype Info = Info(id: int, row: Row)

  function Scan(user: User, c: Columns): Info {
    Info(c.id, Row(user.id, c.cid, c.folder, if c.port.Some? then c.port.value else "", c.status, c.startedAt))
  }

  function Infos(answer: seq<JoinRow>): seq<Info> {
    if answer == [] then []
    else
      var before, last := Infos(answer[..|answer| - 1]), answer[|answer| - 1];
      if last.container.None? then before else before + [Scan(last.user, last.container.value)]
  }

  // None is UserNotFound.
  method GetContainersForUserByID(answer: seq<JoinRow>) returns (r: Option<(User, seq<Info>)>)
    ensures r == if answer == [] then None else Some((answer[0].user, Infos(answer)))
  {
    var user: Option<User> := None;
    var containers: seq<Info> := [];
    var foundUser := false;
    for i := 0 to |answer|
      invariant foundUser == (i > 0)
      invariant user == if i > 0 then Some(answer[0].user) else None
      invariant containers == Infos(answer[..i])
    {
      assert answer[..i + 1][..i] == answer[..i];
      foundUser := true;
      if user.None? {
        user := Some(answer[i].user);
      }
      if answer[i].container.None? {
        continue;
      }
      containers := containers + [Scan(answer[i].user, answer[i].container.value)];
    }
    assert answer[..|answer|] == answer;
    if !foundUser {
      return None;
    }
    return Some((user.value, containers));
  }

  // ------------------------------------------------------------------ what the query answers

  predicate IsRow(s: System, user: int, j: JoinRow) {
    && j.user.id == user && j.container.Some?
    && j.container.value.id in s.rows && Scan(j.user, j.container.value).row == s.rows[j.container.value.id]
  }

  // One row a container, in any order, or a single row without one; no row for no user.
  ghost predicate IsJoin(s: System, user: int, answer: seq<JoinRow>) {
    if user !in s.plans then answer == []
    else if RowsOf(s, user) == {} then |answer| == 1 && answer[0].user.id == user && answer[0].container.None?
    else
      && (forall i | 0 <= i < |answer| :: IsRow(s, user, answer[i]))
      && (forall i, j | 0 <= i < j < |answer| :: answer[i].container.value.id != answer[j].container.value.id)
      && (forall id | id in RowsOf(s, user) :: exists i :: 0 <= i < |answer| && answer[i].container.value.id == id)
  }

  lemma {:induction false} InfosOfRows(answer: seq<JoinRow>)
    requires forall i | 0 <= i < |answer| :: answer[i].container.Some?
    ensures |Infos(answer)| == |answer|
    ensures forall i | 0 <= i < |answer| :: Infos(answer)[i] == Scan(answer[i].user, answer[i].container.value)
  {
    if answer != [] {
      InfosOfRows(answer[..|answer| - 1]);
    }
  }

  lemma {:induction false} DistinctCount(ids: seq<int>)
    requires forall i, j | 0 <= i < j < |ids| :: ids[i] != ids[j]
    ensures |set id | id in ids| == |ids|
  {
    if ids == [] {
      assert (set id | id in ids) == {};
    } else {
      var n := |ids| - 1;
      DistinctCount(ids[..n]);
      assert (set id | id in ids) == (set id | id in ids[..n]) + {ids[n]};
    }
  }

  lemma {:induction false} JoinedIds(s: System, user: int, answer: seq<JoinRow>, ids: seq<int>)
    requires user in s.plans && IsJoin(s, user, answer) && RowsOf(s, user) != {}
    requires |ids| == |answer| && forall i | 0 <= i < |answer| :: answer[i].container.Some? && ids[i] == answer[i].container.value.id
    ensures (set id | id in ids) == RowsOf(s, user) && |ids| == |RowsOf(s, user)|
  {
    forall i | 0 <= i < |ids|
      ensures ids[i] in RowsOf(s, user)
    {
      assert IsRow(s, user, answer[i]);
    }
    forall id | id in RowsOf(s, user)
      ensures id in ids
    {
      var i :| 0 <= i < |answer| && answer[i].container.value.id == id;
      assert ids[i] == id;
    }
    DistinctCount(ids);
  }

  /** The list the plan check counts is exactly the user's rows: every row of the user is in it
      once, and nothing else is. */
  lemma {:induction false} ListIsTheRows(s: System, user: int, answer: seq<JoinRow>)
    requires user in s.plans && IsJoin(s, user, answer)
    ensures answer != [] && answer[0].user.id == user
    ensures |Infos(answer)| == |RowsOf(s, user)|
    ensures forall info :: info in Infos(answer) <==> info.id in RowsOf(s, user) && info.row == s.rows[info.id]
  {
    var infos := Infos(answer);
    if RowsOf(s, user) == {} {
      assert answer == [answer[0]];
      assert Infos(answer[..0]) == [];
      assert infos == [];
    } else {
      assert forall i | 0 <= i < |answer| :: IsRow(s, user, answer[i]);
      InfosOfRows(answer);
      var ids := seq(|answer|, i requires 0 <= i < |answer| => answer[i].container.value.id);
      JoinedIds(s, user, answer, ids);
      forall i | 0 <= i < |answer|
        ensures ids[i] in RowsOf(s, user) && infos[i] == Info(ids[i], s.rows[ids[i]])
      {
        assert ids[i] in ids;
      }
      forall info: Info | info.id in RowsOf(s, user) && info.row == s.rows[info.id]
        ensures info in infos
      {
        assert info.id in ids;
        var i :| 0 <= i < |ids| && ids[i] == info.id;
        assert infos[i] == info;
      }
    }
  }
}
