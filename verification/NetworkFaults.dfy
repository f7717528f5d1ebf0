/**
 Network calls that fail half-way, and calls that overlap: when membership rows and Docker's
 endpoints still agree afterwards.
 */
module NetworkFaults {
  import opened Networks

  // ------------------------------------------------------------------ a failing statement

  // Docker acts before the database statement, and what it did is not taken back.
  predicate DockerFirst(op: Op) {
    op.Connect? || op.Disconnect? || op.DeleteNetwork?
  }

  // What Docker's part alone makes of the store.
  function DockerPart(s: Store, op: Op): Store
    requires DockerFirst(op) && Succeeds(s, op)
  {
    var t := Do(s, op);
    s.(nets := t.nets, endpoints := t.endpoints)
  }

  // An operation whose database statement works, or does not. CreateNetwork takes the network
  // back, and RemoveContainer has not come to Docker yet.
  function DoWith(s: Store, op: Op, works: bool): Store {
    if works then Do(s, op)
    else if DockerFirst(op) && Succeeds(s, op) then DockerPart(s, op)
    else s
  }

  lemma {:induction false} HalfConnectBreaks(s: Store, op: Op)
    requires Inv(s) && op.Connect? && Succeeds(s, op)
    ensures !Inv(DockerPart(s, op))
  {
    var t, m := DockerPart(s, op), (op.project, op.net);
    MemberIffEndpoint(s, m);
    assert Image(t, m) in t.endpoints && m !in t.members;
    if Inv(t) {
      MemberIffEndpoint(t, m);
      assert false;
    }
  }

  lemma {:induction false} HalfDisconnectBreaks(s: Store, op: Op)
    requires Inv(s) && op.Disconnect? && Succeeds(s, op)
    ensures !Inv(DockerPart(s, op))
  {
    var t, m := DockerPart(s, op), (op.project, op.net);
    MemberIffEndpoint(s, m);
    assert Image(t, m) !in t.endpoints && m in t.members;
    if Inv(t) {
      MemberIffEndpoint(t, m);
      assert false;
    }
  }

  /** After an operation whose database statement may fail, rows and Docker agree exactly when
      the statement worked, or Docker had not acted, or what it did was taken back. */
  lemma {:induction false} AgreesAfterStatement(s: Store, op: Op, works: bool)
    requires Inv(s) && FreshIds(s, op)
    ensures Inv(DoWith(s, op, works)) <==> works || !DockerFirst(op) || !Succeeds(s, op)
  {
    if works {
      OpKeepsInv(s, op);
    } else if DockerFirst(op) && Succeeds(s, op) {
      match op
      case Connect(_, _, _, _) => HalfConnectBreaks(s, op);
      case Disconnect(_, _, _) => HalfDisconnectBreaks(s, op);
      case DeleteNetwork(_, net) => assert s.networks[net].dockerId !in DockerPart(s, op).nets;
    }
  }

  // ------------------------------------------------------------------ a failing Docker call

  // DeleteNetwork when Docker does not remove the network: of the running containers on it,
  // these have been disconnected. There are none when the inspection failed.
  function Emptied(s: Store, net: string, off: set<string>): Store
    requires net in s.networks
  {
    s.(endpoints := s.endpoints - ListedIn(s, s.networks[net].dockerId, off))
  }

  function ListedIn(s: Store, dockerNet: string, off: set<string>): set<Endpoint> {
    set e | e in s.endpoints && e.0 == dockerNet && e.1 in s.running && e.1 in off
  }

  /** After a network was not removed, rows and Docker agree exactly when no container was
      disconnected from it. */
  lemma {:induction false} AgreesWhenNotRemoved(s: Store, net: string, off: set<string>)
    requires Inv(s) && net in s.networks
    ensures Inv(Emptied(s, net, off)) <==> ListedIn(s, s.networks[net].dockerId, off) == {}
  {
    var t, gone := Emptied(s, net, off), ListedIn(s, s.networks[net].dockerId, off);
    if gone == {} {
      assert t == s;
    } else {
      var e :| e in gone;
      var m :| m in s.members && Image(s, m) == e;
      assert m in t.members && Image(t, m) !in t.endpoints;
    }
  }

  // RemoveContainer after its commit: Docker disconnects the container from these networks of
  // those it was a member of, and removes it or does not.
  function RemovedWith(s: Store, project: int, disconnected: set<string>, removes: bool): Store
    requires project in s.containers
  {
    var cont := s.containers[project].dockerId;
    if removes then Do(s, RemoveContainer(project))
    else Do(s, RemoveContainer(project)).(conts := s.conts, running := s.running,
                                          endpoints := s.endpoints - Off(s, project, disconnected))
  }

  // The networks its membership rows name.
  function NetsOf(s: Store, project: int): set<string> {
    set m | m in s.members && m.0 == project && m.1 in s.networks :: s.networks[m.1].dockerId
  }

  function Off(s: Store, project: int, disconnected: set<string>): set<Endpoint>
    requires project in s.containers
  {
    set net | net in NetsOf(s, project) * disconnected :: (net, s.containers[project].dockerId)
  }

  // By the rows, a container is on no network that it would not be disconnected from.
  lemma {:induction false} OffIsAll(s: Store, project: int, disconnected: set<string>, e: Endpoint)
    requires Inv(s) && project in s.containers && e in s.endpoints && e.1 == s.containers[project].dockerId
    ensures e in Off(s, project, disconnected) <==> e.0 in disconnected
  {
    var m :| m in s.members && Image(s, m) == e;
    assert m.0 == project && m.1 in s.networks;
    assert s.networks[m.1].dockerId in NetsOf(s, project);
    assert e == (e.0, e.1);
  }

  lemma {:induction false} AllAreOff(s: Store, project: int, disconnected: set<string>)
    requires Inv(s) && project in s.containers
    requires forall e | e in s.endpoints && e.1 == s.containers[project].dockerId :: e.0 in disconnected
    ensures s.endpoints - Off(s, project, disconnected)
            == s.endpoints - OfContainer(s.endpoints, s.containers[project].dockerId)
  {
    forall e | e in s.endpoints
      ensures e in Off(s, project, disconnected) <==> e.1 == s.containers[project].dockerId
    {
      if e.1 == s.containers[project].dockerId {
        OffIsAll(s, project, disconnected, e);
      }
    }
  }

  lemma {:induction false} LeftByAll(s: Store, project: int, disconnected: set<string>)
    requires Inv(s) && project in s.containers
    requires forall e | e in s.endpoints && e.1 == s.containers[project].dockerId :: e.0 in disconnected
    ensures Inv(RemovedWith(s, project, disconnected, false))
  {
    var t := RemovedWith(s, project, disconnected, false);
    AllAreOff(s, project, disconnected);
    RemoveContainerKeepsNames(s, RemoveContainer(project));
    ContainerGone(s, t, project);
    assert NoStray(t) by { hide Tied, Off, NetsOf; }
    assert Named(t) by { hide NoStray, Off, NetsOf, SameUser; }
  }

  lemma {:induction false} DifferentContainers(s: Store, c: int, d: int)
    requires Named(s) && c in s.containers && d in s.containers && c != d
    ensures s.containers[c].dockerId != s.containers[d].dockerId
  {
  }

  // An endpoint of a container that has no row.
  lemma {:induction false} WithoutRow(t: Store, s: Store, project: int, e: Endpoint)
    requires Named(s) && project in s.containers && e in t.endpoints && e.1 == s.containers[project].dockerId
    requires t.containers == s.containers - {project}
    ensures !Inv(t)
  {
    hide NoStray, Named;
    if Inv(t) {
      var m :| m in t.members && Image(t, m) == e;
      DifferentContainers(s, m.0, project);
      assert false;
    }
  }

  lemma {:induction false} NotLeft(s: Store, project: int, disconnected: set<string>, e: Endpoint)
    requires Inv(s) && project in s.containers
    requires e in s.endpoints && e.1 == s.containers[project].dockerId && e.0 !in disconnected
    ensures !Inv(RemovedWith(s, project, disconnected, false))
  {
    OffIsAll(s, project, disconnected, e);
    WithoutRow(RemovedWith(s, project, disconnected, false), s, project, e);
  }

  /** After a removal that committed, rows and Docker agree exactly when Docker removed the
      container, or disconnected it from every network it was on. */
  lemma {:induction false} AgreesAfterRemoval(s: Store, project: int, disconnected: set<string>, removes: bool)
    requires Inv(s) && project in s.containers
    ensures Inv(RemovedWith(s, project, disconnected, removes))
            <==> removes || forall e | e in s.endpoints && e.1 == s.containers[project].dockerId :: e.0 in disconnected
  {
    if removes {
      OpKeepsInv(s, RemoveContainer(project));
    } else if e :| e in s.endpoints && e.1 == s.containers[project].dockerId && e.0 !in disconnected {
      NotLeft(s, project, disconnected, e);
    } else {
      LeftByAll(s, project, disconnected);
    }
  }

  // The rows of a user go, with all that refers to them; Docker is not told.
  function UserDeleted(s: Store, user: string): Store {
    s.(containers := map c | c in s.containers && s.containers[c].user != user :: s.containers[c],
       networks := map n | n in s.networks && s.networks[n].user != user :: s.networks[n],
       members := map m | m in s.members && !IsOf(s, m, user) :: s.members[m])
  }

  predicate IsOf(s: Store, m: Member, user: string) {
    (m.0 in s.containers && s.containers[m.0].user == user) || (m.1 in s.networks && s.networks[m.1].user == user)
  }

  lemma {:induction false} UserDeletedKeepsNames(s: Store, user: string)
    requires Named(s)
    ensures Named(UserDeleted(s, user))
  {
  }

  lemma {:induction false} UserWithoutNetwork(s: Store, user: string)
    requires Inv(s) && forall n | n in s.networks :: s.networks[n].user != user
    ensures Inv(UserDeleted(s, user))
  {
    var t := UserDeleted(s, user);
    assert t.networks == s.networks;
    UserDeletedKeepsNames(s, user);
    forall m | m in s.members
      ensures m in t.members && SameRows(s, t, m)
    {
      MemberKept(s, user, m);
    }
    RowsStay(s, t);
  }

  lemma {:induction false} RowsStay(s: Store, t: Store)
    requires SameUser(s) && Mirrored(s) && t.endpoints == s.endpoints && t.members.Keys <= s.members.Keys
    requires forall m | m in s.members :: m in t.members && t.members[m] == s.members[m] && SameRows(s, t, m)
    ensures SameUser(t) && Mirrored(t)
  {
    forall m | m in s.members
      ensures Image(s, m) in s.endpoints
    {
    }
    TogetherKeeps(s, t);
  }

  lemma {:induction false} MemberKept(s: Store, user: string, m: Member)
    requires Inv(s) && m in s.members && forall n | n in s.networks :: s.networks[n].user != user
    ensures !IsOf(s, m, user) && SameRows(s, UserDeleted(s, user), m)
  {
    var n := m.1;
    assert s.networks[n].user != user;
  }

  lemma {:induction false} UserWithNetwork(s: Store, user: string, net: string)
    requires Inv(s) && OwnsNetwork(s, user, net)
    ensures !Inv(UserDeleted(s, user))
  {
    var t, d := UserDeleted(s, user), s.networks[net].dockerId;
    assert d in t.nets;
    forall n | n in t.networks
      ensures t.networks[n].dockerId != d
    {
      assert n in s.networks && n != net;
    }
  }

  /** After a user is deleted, rows and Docker agree exactly when the user had no network: Docker
      keeps the networks, and the endpoints on them. */
  lemma {:induction false} AgreesAfterUserDeletion(s: Store, user: string)
    requires Inv(s)
    ensures Inv(UserDeleted(s, user)) <==> forall n | n in s.networks :: s.networks[n].user != user
  {
    if forall n | n in s.networks :: s.networks[n].user != user {
      UserWithoutNetwork(s, user);
    } else {
      var net :| net in s.networks && s.networks[net].user == user;
      UserWithNetwork(s, user, net);
    }
  }

  // ------------------------------------------------------------------ overlapping calls

  // The INSERT of ConnectContainer.
  function Inserted(s: Store, net: string, project: int, alias: string): Store {
    s.(members := s.members[(project, net) := alias])
  }

  /** Two calls that overlap: ConnectContainer has connected the container, DisconnectContainer
      runs from start to end, and ConnectContainer inserts its row. Whatever the store was, the
      row is left without an endpoint. */
  lemma {:induction false} OverlapBreaks(s: Store, user: string, net: string, project: int, alias: string)
    requires Inv(s) && Succeeds(s, Connect(user, net, project, alias))
    ensures var connected := DockerPart(s, Connect(user, net, project, alias));
            var t := Inserted(Do(connected, Disconnect(user, net, project)), net, project, alias);
            && Succeeds(connected, Disconnect(user, net, project))
            && (project, net) in t.members && Image(t, (project, net)) !in t.endpoints && !Inv(t)
  {
  }
}
