/**
 The private networks of service/networkService.go: the rows of container_networks mirror
 the endpoints Docker has on the networks it was asked to create. Calls to Docker and to the
 database fail only for the reasons modelled here; ids they hand out are new.
 */
module Networks {

  datatype Container = Container(user: string, dockerId: string)

  datatype Network = Network(user: string, name: string, dockerId: string, dockerName: string)

  type Member = (int, string)      // container row id, network row id
  type Endpoint = (string, string) // Docker network id, Docker container id

  // containers, networks, members: the tables. nets, names, conts, running, endpoints: what
  // Docker has. Only networks created through the service are in nets, with their names.
  datatype Store = Store(
    containers: map<int, Container>, networks: map<string, Network>, members: map<Member, string>,
    nets: map<string, string>, conts: set<string>, running: set<string>,
    endpoints: map<Endpoint, string>)

  function DockerName(user: string, name: string): string {
    "codedock_" + user + "_" + name
  }

  function NetworksOf(s: Store, user: string): set<string> {
    set n | n in s.networks && s.networks[n].user == user
  }

  predicate OwnsNetwork(s: Store, user: string, net: string) {
    net in s.networks && s.networks[net].user == user
  }

  predicate OwnsContainer(s: Store, user: string, project: int) {
    project in s.containers && s.containers[project].user == user
  }

  // ------------------------------------------------------------------ Docker's side

  // NetworkConnect refuses a container that is already on the network.
  predicate CanConnect(s: Store, net: string, cont: string) {
    net in s.nets && cont in s.conts && (net, cont) !in s.endpoints
  }

  // NetworkDisconnect of a container that is not on the network is an error.
  predicate CanDisconnect(s: Store, net: string, cont: string) {
    (net, cont) in s.endpoints
  }

  // NetworkInspect lists the containers that are running.
  function Inspect(s: Store, net: string): set<string> {
    set e | e in s.endpoints && e.0 == net && e.1 in s.running :: e.1
  }

  function OnNetwork(endpoints: map<Endpoint, string>, net: string): set<Endpoint> {
    set e | e in endpoints && e.0 == net
  }

  function OfContainer(endpoints: map<Endpoint, string>, cont: string): set<Endpoint> {
    set e | e in endpoints && e.1 == cont
  }

  // ------------------------------------------------------------------ the operations

  datatype Op =
    | AddContainer(project: int, user: string, dockerId: string)
    | RemoveContainer(project: int)
    | SetRunning(cont: string, up: bool)
    | CreateNetwork(user: string, name: string, maxNets: int, dockerId: string, id: string)
    | Connect(user: string, net: string, project: int, alias: string)
    | Disconnect(user: string, net: string, project: int)
    | DeleteNetwork(user: string, net: string)

  // What an operation is asked with: ids that the database and Docker have not handed out before.
  predicate FreshIds(s: Store, op: Op) {
    match op
    case AddContainer(project, _, dockerId) =>
      project !in s.containers && dockerId !in s.conts && forall c | c in s.containers :: s.containers[c].dockerId != dockerId
    case CreateNetwork(_, _, _, dockerId, id) =>
      id !in s.networks && dockerId !in s.nets && forall n | n in s.networks :: s.networks[n].dockerId != dockerId
    case _ => true
  }

  predicate Succeeds(s: Store, op: Op) {
    match op
    case AddContainer(_, _, _) => true
    case RemoveContainer(project) => project in s.containers
    case SetRunning(cont, _) => cont in s.conts
    case CreateNetwork(user, name, maxNets, _, _) =>
      |NetworksOf(s, user)| < maxNets && DockerName(user, name) !in s.nets.Values
    case Connect(user, net, project, _) =>
      && OwnsNetwork(s, user, net) && OwnsContainer(s, user, project)
      && CanConnect(s, s.networks[net].dockerId, s.containers[project].dockerId)
    case Disconnect(user, net, project) =>
      && OwnsNetwork(s, user, net) && OwnsContainer(s, user, project)
      && CanDisconnect(s, s.networks[net].dockerId, s.containers[project].dockerId)
    case DeleteNetwork(user, net) => OwnsNetwork(s, user, net)
  }

  // The store after an operation. One that does not succeed changes nothing.
  function Do(s: Store, op: Op): Store {
    if !Succeeds(s, op) then s
    else match op
      case AddContainer(project, user, dockerId) =>
        s.(containers := s.containers[project := Container(user, dockerId)],
           conts := s.conts + {dockerId}, running := s.running + {dockerId})
      case RemoveContainer(project) =>
        var cont := s.containers[project].dockerId;
        s.(containers := s.containers - {project},
           members := s.members - (set m | m in s.members && m.0 == project),
           conts := s.conts - {cont}, running := s.running - {cont},
           endpoints := s.endpoints - OfContainer(s.endpoints, cont))
      case SetRunning(cont, up) =>
        s.(running := if up then s.running + {cont} else s.running - {cont})
      case CreateNetwork(user, name, _, dockerId, id) =>
        var dockerName := DockerName(user, name);
        s.(networks := s.networks[id := Network(user, name, dockerId, dockerName)],
           nets := s.nets[dockerId := dockerName])
      case Connect(user, net, project, alias) =>
        s.(endpoints := s.endpoints[(s.networks[net].dockerId, s.containers[project].dockerId) := alias],
           members := s.members[(project, net) := alias])
      case Disconnect(user, net, project) =>
        s.(endpoints := s.endpoints - {(s.networks[net].dockerId, s.containers[project].dockerId)},
           members := s.members - {(project, net)})
      case DeleteNetwork(user, net) =>
        var n := s.networks[net];
        s.(networks := s.networks - {net},
           members := s.members - (set m | m in s.members && m.1 == net),
           nets := s.nets - {n.dockerId},
           endpoints := s.endpoints - OnNetwork(s.endpoints, n.dockerId))
  }

  // ------------------------------------------------------------------ the invariant

  // Every membership row joins a container and a network of the same user.
  ghost predicate SameUser(s: Store) {
    forall m | m in s.members ::
      m.0 in s.containers && m.1 in s.networks && s.containers[m.0].user == s.networks[m.1].user
  }

  function Image(s: Store, m: Member): Endpoint
    requires m.0 in s.containers && m.1 in s.networks
  {
    (s.networks[m.1].dockerId, s.containers[m.0].dockerId)
  }

  // The rows and the endpoints are the same relation, alias by alias.
  ghost predicate Mirrored(s: Store)
    requires SameUser(s)
  {
    && (forall m | m in s.members :: Image(s, m) in s.endpoints && s.endpoints[Image(s, m)] == s.members[m])
    && (forall e | e in s.endpoints :: exists m | m in s.members :: Image(s, m) == e)
  }

  // Docker ids and names are unique, and Docker has what the rows name.
  ghost predicate Named(s: Store) {
    && (forall c | c in s.containers :: s.containers[c].dockerId in s.conts)
    && (forall n | n in s.networks :: s.networks[n].dockerId in s.nets && s.nets[s.networks[n].dockerId] == s.networks[n].dockerName)
    && (forall c, d | c in s.containers && d in s.containers && c != d :: s.containers[c].dockerId != s.containers[d].dockerId)
    && (forall n, m | n in s.networks && m in s.networks && n != m ::
          s.networks[n].dockerId != s.networks[m].dockerId && s.networks[n].dockerName != s.networks[m].dockerName)
  }

  // Docker has no network without a row.
  ghost predicate NoStray(s: Store) {
    forall d | d in s.nets :: exists n :: n in s.networks && s.networks[n].dockerId == d
  }

  ghost predicate Tied(s: Store) {
    Named(s) && SameUser(s) && Mirrored(s)
  }

  ghost predicate Inv(s: Store) {
    Tied(s) && NoStray(s)
  }

  // ------------------------------------------------------------------ it is kept

  lemma {:induction false} ImageIsInjective(s: Store, m: Member, m': Member)
    requires Named(s)
    requires m.0 in s.containers && m.1 in s.networks && m'.0 in s.containers && m'.1 in s.networks
    requires Image(s, m) == Image(s, m')
    ensures m == m'
  {
    assert m.0 == m'.0 && m.1 == m'.1;
    assert m == (m.0, m.1) && m' == (m'.0, m'.1);
  }

  /** A container is a member of a network exactly when Docker has it on that network. */
  lemma {:induction false} MemberIffEndpoint(s: Store, m: Member)
    requires Tied(s) && m.0 in s.containers && m.1 in s.networks
    ensures m in s.members <==> Image(s, m) in s.endpoints
    ensures m in s.members ==> s.members[m] == s.endpoints[Image(s, m)]
  {
    if Image(s, m) in s.endpoints {
      var n :| n in s.members && Image(s, n) == Image(s, m);
      ImageIsInjective(s, n, m);
    }
  }

  ghost predicate SameRows(s: Store, t: Store, m: Member) {
    && m.0 in s.containers && m.0 in t.containers && s.containers[m.0] == t.containers[m.0]
    && m.1 in s.networks && m.1 in t.networks && s.networks[m.1] == t.networks[m.1]
  }

  // Rows and endpoints that go together, go together.
  lemma {:induction false} TogetherKeeps(s: Store, t: Store)
    requires SameUser(s) && Mirrored(s)
    requires forall m | m in t.members :: m in s.members && t.members[m] == s.members[m] && SameRows(s, t, m)
    requires forall e | e in t.endpoints :: e in s.endpoints && t.endpoints[e] == s.endpoints[e]
    requires forall m | m in s.members :: m in t.members <==> Image(s, m) in t.endpoints
    ensures SameUser(t) && Mirrored(t)
  {
    forall m | m in t.members
      ensures Image(t, m) in t.endpoints && t.endpoints[Image(t, m)] == t.members[m]
    {
      assert SameRows(s, t, m) && Image(t, m) == Image(s, m);
    }
    forall e | e in t.endpoints
      ensures exists m | m in t.members :: Image(t, m) == e
    {
      var m :| m in s.members && Image(s, m) == e;
      assert m in t.members && SameRows(s, t, m) && Image(t, m) == e;
    }
  }

  lemma {:induction false} CreateKeepsNoStray(s: Store, op: Op)
    requires NoStray(s) && op.CreateNetwork? && FreshIds(s, op) && Succeeds(s, op)
    ensures NoStray(Do(s, op))
  {
    var t := Do(s, op);
    forall d | d in t.nets
      ensures exists n :: n in t.networks && t.networks[n].dockerId == d
    {
      if d == op.dockerId {
        assert t.networks[op.id].dockerId == d;
      } else {
        var n :| n in s.networks && s.networks[n].dockerId == d;
        assert n in t.networks && t.networks[n].dockerId == d;
      }
    }
  }

  lemma {:induction false} DeleteKeepsNoStray(s: Store, op: Op)
    requires NoStray(s) && op.DeleteNetwork? && Succeeds(s, op)
    ensures NoStray(Do(s, op))
  {
    var t := Do(s, op);
    forall d | d in t.nets
      ensures exists n :: n in t.networks && t.networks[n].dockerId == d
    {
      var n :| n in s.networks && s.networks[n].dockerId == d;
      assert n in t.networks && t.networks[n].dockerId == d;
    }
  }

  lemma {:induction false} ConnectKeeps(s: Store, op: Op)
    requires Tied(s) && op.Connect? && Succeeds(s, op)
    ensures Tied(Do(s, op))
  {
    var t := Do(s, op);
    var m := (op.project, op.net);
    assert SameUser(t);
    forall n | n in t.members
      ensures Image(t, n) in t.endpoints && t.endpoints[Image(t, n)] == t.members[n]
    {
      assert Image(t, n) == Image(s, n);
      if n != m && Image(s, n) == Image(s, m) {
        ImageIsInjective(s, n, m);
        assert false;
      }
    }
    forall e | e in t.endpoints
      ensures exists n | n in t.members :: Image(t, n) == e
    {
      if e == Image(t, m) {
      } else {
        var n :| n in s.members && Image(s, n) == e;
        assert n in t.members;
      }
    }
  }

  lemma {:induction false} DisconnectKeeps(s: Store, op: Op)
    requires Tied(s) && op.Disconnect? && Succeeds(s, op)
    ensures Tied(Do(s, op))
  {
    MemberIffEndpoint(s, (op.project, op.net));
    OneGone(s, Do(s, op), (op.project, op.net));
  }

  lemma {:induction false} OneGone(s: Store, t: Store, gone: Member)
    requires Tied(s) && gone in s.members
    requires t.containers == s.containers && t.networks == s.networks
    requires t.members == s.members - {gone} && t.endpoints == s.endpoints - {Image(s, gone)}
    ensures SameUser(t) && Mirrored(t)
  {
    forall m | m in s.members
      ensures m in t.members <==> Image(s, m) in t.endpoints
    {
      if Image(s, m) == Image(s, gone) {
        ImageIsInjective(s, m, gone);
      }
    }
    TogetherKeeps(s, t);
  }

  lemma {:induction false} RemoveContainerKeepsNames(s: Store, op: Op)
    requires Named(s) && op.RemoveContainer? && Succeeds(s, op)
    ensures Named(Do(s, op))
  {
  }

  lemma {:induction false} RemoveContainerKeeps(s: Store, op: Op)
    requires Tied(s) && op.RemoveContainer? && Succeeds(s, op)
    ensures Tied(Do(s, op))
  {
    RemoveContainerKeepsNames(s, op);
    ContainerGone(s, Do(s, op), op.project);
  }

  lemma {:induction false} ContainerGone(s: Store, t: Store, project: int)
    requires Tied(s) && project in s.containers
    requires t.containers == s.containers - {project} && t.networks == s.networks
    requires t.members == s.members - (set m | m in s.members && m.0 == project)
    requires t.endpoints == s.endpoints - OfContainer(s.endpoints, s.containers[project].dockerId)
    ensures SameUser(t) && Mirrored(t)
  {
    forall m | m in s.members
      ensures m in t.members <==> Image(s, m) in t.endpoints
      ensures m in t.members ==> SameRows(s, t, m)
    {
      MemberIffEndpoint(s, m);
      assert Image(s, m).1 == s.containers[project].dockerId <==> m.0 == project;
    }
    TogetherKeeps(s, t);
  }

  lemma {:induction false} DeleteNetworkKeepsNames(s: Store, op: Op)
    requires Named(s) && op.DeleteNetwork? && Succeeds(s, op)
    ensures Named(Do(s, op))
  {
  }

  lemma {:induction false} DeleteNetworkKeeps(s: Store, op: Op)
    requires Tied(s) && op.DeleteNetwork? && Succeeds(s, op)
    ensures Tied(Do(s, op))
  {
    DeleteNetworkKeepsNames(s, op);
    NetworkGone(s, Do(s, op), op.net);
  }

  lemma {:induction false} NetworkGone(s: Store, t: Store, net: string)
    requires Tied(s) && net in s.networks
    requires t.containers == s.containers && t.networks == s.networks - {net}
    requires t.members == s.members - (set m | m in s.members && m.1 == net)
    requires t.endpoints == s.endpoints - OnNetwork(s.endpoints, s.networks[net].dockerId)
    ensures SameUser(t) && Mirrored(t)
  {
    forall m | m in s.members
      ensures m in t.members <==> Image(s, m) in t.endpoints
      ensures m in t.members ==> SameRows(s, t, m)
    {
      MemberIffEndpoint(s, m);
      assert Image(s, m).0 == s.networks[net].dockerId <==> m.1 == net;
    }
    TogetherKeeps(s, t);
  }

  lemma {:induction false} AddContainerKeepsNames(s: Store, op: Op)
    requires Named(s) && FreshIds(s, op) && op.AddContainer?
    ensures Named(Do(s, op))
  {
  }

  lemma {:induction false} CreateNetworkKeepsNames(s: Store, op: Op)
    requires Named(s) && FreshIds(s, op) && op.CreateNetwork? && Succeeds(s, op)
    ensures Named(Do(s, op))
  {
    var t := Do(s, op);
    assert forall n | n in s.networks :: n != op.id && t.networks[n] == s.networks[n];
    assert forall n | n in s.networks :: s.networks[n].dockerName in s.nets.Values;
  }

  lemma {:induction false} AddKeeps(s: Store, op: Op)
    requires Tied(s) && FreshIds(s, op) && Succeeds(s, op)
    requires op.AddContainer? || op.CreateNetwork? || op.SetRunning?
    ensures Tied(Do(s, op))
  {
    RowsAdded(s, Do(s, op));
    match op
    case AddContainer(_, _, _) => AddContainerKeepsNames(s, op);
    case CreateNetwork(_, _, _, _, _) => CreateNetworkKeepsNames(s, op);
    case SetRunning(_, _) =>
  }

  lemma {:induction false} RowsAdded(s: Store, t: Store)
    requires Tied(s)
    requires forall c | c in s.containers :: c in t.containers && t.containers[c] == s.containers[c]
    requires forall n | n in s.networks :: n in t.networks && t.networks[n] == s.networks[n]
    requires t.members == s.members && t.endpoints == s.endpoints
    ensures SameUser(t) && Mirrored(t)
  {
    forall m | m in s.members
      ensures SameRows(s, t, m) && Image(s, m) in s.endpoints
    {
      var c, n := m.0, m.1;
      assert c in t.containers && n in t.networks;
    }
    TogetherKeeps(s, t);
  }

  lemma {:induction false} OpKeepsTied(s: Store, op: Op)
    requires Tied(s) && FreshIds(s, op)
    ensures Tied(Do(s, op))
  {
    if Succeeds(s, op) {
      match op
      case Connect(_, _, _, _) => ConnectKeeps(s, op);
      case Disconnect(_, _, _) => DisconnectKeeps(s, op);
      case RemoveContainer(_) => RemoveContainerKeeps(s, op);
      case DeleteNetwork(_, _) => DeleteNetworkKeeps(s, op);
      case _ => AddKeeps(s, op);
    }
  }

  lemma {:induction false} OpKeepsInv(s: Store, op: Op)
    requires Inv(s) && FreshIds(s, op)
    ensures Inv(Do(s, op))
  {
    OpKeepsTied(s, op);
    if Succeeds(s, op) {
      match op
      case CreateNetwork(_, _, _, _, _) => CreateKeepsNoStray(s, op);
      case DeleteNetwork(_, _) => DeleteKeepsNoStray(s, op);
      case _ => assert NoStray(Do(s, op)) by { hide Tied; }
    }
  }

  function Exec(ops: seq<Op>): Store {
    if ops == [] then Store(map[], map[], map[], map[], {}, {}, map[])
    else Do(Exec(ops[..|ops| - 1]), ops[|ops| - 1])
  }

  ghost predicate AllFresh(ops: seq<Op>) {
    forall i | 0 <= i < |ops| :: FreshIds(Exec(ops[..i]), ops[i])
  }

  /** After every operation of every run: the membership rows and Docker's endpoints agree,
      aliases included, and each row joins a container and a network of one user. */
  lemma {:induction false} RunsKeepInv(ops: seq<Op>)
    requires AllFresh(ops)
    ensures Inv(Exec(ops))
  {
    if ops != [] {
      var n := |ops| - 1;
      forall i | 0 <= i < n
        ensures FreshIds(Exec(ops[..n][..i]), ops[..n][i])
      {
        assert ops[..n][..i] == ops[..i];
        assert FreshIds(Exec(ops[..i]), ops[i]);
      }
      RunsKeepInv(ops[..n]);
      assert FreshIds(Exec(ops[..n]), ops[n]);
      OpKeepsInv(Exec(ops[..n]), ops[n]);
    }
  }

  lemma {:induction false} AddThenRemove<K, V>(t: map<K, V>, k: K, v: V)
    requires k !in t
    ensures t[k := v] - {k} == t
  {
  }

  /** Disconnecting undoes connecting. */
  lemma {:induction false} ConnectThenDisconnect(s: Store, user: string, net: string, project: int, alias: string)
    requires Inv(s) && Succeeds(s, Connect(user, net, project, alias))
    ensures var t := Do(s, Connect(user, net, project, alias));
            Succeeds(t, Disconnect(user, net, project)) && Do(t, Disconnect(user, net, project)) == s
  {
    var m := (project, net);
    MemberIffEndpoint(s, m);
    AddThenRemove(s.members, m, alias);
    AddThenRemove(s.endpoints, Image(s, m), alias);
  }

  // ------------------------------------------------------------------ Docker names

  lemma {:induction false} SplitAtUnderscore(a: string, x: string, b: string, y: string)
    requires '_' !in a && '_' !in b && a + "_" + x == b + "_" + y
    ensures a == b && x == y
  {
    var s := a + "_" + x;
    assert s == b + "_" + y;
    assert (forall i | 0 <= i < |a| :: s[i] == a[i]) && s[|a|] == '_';
    assert (forall i | 0 <= i < |b| :: s[i] == b[i]) && s[|b|] == '_';
    assert |a| == |b|;
    assert a == s[..|a|] && b == s[..|b|];
    assert x == s[|a| + 1..] && y == s[|b| + 1..];
  }

  /** Two users' networks never share a Docker name, nor do two networks of one user, since a
      user id is a number. */
  lemma {:induction false} DockerNamesDiffer(user: string, name: string, user': string, name': string)
    requires '_' !in user && '_' !in user' && DockerName(user, name) == DockerName(user', name')
    ensures user == user' && name == name'
  {
    var p := "codedock_";
    assert DockerName(user, name)[|p|..] == user + "_" + name;
    assert DockerName(user', name')[|p|..] == user' + "_" + name';
    SplitAtUnderscore(user, name, user', name');
  }
}
