/**
 The calls of service/networkService.go, and the removal of a container from
 service/hostContainerService.go, as they go back and forth between Docker and the database.
 */
module NetworkManagers {
  import opened NetworkFaults
  import opened Networks

  predicate NobodyRuns(endpoints: map<Endpoint, string>, running: set<string>, net: string) {
    forall e | e in endpoints && e.0 == net :: e.1 !in running
  }

  class Docker {
    var nets: map<string, string>
    var conts: set<string>
    var running: set<string>
    var endpoints: map<Endpoint, string>

    // Docker's names are unique.
    method NetworkCreate(name: string, id: string) returns (ok: bool)
      modifies this`nets
      ensures ok == (name !in old(nets).Values)
      ensures nets == if ok then old(nets)[id := name] else old(nets)
    {
      ok := name !in nets.Values;
      if ok {
        nets := nets[id := name];
      }
    }

    method NetworkConnect(net: string, cont: string, alias: string) returns (ok: bool)
      modifies this`endpoints
      ensures ok == (net in nets && cont in conts && (net, cont) !in old(endpoints))
      ensures endpoints == if ok then old(endpoints)[(net, cont) := alias] else old(endpoints)
    {
      ok := net in nets && cont in conts && (net, cont) !in endpoints;
      if ok {
        endpoints := endpoints[(net, cont) := alias];
      }
    }

    method NetworkDisconnect(net: string, cont: string) returns (ok: bool)
      modifies this`endpoints
      ensures ok == ((net, cont) in old(endpoints))
      ensures endpoints == old(endpoints) - {(net, cont)}
    {
      ok := (net, cont) in endpoints;
      endpoints := endpoints - {(net, cont)};
    }

    // The containers listed are the running ones.
    method NetworkInspect(net: string) returns (listed: set<string>)
      ensures forall c :: c in listed <==> (net, c) in endpoints && c in running
    {
      listed := set e | e in endpoints && e.0 == net && e.1 in running :: e.1;
      assert forall c | (net, c) in endpoints && c in running :: (net, c).1 in listed;
    }

    // A network with a running container on it is not removed; stopped containers lose it.
    method NetworkRemove(net: string) returns (ok: bool)
      modifies this`nets, this`endpoints
      ensures ok == (net in old(nets) && NobodyRuns(old(endpoints), running, net))
      ensures nets == if ok then old(nets) - {net} else old(nets)
      ensures endpoints == if ok then old(endpoints) - OnNetwork(old(endpoints), net) else old(endpoints)
    {
      ok := net in nets && NobodyRuns(endpoints, running, net);
      if ok {
        nets, endpoints := nets - {net}, endpoints - OnNetwork(endpoints, net);
      }
    }

    // Forced: a running container is killed, and leaves every network.
    method ContainerRemove(cont: string)
      modifies this`conts, this`running, this`endpoints
      ensures conts == old(conts) - {cont} && running == old(running) - {cont}
      ensures endpoints == old(endpoints) - OfContainer(old(endpoints), cont)
    {
      conts, running, endpoints := conts - {cont}, running - {cont}, endpoints - OfContainer(endpoints, cont);
    }
  }

  class NetworkManager {
    const docker: Docker
    var containers: map<int, Container>
    var networks: map<string, Network>
    var members: map<Member, string>

    ghost function View(): Store
      reads this, docker
    {
      Store(containers, networks, members, docker.nets, docker.conts, docker.running, docker.endpoints)
    }

    ghost predicate Valid()
      reads this, docker
    {
      Inv(View())
    }

    constructor (docker: Docker)
      requires docker.nets == map[] && docker.conts == {} && docker.running == {} && docker.endpoints == map[]
      ensures this.docker == docker && View() == Exec([]) && Valid()
    {
      this.docker := docker;
      containers, networks, members := map[], map[], map[];
    }

    // insertOk: whether the INSERT goes through; when it does not, the network just made is removed.
    method CreateNetwork(user: string, name: string, maxNets: int, dockerId: string, id: string, insertOk: bool)
      returns (ok: bool)
      requires Valid() && FreshIds(View(), Networks.Op.CreateNetwork(user, name, maxNets, dockerId, id))
      modifies this, docker
      ensures var op := Networks.Op.CreateNetwork(user, name, maxNets, dockerId, id);
              && ok == (insertOk && Succeeds(old(View()), op))
              && View() == if insertOk then Do(old(View()), op) else old(View())
    {
      ok := false;
      var currentNets := |(set n | n in networks && networks[n].user == user)|;
      if currentNets >= maxNets {
        return;
      }
      var dockerName := DockerName(user, name);
      var created := docker.NetworkCreate(dockerName, dockerId);
      if !created {
        return;
      }
      if !insertOk {
        UndoCreate(old(View()), dockerId, dockerName);
        var removed := docker.NetworkRemove(dockerId);
        return;
      }
      networks := networks[id := Network(user, name, dockerId, dockerName)];
      ok := true;
    }

    // works: whether the statement after Docker's part goes through.
    method ConnectContainer(user: string, net: string, project: int, alias: string, works: bool) returns (ok: bool)
      modifies this, docker
      ensures var op := Connect(user, net, project, alias);
              ok == (Succeeds(old(View()), op) && works) && View() == DoWith(old(View()), op, works)
    {
      ok := false;
      if !(net in networks && networks[net].user == user) {
        return;
      }
      if !(project in containers && containers[project].user == user) {
        return;
      }
      ok := docker.NetworkConnect(networks[net].dockerId, containers[project].dockerId, alias);
      if ok {
        ok := works;
        if works {
          members := members[(project, net) := alias];
        }
      }
    }

    method DisconnectContainer(user: string, net: string, project: int, works: bool) returns (ok: bool)
      modifies this, docker
      ensures var op := Disconnect(user, net, project);
              ok == (Succeeds(old(View()), op) && works) && View() == DoWith(old(View()), op, works)
    {
      ok := false;
      if !(net in networks && networks[net].user == user) {
        return;
      }
      if !(project in containers && containers[project].user == user) {
        return;
      }
      var dockerNet, cont := networks[net].dockerId, containers[project].dockerId;
      ok := docker.NetworkDisconnect(dockerNet, cont);
      if ok {
        ok := works;
        if works {
          members := members - {(project, net)};
        }
      } else {
        assert docker.endpoints == old(docker.endpoints);
      }
    }

    // inspects: whether Docker lists the containers; off: those it disconnects when asked to;
    // removes: whether it removes a network that nobody runs on; works: whether the row is then
    // deleted. Errors of the first two are ignored.
    method DeleteNetwork(user: string, net: string, inspects: bool, off: set<string>, removes: bool, works: bool)
      returns (ok: bool)
      requires Valid()
      modifies this, docker
      ensures var s, op := old(View()), Networks.Op.DeleteNetwork(user, net);
              var disconnected := if inspects then off else {};
              if !Succeeds(s, op) then !ok && View() == s
              else if removes && AllOff(s, s.networks[net].dockerId, disconnected)
              then ok == works && View() == DoWith(s, op, works)
              else !ok && View() == Emptied(s, net, disconnected)
    {
      hide Inv;
      ok := false;
      if !(net in networks && networks[net].user == user) {
        return;
      }
      var dockerNet := networks[net].dockerId;
      NetIsThere(View(), net);
      DisconnectListed(dockerNet, inspects, off);
      EmptyIffAllOff(old(View()), docker.endpoints, dockerNet, if inspects then off else {});
      if !removes {
        return;
      }
      var removed := docker.NetworkRemove(dockerNet);
      if removed {
        ok := works;
        if works {
          networks := networks - {net};
          members := members - (set m | m in members && m.1 == net);
        }
        RestOff(old(View()), dockerNet, if inspects then off else {});
        DeletionIs(old(View()), View(), user, net, works);
      }
    }

    method DisconnectListed(net: string, inspects: bool, off: set<string>)
      modifies docker`endpoints
      ensures docker.endpoints == old(docker.endpoints - ListedIn(View(), net, if inspects then off else {}))
    {
      if inspects {
        var listed := docker.NetworkInspect(net);
        DisconnectAll(net, listed * off);
        OnAreListed(old(View()), net, listed * off, off);
      }
    }

    method DisconnectAll(net: string, listed: set<string>)
      modifies docker`endpoints
      ensures docker.endpoints == old(docker.endpoints) - On(net, listed)
    {
      var todo := listed;
      while todo != {}
        invariant todo <= listed
        invariant docker.endpoints == old(docker.endpoints) - On(net, listed - todo)
      {
        var cont :| cont in todo;
        var _ := docker.NetworkDisconnect(net, cont);
        todo := todo - {cont};
      }
      assert listed - todo == listed;
    }

    // commits: whether the deletion of the row commits; disconnects: the networks Docker takes
    // the container off when asked to; removes: whether Docker removes the container.
    method RemoveContainer(project: int, commits: bool, disconnects: set<string>, removes: bool) returns (ok: bool)
      modifies this, docker
      ensures ok == (project in old(containers) && commits)
      ensures View() == if ok then RemovedWith(old(View()), project, disconnects, removes) else old(View())
    {
      ok := false;
      if project !in containers {
        return;
      }
      var cont := containers[project].dockerId;
      var nets := set m | m in members && m.0 == project && m.1 in networks :: networks[m.1].dockerId;
      if !commits {
        return;
      }
      ghost var s := View();
      assert nets == NetsOf(s, project);
      containers := containers - {project};
      members := members - (set m | m in members && m.0 == project);
      DisconnectFrom(cont, nets * disconnects);
      assert docker.endpoints == s.endpoints - Off(s, project, disconnects);
      if removes {
        RestIsSame(s.endpoints, docker.endpoints, cont);
        docker.ContainerRemove(cont);
      }
      ok := true;
    }

    method DisconnectFrom(cont: string, nets: set<string>)
      modifies docker`endpoints
      ensures docker.endpoints == old(docker.endpoints) - (set net | net in nets :: (net, cont))
    {
      var todo := nets;
      while todo != {}
        invariant todo <= nets
        invariant docker.endpoints == old(docker.endpoints) - (set net | net in nets - todo :: (net, cont))
      {
        var net :| net in todo;
        var _ := docker.NetworkDisconnect(net, cont);
        todo := todo - {net};
      }
      assert nets - todo == nets;
    }
  }

  // The endpoints of these containers on a network.
  function On(net: string, conts: set<string>): set<Endpoint> {
    set c | c in conts :: (net, c)
  }

  lemma {:induction false} RestOff(s: Store, net: string, off: set<string>)
    ensures var left := s.endpoints - ListedIn(s, net, off);
            left - OnNetwork(left, net) == s.endpoints - OnNetwork(s.endpoints, net)
  {
    var left := s.endpoints - ListedIn(s, net, off);
    assert (left - OnNetwork(left, net)).Keys == (s.endpoints - OnNetwork(s.endpoints, net)).Keys;
  }

  lemma {:induction false} DeletionIs(s: Store, t: Store, user: string, net: string, works: bool)
    requires OwnsNetwork(s, user, net)
    requires t.containers == s.containers && t.conts == s.conts && t.running == s.running
    requires t.networks == (if works then s.networks - {net} else s.networks)
    requires t.members == (if works then s.members - (set m | m in s.members && m.1 == net) else s.members)
    requires t.nets == s.nets - {s.networks[net].dockerId}
    requires t.endpoints == s.endpoints - OnNetwork(s.endpoints, s.networks[net].dockerId)
    ensures t == DoWith(s, Networks.Op.DeleteNetwork(user, net), works)
  {
  }

  lemma {:induction false} NetIsThere(s: Store, net: string)
    requires Inv(s) && net in s.networks
    ensures s.networks[net].dockerId in s.nets
  {
  }

  // Every running container on the network is among these.
  predicate AllOff(s: Store, dockerNet: string, off: set<string>) {
    forall e | e in s.endpoints && e.0 == dockerNet && e.1 in s.running :: e.1 in off
  }

  lemma {:induction false} OnAreListed(s: Store, net: string, conts: set<string>, off: set<string>)
    requires forall c :: c in conts <==> (net, c) in s.endpoints && c in s.running && c in off
    ensures s.endpoints - On(net, conts) == s.endpoints - ListedIn(s, net, off)
  {
    forall e | e in s.endpoints
      ensures e in On(net, conts) <==> e in ListedIn(s, net, off)
    {
      assert e == (e.0, e.1);
    }
  }

  lemma {:induction false} EmptyIffAllOff(s: Store, left: map<Endpoint, string>, net: string, off: set<string>)
    requires left == s.endpoints - ListedIn(s, net, off)
    ensures NobodyRuns(left, s.running, net) <==> AllOff(s, net, off)
  {
    if e :| e in s.endpoints && e.0 == net && e.1 in s.running && e.1 !in off {
      assert e in left;
    }
  }

  // What is left without a container is the same when some of its endpoints have already gone.
  lemma {:induction false} RestIsSame(all: map<Endpoint, string>, left: map<Endpoint, string>, cont: string)
    requires forall e | e in left :: e in all && left[e] == all[e]
    requires forall e | e in all && e.1 != cont :: e in left
    ensures left - OfContainer(left, cont) == all - OfContainer(all, cont)
  {
  }

  // Docker has no endpoint on a network that is not there.
  lemma {:induction false} NobodyOn(s: Store, net: string)
    requires Inv(s) && net !in s.nets
    ensures forall e | e in s.endpoints :: e.0 != net
  {
    forall e | e in s.endpoints
      ensures e.0 != net
    {
      var m :| m in s.members && Image(s, m) == e;
    }
  }

  // A network that was just created can be removed again, and that leaves no trace.
  lemma {:induction false} UndoCreate(s: Store, net: string, name: string)
    requires Inv(s) && net !in s.nets
    ensures forall e | e in s.endpoints :: e.0 != net
    ensures s.nets[net := name] - {net} == s.nets
    ensures s.endpoints - OnNetwork(s.endpoints, net) == s.endpoints
  {
    NobodyOn(s, net);
  }
}
