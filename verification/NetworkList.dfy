/**
 ListNetworks of service/networkService.go: rows of a LEFT JOIN, folded into one entry a network.
 */
module NetworkList {
  import opened Common
  import N = Networks

  datatype Header = Header(id: string, name: string, dockerName: string, createdAt: string)

  // The columns of containers; none of them can be NULL in a row that has a container.
  datatype Project = Project(id: int, name: string, status: string)

  datatype Row = Row(header: Header, alias: Option<string>, project: Option<Project>)

  datatype Member = Member(project: Project, alias: string)

  datatype NetworkInfo = NetworkInfo(header: Header, members: seq<Member>)

  // ------------------------------------------------------------------ the specification

  function MemberIn(row: Row): seq<Member> {
    if row.alias.Some? && row.project.Some? then [Member(row.project.value, row.alias.value)] else []
  }

  // The networks, in the order in which they first appear.
  function Ids(rows: seq<Row>): seq<string> {
    if rows == [] then []
    else
      var before, last := Ids(rows[..|rows| - 1]), rows[|rows| - 1].header.id;
      if last in before then before else before + [last]
  }

  // The rows of one network, in order.
  function RowsOf(rows: seq<Row>, id: string): seq<Row> {
    if rows == [] then []
    else
      var before, last := RowsOf(rows[..|rows| - 1], id), rows[|rows| - 1];
      if last.header.id == id then before + [last] else before
  }

  function MembersIn(rows: seq<Row>): seq<Member> {
    if rows == [] then [] else MembersIn(rows[..|rows| - 1]) + MemberIn(rows[|rows| - 1])
  }

  lemma {:induction false} ListedHasRows(rows: seq<Row>, id: string)
    ensures id in Ids(rows) <==> RowsOf(rows, id) != []
    ensures forall row | row in RowsOf(rows, id) :: row in rows && row.header.id == id
  {
    if rows != [] {
      ListedHasRows(rows[..|rows| - 1], id);
    }
  }

  function Info(rows: seq<Row>, id: string): NetworkInfo
    requires id in Ids(rows)
  {
    ListedHasRows(rows, id);
    NetworkInfo(RowsOf(rows, id)[0].header, MembersIn(RowsOf(rows, id)))
  }

  function Listing(rows: seq<Row>): seq<NetworkInfo> {
    seq(|Ids(rows)|, i requires 0 <= i < |Ids(rows)| => Info(rows, Ids(rows)[i]))
  }

  // ------------------------------------------------------------------ the loop

  class Entry {
    const header: Header
    var members: seq<Member>

    constructor (header: Header)
      ensures this.header == header && members == []
    {
      this.header := header;
      members := [];
    }
  }

  lemma {:induction false} OneRowMore(rows: seq<Row>, i: nat, id: string)
    requires i < |rows|
    ensures RowsOf(rows[..i + 1], id) == RowsOf(rows[..i], id) + (if rows[i].header.id == id then [rows[i]] else [])
    ensures MembersIn(RowsOf(rows[..i + 1], id))
            == MembersIn(RowsOf(rows[..i], id)) + (if rows[i].header.id == id then MemberIn(rows[i]) else [])
    ensures Ids(rows[..i + 1])
            == Ids(rows[..i]) + (if rows[i].header.id in Ids(rows[..i]) then [] else [rows[i].header.id])
    ensures id in Ids(rows[..i + 1]) <==> id in Ids(rows[..i]) || id == rows[i].header.id
  {
    var now := rows[..i + 1];
    assert now[..|now| - 1] == rows[..i];
    var of := RowsOf(now, id);
    if rows[i].header.id == id {
      assert of[..|of| - 1] == RowsOf(rows[..i], id);
    }
  }

  lemma {:induction false} InfoGrows(rows: seq<Row>, i: nat, id: string)
    requires i < |rows| && id in Ids(rows[..i])
    ensures id in Ids(rows[..i + 1])
    ensures var was := Info(rows[..i], id);
            Info(rows[..i + 1], id)
            == was.(members := was.members + if rows[i].header.id == id then MemberIn(rows[i]) else [])
  {
    OneRowMore(rows, i, id);
    ListedHasRows(rows[..i], id);
  }

  lemma {:induction false} InfoStarts(rows: seq<Row>, i: nat)
    requires i < |rows| && rows[i].header.id !in Ids(rows[..i])
    ensures rows[i].header.id in Ids(rows[..i + 1])
    ensures Info(rows[..i + 1], rows[i].header.id) == NetworkInfo(rows[i].header, MemberIn(rows[i]))
  {
    var id := rows[i].header.id;
    OneRowMore(rows, i, id);
    ListedHasRows(rows[..i], id);
    assert RowsOf(rows[..i], id) == [];
    assert MembersIn(RowsOf(rows[..i], id)) == [];
  }

  ghost predicate Lists(infos: map<string, NetworkInfo>, order: seq<string>, rows: seq<Row>) {
    && order == Ids(rows)
    && (forall id :: id in infos <==> id in order)
    && (forall id | id in order :: infos[id] == Info(rows, id))
  }

  // What one row does to the entries and to their order.
  function Read(infos: map<string, NetworkInfo>, row: Row): map<string, NetworkInfo> {
    var id := row.header.id;
    var entry := if id in infos then infos[id] else NetworkInfo(row.header, []);
    infos[id := entry.(members := entry.members + MemberIn(row))]
  }

  function Ordered(order: seq<string>, row: Row): seq<string> {
    if row.header.id in order then order else order + [row.header.id]
  }

  lemma {:induction false} ReadListsOne(infos: map<string, NetworkInfo>, rows: seq<Row>, i: nat, id: string)
    requires i < |rows| && (id in infos <==> id in Ids(rows[..i]))
    requires id in infos ==> infos[id] == Info(rows[..i], id)
    requires id in infos || id == rows[i].header.id
    ensures id in Ids(rows[..i + 1]) && Read(infos, rows[i])[id] == Info(rows[..i + 1], id)
  {
    if id in infos {
      InfoGrows(rows, i, id);
    } else {
      InfoStarts(rows, i);
    }
  }

  lemma {:induction false} ReadOrder(order: seq<string>, rows: seq<Row>, i: nat)
    requires i < |rows| && order == Ids(rows[..i])
    ensures Ordered(order, rows[i]) == Ids(rows[..i + 1])
    ensures forall id :: id in Ordered(order, rows[i]) <==> id in order || id == rows[i].header.id
  {
    OneRowMore(rows, i, rows[i].header.id);
  }

  lemma {:induction false} ReadLists(infos: map<string, NetworkInfo>, order: seq<string>, rows: seq<Row>, i: nat)
    requires i < |rows| && Lists(infos, order, rows[..i])
    ensures Lists(Read(infos, rows[i]), Ordered(order, rows[i]), rows[..i + 1])
  {
    ReadOrder(order, rows, i);
    forall id | id in Ordered(order, rows[i])
      ensures id in Ids(rows[..i + 1]) && Read(infos, rows[i])[id] == Info(rows[..i + 1], id)
    {
      ReadListsOne(infos, rows, i, id);
    }
  }

  ghost function View(netMap: map<string, Entry>): map<string, NetworkInfo>
    reads netMap.Values
  {
    map id | id in netMap :: NetworkInfo(netMap[id].header, netMap[id].members)
  }

  ghost predicate Apart(netMap: map<string, Entry>) {
    forall id, id' | id in netMap && id' in netMap && id != id' :: netMap[id] != netMap[id']
  }

  method ListNetworks(rows: seq<Row>) returns (result: seq<NetworkInfo>)
    ensures result == Listing(rows)
  {
    var netMap, order := ReadRows(rows);
    result := Collect(netMap, order, rows);
  }

  method ReadRows(rows: seq<Row>) returns (netMap: map<string, Entry>, order: seq<string>)
    ensures Lists(View(netMap), order, rows)
  {
    netMap, order := map[], [];
    for i := 0 to |rows|
      invariant Lists(View(netMap), order, rows[..i]) && Apart(netMap)
      invariant forall id | id in netMap :: fresh(netMap[id])
    {
      ReadLists(View(netMap), order, rows, i);
      netMap, order := ReadRow(netMap, order, rows[i]);
    }
    assert rows[..|rows|] == rows;
  }

  lemma {:induction false} IsRead(was: map<string, NetworkInfo>, now: map<string, NetworkInfo>, row: Row)
    requires now.Keys == was.Keys + {row.header.id}
    requires forall id | id in now && id != row.header.id :: now[id] == was[id]
    requires var id := row.header.id;
             var entry := if id in was then was[id] else NetworkInfo(row.header, []);
             now[id] == entry.(members := entry.members + MemberIn(row))
    ensures now == Read(was, row)
  {
  }

  // One turn of the loop over the rows.
  method ReadRow(netMap: map<string, Entry>, order: seq<string>, row: Row)
    returns (netMap': map<string, Entry>, order': seq<string>)
    requires Apart(netMap) && forall id :: id in netMap <==> id in order
    modifies netMap.Values
    ensures View(netMap') == Read(old(View(netMap)), row) && order' == Ordered(order, row)
    ensures Apart(netMap')
    ensures forall id | id in netMap' :: (id in netMap && netMap'[id] == netMap[id]) || fresh(netMap'[id])
  {
    hide Read;
    var nid := row.header.id;
    netMap', order' := netMap, order;
    if nid !in netMap {
      var entry := new Entry(row.header);
      netMap' := netMap'[nid := entry];
      order' := order' + [nid];
    }
    if row.alias.Some? && row.project.Some? {
      netMap'[nid].members := netMap'[nid].members + [Member(row.project.value, row.alias.value)];
    }
    assert forall id | id in netMap' && id != nid :: View(netMap')[id] == old(View(netMap))[id];
    IsRead(old(View(netMap)), View(netMap'), row);
  }

  // The loop over the order.
  method Collect(netMap: map<string, Entry>, order: seq<string>, ghost rows: seq<Row>) returns (result: seq<NetworkInfo>)
    requires Lists(View(netMap), order, rows)
    ensures result == Listing(rows)
  {
    result := [];
    for i := 0 to |order|
      invariant result == Listing(rows)[..i]
    {
      assert View(netMap)[order[i]] == Info(rows, order[i]);
      result := result + [NetworkInfo(netMap[order[i]].header, netMap[order[i]].members)];
    }
  }

  // ------------------------------------------------------------------ what the list holds

  // The first row of a network.
  function First(rows: seq<Row>, id: string): (k: nat)
    requires id in Ids(rows)
    ensures k < |rows| && rows[k].header.id == id
    ensures forall j | 0 <= j < k :: rows[j].header.id != id
  {
    var n := |rows| - 1;
    if id in Ids(rows[..n]) then First(rows[..n], id)
    else
      assert forall j | 0 <= j < n :: rows[j].header.id != id by {
        forall j | 0 <= j < n
          ensures rows[j].header.id != id
        {
          EveryRowIsListed(rows[..n], j);
        }
      }
      n
  }

  lemma {:induction false} EveryRowIsListed(rows: seq<Row>, j: nat)
    requires j < |rows|
    ensures rows[j].header.id in Ids(rows)
  {
    if j < |rows| - 1 {
      EveryRowIsListed(rows[..|rows| - 1], j);
    }
  }

  /** Every network is listed once, at the place of its first row among the first rows. */
  lemma {:induction false} FirstAppearanceOrder(rows: seq<Row>, i: nat, j: nat)
    requires i < j < |Ids(rows)|
    ensures Ids(rows)[i] != Ids(rows)[j]
    ensures First(rows, Ids(rows)[i]) < First(rows, Ids(rows)[j])
  {
    var n := |rows| - 1;
    var before := Ids(rows[..n]);
    if j < |before| {
      FirstAppearanceOrder(rows[..n], i, j);
    } else {
      assert Ids(rows)[i] == before[i] && before[i] in before;
    }
  }

  function Sum(rows: seq<Row>, ids: seq<string>): nat {
    if ids == [] then 0 else |MembersIn(RowsOf(rows, ids[0]))| + Sum(rows, ids[1..])
  }

  lemma {:induction false} SumStep(rows: seq<Row>, i: nat, ids: seq<string>)
    requires i < |rows| && NoRepeats(ids)
    ensures Sum(rows[..i + 1], ids)
            == Sum(rows[..i], ids) + if rows[i].header.id in ids then |MemberIn(rows[i])| else 0
  {
    if ids != [] {
      SumStep(rows, i, ids[1..]);
      OneRowMore(rows, i, ids[0]);
      assert rows[i].header.id in ids <==> rows[i].header.id == ids[0] || rows[i].header.id in ids[1..];
      assert ids[0] !in ids[1..];
    }
  }

  lemma {:induction false} SumNew(rows: seq<Row>, ids: seq<string>, id: string)
    requires RowsOf(rows, id) == []
    ensures Sum(rows, ids + [id]) == Sum(rows, ids)
  {
    if ids == [] {
      assert ids + [id] == [id];
      assert Sum(rows, [id][1..]) == 0;
      assert MembersIn(RowsOf(rows, id)) == [];
    } else {
      assert (ids + [id])[1..] == ids[1..] + [id];
      SumNew(rows, ids[1..], id);
    }
  }

  /** No member is lost, and none is counted twice: the entries hold together as many members
      as there are rows with one. */
  lemma {:induction false} MembersConserved(rows: seq<Row>)
    ensures Sum(rows, Ids(rows)) == |MembersIn(rows)|
  {
    if rows != [] {
      var i := |rows| - 1;
      var ids, id := Ids(rows[..i]), rows[i].header.id;
      MembersConserved(rows[..i]);
      assert rows[..i + 1] == rows;
      OneRowMore(rows, i, id);
      ListedHasRows(rows[..i], id);
      if id in ids {
        assert Ids(rows) == ids;
      } else {
        SumNew(rows[..i], ids, id);
      }
      forall a: nat, b: nat | a < b < |Ids(rows)|
        ensures Ids(rows)[a] != Ids(rows)[b]
      {
        FirstAppearanceOrder(rows, a, b);
      }
      SumStep(rows, i, Ids(rows));
    }
  }

  /** How rows of different networks interleave does not matter: what is said of a network
      depends on the rows of that network alone. */
  lemma {:induction false} InterleavingIsIrrelevant(rows: seq<Row>, rows': seq<Row>)
    requires forall id :: RowsOf(rows, id) == RowsOf(rows', id)
    ensures forall info :: info in Listing(rows) ==> info in Listing(rows')
  {
    forall info | info in Listing(rows)
      ensures info in Listing(rows')
    {
      var i :| 0 <= i < |Ids(rows)| && Info(rows, Ids(rows)[i]) == info;
      var id := Ids(rows)[i];
      ListedHasRows(rows, id);
      ListedHasRows(rows', id);
      var j :| 0 <= j < |Ids(rows')| && Ids(rows')[j] == id;
      assert Listing(rows')[j] == info;
    }
  }

  // ------------------------------------------------------------------ the list and the tables

  ghost predicate Shows(s: N.Store, row: Row) {
    row.alias.Some? && row.project.Some? ==>
      (row.project.value.id, row.header.id) in s.members
      && s.members[(row.project.value.id, row.header.id)] == row.alias.value
  }

  ghost predicate HasRow(s: N.Store, m: N.Member, row: Row)
    requires m in s.members
  {
    row.header.id == m.1 && row.alias == Some(s.members[m]) && row.project.Some? && row.project.value.id == m.0
  }

  // The rows are those of the query, in some order: every network of the user, joined with
  // each of its members, or with nothing.
  ghost predicate IsJoin(s: N.Store, user: string, rows: seq<Row>) {
    && (forall i | 0 <= i < |rows| :: N.OwnsNetwork(s, user, rows[i].header.id) && Shows(s, rows[i]))
    && (forall net | N.OwnsNetwork(s, user, net) :: exists i :: 0 <= i < |rows| && rows[i].header.id == net)
    && (forall m | m in s.members && N.OwnsNetwork(s, user, m.1) :: exists i :: 0 <= i < |rows| && HasRow(s, m, rows[i]))
  }

  ghost predicate HasMember(rows: seq<Row>, m: Member) {
    exists i :: 0 <= i < |rows| && MemberIn(rows[i]) == [m]
  }

  lemma {:induction false} OneRowMoreHas(rows: seq<Row>, row: Row, m: Member)
    ensures HasMember(rows + [row], m) <==> HasMember(rows, m) || MemberIn(row) == [m]
  {
    hide MemberIn;
    if i :| 0 <= i < |rows| && MemberIn(rows[i]) == [m] {
      assert (rows + [row])[i] == rows[i];
    }
    assert (rows + [row])[|rows|] == row;
  }

  lemma {:induction false} MembersInRows(rows: seq<Row>, m: Member)
    ensures m in MembersIn(rows) <==> HasMember(rows, m)
  {
    hide HasMember;
    if rows != [] {
      var n := |rows| - 1;
      MembersInRows(rows[..n], m);
      OneRowMoreHas(rows[..n], rows[n], m);
      assert rows[..n] + [rows[n]] == rows;
    } else {
      NobodyIn(m);
    }
  }

  lemma {:induction false} NobodyIn(m: Member)
    ensures !HasMember([], m)
  {
  }

  lemma {:induction false} RowsOfHas(rows: seq<Row>, i: nat)
    requires i < |rows|
    ensures rows[i] in RowsOf(rows, rows[i].header.id)
  {
    if i < |rows| - 1 {
      RowsOfHas(rows[..|rows| - 1], i);
    }
  }

  lemma {:induction false} ListedMember(rows: seq<Row>, id: string, m: Member)
    ensures m in MembersIn(RowsOf(rows, id))
            <==> exists i :: 0 <= i < |rows| && rows[i].header.id == id && MemberIn(rows[i]) == [m]
  {
    var of := RowsOf(rows, id);
    MembersInRows(of, m);
    ListedHasRows(rows, id);
    if k :| 0 <= k < |of| && MemberIn(of[k]) == [m] {
      assert of[k] in of;
    }
    if i :| 0 <= i < |rows| && rows[i].header.id == id && MemberIn(rows[i]) == [m] {
      RowsOfHas(rows, i);
    }
  }

  /** Whatever the order of the rows, a user is listed exactly the networks of the user. */
  lemma {:induction false} ListsTheNetworks(s: N.Store, user: string, rows: seq<Row>, net: string)
    requires IsJoin(s, user, rows)
    ensures net in Ids(rows) <==> N.OwnsNetwork(s, user, net)
  {
    ListedHasRows(rows, net);
    if net in Ids(rows) {
      var row := RowsOf(rows, net)[0];
      assert row in RowsOf(rows, net);
    }
    if N.OwnsNetwork(s, user, net) {
      var i :| 0 <= i < |rows| && rows[i].header.id == net;
      EveryRowIsListed(rows, i);
    }
  }

  lemma {:induction false} ListsTheMembers(s: N.Store, user: string, rows: seq<Row>, m: N.Member, alias: string)
    requires IsJoin(s, user, rows) && N.OwnsNetwork(s, user, m.1)
    ensures (exists p :: p in MembersIn(RowsOf(rows, m.1)) && p.project.id == m.0 && p.alias == alias)
            <==> m in s.members && s.members[m] == alias
  {
    if p :| p in MembersIn(RowsOf(rows, m.1)) && p.project.id == m.0 && p.alias == alias {
      ListedMember(rows, m.1, p);
      var i :| 0 <= i < |rows| && rows[i].header.id == m.1 && MemberIn(rows[i]) == [p];
      assert Shows(s, rows[i]);
      assert (m.0, m.1) == m;
    }
    if m in s.members && s.members[m] == alias {
      var i :| 0 <= i < |rows| && HasRow(s, m, rows[i]);
      var p := Member(rows[i].project.value, alias);
      assert MemberIn(rows[i]) == [p];
      ListedMember(rows, m.1, p);
    }
  }

  /** A container is listed under a network with an alias exactly when Docker has it on that
      network under that alias. */
  lemma {:induction false} ListsWhatDockerHas(s: N.Store, user: string, rows: seq<Row>, m: N.Member, alias: string)
    requires N.Inv(s) && IsJoin(s, user, rows)
    requires N.OwnsNetwork(s, user, m.1) && m.0 in s.containers
    ensures (exists p :: p in MembersIn(RowsOf(rows, m.1)) && p.project.id == m.0 && p.alias == alias)
            <==> N.Image(s, m) in s.endpoints && s.endpoints[N.Image(s, m)] == alias
  {
    N.MemberIffEndpoint(s, m);
    ListsTheMembers(s, user, rows, m, alias);
  }
}
