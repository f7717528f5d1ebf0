/**
 Stopping containers that have run too long: the query of service/repository.go, the sweep of
 service/hostContainerService.go, and the time that GetContainerInfo advertises.

 Clocks and durations are whole seconds.
 */
module AutoStop {
  import opened Common
  import opened Lifecycle

  // The watcher's ticker.
  const PERIOD := 300

  // What GetContainerInfo advertises.
  function AutoStopAt(row: Row, timeout: int): Option<int> {
    if row.status == "running" && row.startedAt.Some? then Some(row.startedAt.value + timeout) else None
  }

  // The WHERE clause of GetRunningContainersOlderThan.
  predicate Expired(row: Row, cutoff: int) {
    row.status == "running" && row.startedAt.Some? && row.startedAt.value < cutoff
  }

  // The table after a sweep in which these can be stopped.
  function Swept(rows: map<int, Row>, cutoff: int, working: set<int>): map<int, Row> {
    map id | id in rows ::
      if Expired(rows[id], cutoff) && id in working then rows[id].(status := "stopped") else rows[id]
  }

  // What stopping these containers one after the other leaves.
  function Stopped(rows: map<int, Row>, ids: seq<int>, working: set<int>): map<int, Row> {
    if ids == [] then rows
    else
      var id, before := ids[|ids| - 1], Stopped(rows, ids[..|ids| - 1], working);
      if id in working && id in before then before[id := before[id].(status := "stopped")] else before
  }

  lemma {:induction false} StoppedIs(rows: map<int, Row>, ids: seq<int>, working: set<int>, id: int)
    ensures id in Stopped(rows, ids, working) <==> id in rows
    ensures id in rows ==>
      Stopped(rows, ids, working)[id] == if id in ids && id in working then rows[id].(status := "stopped") else rows[id]
  {
    if ids != [] {
      StoppedIs(rows, ids[..|ids| - 1], working, id);
    }
  }

  // What it does to their Docker containers.
  function Halted(docker: map<string, bool>, rows: map<int, Row>, ids: seq<int>, working: set<int>): map<string, bool> {
    if ids == [] then docker
    else
      var id, before := ids[|ids| - 1], Halted(docker, rows, ids[..|ids| - 1], working);
      if id in working && id in rows && rows[id].cid in before then before[rows[id].cid := false] else before
  }

  /** Of Docker's containers, exactly those of the rows stopped are stopped. */
  lemma {:induction false} HaltedIs(docker: map<string, bool>, rows: map<int, Row>, ids: seq<int>, working: set<int>, cid: string)
    ensures cid in Halted(docker, rows, ids, working) <==> cid in docker
    ensures cid in docker ==>
      (Halted(docker, rows, ids, working)[cid]
       <==> docker[cid] && forall id | id in ids && id in working && id in rows :: rows[id].cid != cid)
  {
    if ids != [] {
      HaltedIs(docker, rows, ids[..|ids| - 1], working, cid);
    }
  }

  lemma {:induction false} StoppedIsSwept(rows: map<int, Row>, cutoff: int, ids: seq<int>, working: set<int>)
    requires forall id :: id in ids <==> id in rows && Expired(rows[id], cutoff)
    ensures Stopped(rows, ids, working) == Swept(rows, cutoff, working)
  {
    forall id
      ensures id in Stopped(rows, ids, working) <==> id in Swept(rows, cutoff, working)
      ensures id in rows ==> Stopped(rows, ids, working)[id] == Swept(rows, cutoff, working)[id]
    {
      StoppedIs(rows, ids, working, id);
    }
  }

  /** After the loop, an expired container's row and Docker agree exactly when its stop either
      got through to the commit or never reached Docker. acting: the stops in which Docker
      stopped the container; committing: those that also committed. */
  lemma {:induction false} AgreesAfterSweep(rows: map<int, Row>, docker: map<string, bool>, ids: seq<int>,
                                            acting: set<int>, committing: set<int>, id: int)
    requires id in rows && id in ids && rows[id].status == "running" && committing <= acting
    requires rows[id].cid in docker && docker[rows[id].cid]
    requires forall j | j in rows && rows[j].cid == rows[id].cid :: j == id
    ensures id in Stopped(rows, ids, committing) && rows[id].cid in Halted(docker, rows, ids, acting)
    ensures (Stopped(rows, ids, committing)[id].status == "running" <==> Halted(docker, rows, ids, acting)[rows[id].cid])
            <==> (id in acting ==> id in committing)
  {
    StoppedIs(rows, ids, committing, id);
    HaltedIs(docker, rows, ids, acting, rows[id].cid);
    assert rows[id].(status := "stopped").status != "running";
  }

  /** A sweep in which every stop works stops exactly the containers whose advertised time has
      passed, and leaves every other row as it is. */
  lemma {:induction false} SweepStopsTheAdvertised(rows: map<int, Row>, now: int, timeout: int, id: int)
    requires id in rows
    ensures var t := Swept(rows, now - timeout, rows.Keys);
            var at := AutoStopAt(rows[id], timeout);
            && t.Keys == rows.Keys
            && (t[id] != rows[id] <==> at.Some? && at.value < now)
            && (t[id] != rows[id] ==> t[id] == rows[id].(status := "stopped"))
            && (AutoStopAt(t[id], timeout).Some? ==> AutoStopAt(t[id], timeout).value >= now)
  {
    assert rows[id].(status := "stopped").status == "stopped";
  }

  // ------------------------------------------------------------------ over time

  // next: when the ticker fires again; ticks: how often it has fired; todo: what the sweep under
  // way has still to stop; misses: how many sweeps in a row have failed to stop a container since
  // its row was last written.
  datatype Watch = Watch(rows: map<int, Row>, clock: int, next: int, ticks: nat, todo: set<int>, misses: map<int, nat>)

  // Write is any write of a row: a creation, a start, a restart after a crash, a stop. One that
  // says the container runs gives a start no further back than the call has taken. ok: whether
  // the query, or the stop, works.
  datatype Event = Pass(seconds: nat) | Tick(ok: bool) | StopNext(id: int, ok: bool) | Write(id: int, row: Row) | Delete(id: int)

  // lag: how long a start may take; length: how long a sweep may take.
  datatype Times = Times(timeout: int, lag: nat, length: nat)

  predicate Timely(row: Row, clock: int, lag: nat) {
    row.status == "running" && row.startedAt.Some? ==> clock - lag <= row.startedAt.value
  }

  function ExpiredRows(rows: map<int, Row>, cutoff: int): set<int> {
    set id | id in rows && Expired(rows[id], cutoff)
  }

  function Misses(w: Watch, id: int): nat {
    if id in w.misses then w.misses[id] else 0
  }

  // A sweep whose query fails stops nobody.
  function Ticked(w: Watch, ok: bool, x: Times): Watch {
    var t := w.(next := w.next + PERIOD, ticks := w.ticks + 1);
    if ok then t.(todo := ExpiredRows(w.rows, w.clock - x.timeout))
    else t.(misses := map id | id in w.rows :: Misses(w, id) + 1)
  }

  // The rows are queried at the tick and stopped one by one after it; the next tick is served
  // when the sweep is over.
  function Do(w: Watch, e: Event, x: Times): Watch {
    match e
    case Pass(seconds) =>
      if w.clock + seconds <= w.next && (w.todo != {} ==> w.clock + seconds <= w.next - PERIOD + x.length)
      then w.(clock := w.clock + seconds) else w
    case Tick(ok) => if w.clock == w.next && w.todo == {} then Ticked(w, ok, x) else w
    case StopNext(id, ok) =>
      if id !in w.todo then w
      else if ok
      then w.(todo := w.todo - {id}, misses := w.misses - {id},
              rows := if id in w.rows then w.rows[id := w.rows[id].(status := "stopped")] else w.rows)
      else w.(todo := w.todo - {id}, misses := w.misses[id := Misses(w, id) + 1])
    case Write(id, row) =>
      if Timely(row, w.clock, x.lag) then w.(rows := w.rows[id := row], misses := w.misses - {id}) else w
    case Delete(id) => w.(rows := w.rows - {id}, misses := w.misses - {id})
  }

  function Exec(w: Watch, events: seq<Event>, x: Times): Watch {
    if events == [] then w
    else Do(Exec(w, events[..|events| - 1], x), events[|events| - 1], x)
  }

  // The watcher starts, with whatever rows there are.
  predicate Starts(w: Watch) {
    w.next == w.clock + PERIOD && w.ticks == 0 && w.todo == {} && w.misses == map[]
  }

  function Max(a: int, b: int): int {
    if a < b then b else a
  }

  // How old a container may be when a sweep is done with it, if that many have missed it.
  function Oldest(x: Times, misses: nat): int {
    Max(x.timeout, x.lag) + misses * PERIOD
  }

  // A sweep that is over has not missed the container.
  predicate SweptOnce(w: Watch, id: int) {
    Misses(w, id) + (if id in w.todo then 1 else 0) < w.ticks
  }

  // At the last tick, what its sweep was done with was no older than it should have been; what it
  // has still to stop, at the tick before.
  ghost predicate YoungRow(w: Watch, x: Times, id: int)
    requires id in w.rows
  {
    SweptOnce(w, id) ==>
      !Expired(w.rows[id], w.next - PERIOD - (if id in w.todo then PERIOD else 0) - Oldest(x, Misses(w, id)))
  }

  ghost predicate Young(w: Watch, x: Times) {
    var tick := w.next - PERIOD;
    && tick <= w.clock <= w.next
    && (w.todo != {} ==> w.clock <= tick + x.length)
    && (forall id | id in w.rows :: YoungRow(w, x, id))
  }

  lemma {:induction false} StepKeepsYoung(w: Watch, e: Event, x: Times)
    requires Young(w, x)
    ensures Young(Do(w, e, x), x)
  {
    var t := Do(w, e, x);
    forall id | id in t.rows
      ensures YoungRow(t, x, id)
    {
      assert id in w.rows ==> YoungRow(w, x, id);
    }
  }

  /** Whatever is started, stopped, created or removed meanwhile, and whichever queries and stops
      fail: a running container that some sweep has not missed is no older than the timeout, the
      length of a sweep, one period, and one more for each sweep in a row that failed to stop it. A
      start that itself takes longer than the timeout counts instead of it. */
  lemma {:induction false} NoneRunsTooLong(w: Watch, events: seq<Event>, x: Times)
    requires Starts(w)
    ensures var e := Exec(w, events, x);
            && Young(e, x)
            && forall id | id in e.rows && e.rows[id].status == "running" && e.rows[id].startedAt.Some? && SweptOnce(e, id) ::
                 e.clock - e.rows[id].startedAt.value <= Oldest(x, Misses(e, id)) + PERIOD + x.length
  {
    if events != [] {
      NoneRunsTooLong(w, events[..|events| - 1], x);
      StepKeepsYoung(Exec(w, events[..|events| - 1], x), events[|events| - 1], x);
    }
    var e := Exec(w, events, x);
    forall id | id in e.rows && e.rows[id].status == "running" && e.rows[id].startedAt.Some? && SweptOnce(e, id)
      ensures e.clock - e.rows[id].startedAt.value <= Oldest(x, Misses(e, id)) + PERIOD + x.length
    {
      assert YoungRow(e, x, id);
    }
  }

  lemma {:induction false} OneMoreEvent(w: Watch, events: seq<Event>, e: Event, x: Times)
    ensures Exec(w, events + [e], x) == Do(Exec(w, events, x), e, x)
  {
    assert (events + [e])[..|events|] == events;
  }

  // A container that just misses the first sweep, and then is not stopped by the next ones.
  function Missed(w: Watch, id: int, misses: nat): Watch {
    var now := w.next + (misses + 1) * PERIOD;
    Watch(w.rows, now, now, misses + 1, {}, if misses == 0 then map[] else map[id := misses])
  }

  predicate JustMisses(w: Watch, id: int, row: Row, x: Times) {
    Starts(w) && w.rows == map[id := row] && row.status == "running" && row.startedAt == Some(w.next - x.timeout)
  }

  lemma {:induction false} FirstMiss(w: Watch, id: int, row: Row, x: Times)
    requires JustMisses(w, id, row, x)
    ensures Do(Do(Do(w, Pass(PERIOD), x), Tick(true), x), Pass(PERIOD), x) == Missed(w, id, 0)
  {
    assert ExpiredRows(w.rows, w.next - x.timeout) == {};
  }

  lemma {:induction false} NextMiss(w: Watch, id: int, row: Row, x: Times, misses: nat)
    requires JustMisses(w, id, row, x)
    ensures Do(Do(Do(Missed(w, id, misses), Tick(true), x), StopNext(id, false), x), Pass(PERIOD), x)
            == Missed(w, id, misses + 1)
  {
    assert ExpiredRows(w.rows, Missed(w, id, misses).clock - x.timeout) == {id};
  }

  lemma {:induction false} MissedAgain(w: Watch, id: int, row: Row, x: Times, misses: nat) returns (events: seq<Event>)
    requires JustMisses(w, id, row, x)
    ensures Exec(w, events, x) == Missed(w, id, misses)
  {
    hide Do, Missed, JustMisses;
    if misses == 0 {
      events := [] + [Pass(PERIOD)] + [Tick(true)] + [Pass(PERIOD)];
      OneMoreEvent(w, [], Pass(PERIOD), x);
      OneMoreEvent(w, [] + [Pass(PERIOD)], Tick(true), x);
      OneMoreEvent(w, [] + [Pass(PERIOD)] + [Tick(true)], Pass(PERIOD), x);
      FirstMiss(w, id, row, x);
    } else {
      var before := MissedAgain(w, id, row, x, misses - 1);
      events := before + [Tick(true)] + [StopNext(id, false)] + [Pass(PERIOD)];
      OneMoreEvent(w, before, Tick(true), x);
      OneMoreEvent(w, before + [Tick(true)], StopNext(id, false), x);
      OneMoreEvent(w, before + [Tick(true)] + [StopNext(id, false)], Pass(PERIOD), x);
      NextMiss(w, id, row, x, misses - 1);
    }
  }

  /** None of this can be left out: for every number of failed stops, a container that just misses
      a sweep runs until the last of those that follow gets to it. */
  lemma {:induction false} BoundIsReached(w: Watch, id: int, row: Row, x: Times, misses: nat) returns (events: seq<Event>)
    requires JustMisses(w, id, row, x)
    requires x.lag <= x.timeout && x.length <= PERIOD
    ensures var e := Exec(w, events, x);
            && e.rows == w.rows && SweptOnce(e, id) && Misses(e, id) == misses
            && e.clock - row.startedAt.value == Oldest(x, misses) + PERIOD + x.length
  {
    var early := MissedAgain(w, id, row, x, misses);
    events := early + [Tick(true)] + [Pass(x.length)];
    OneMoreEvent(w, early, Tick(true), x);
    OneMoreEvent(w, early + [Tick(true)], Pass(x.length), x);
  }
}
