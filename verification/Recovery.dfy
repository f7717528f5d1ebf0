/**
 The crash recovery of one container (service/recoveryService.go), driven by the Docker
 events of service/containerEventsService.go and cleared by a manual start
 (service/hostContainerService.go).

 Every handler runs in a goroutine of its own. A handler is a program counter and the
 restart count it read; each SQL statement and each Docker call is one step, which may fail.
 Any sequence of steps is a run: a step that is not enabled changes nothing.
 */
module Recovery {
  import opened Common

  datatype Status = Running | Stopped | Starting

  datatype Health = NoHealth | Healthy | Unhealthy | HealthStarting

  // The columns of the container's row that recovery reads and writes.
  datatype Row = Row(status: Status, restartCount: nat, circuitOpen: bool, oomKilled: bool, health: Health)

  datatype Notice = CircuitOpened(restarts: nat) | Restarted(attempt: nat) | UnhealthyNotice

  // Seconds to wait before each restart, by the restarts made so far.
  const BACKOFF: seq<nat> := [5, 10, 20, 40, 60]

  function Backoff(restartCount: nat): nat {
    BACKOFF[if restartCount >= |BACKOFF| then |BACKOFF| - 1 else restartCount]
  }

  // Where a crash handler stands, with the restart count it read.
  datatype Handler =
    | Begun
    | Opening(seen: nat)
    | Sleeping(seen: nat)
    | Restarting(seen: nat)
    | Finishing(seen: nat, restarted: bool)

  // slept: seconds of backoff begun; attempts: increments executed; restarts: Docker restart
  // calls; resets: successful circuit resets.
  datatype System = System(
    row: Option<Row>, handlers: map<int, Handler>, notices: seq<Notice>,
    slept: nat, attempts: nat, restarts: nat, resets: nat)

  // ok says whether the statement or call of the step succeeds.
  datatype Action =
    | Die(id: int, exitCode: int)
    | Snapshot(id: int, ok: bool)
    | OpenCircuit(id: int, ok: bool)
    | Increment(id: int, ok: bool)
    | Restart(id: int, ok: bool)
    | Finish(id: int, ok: bool)
    | Oom(ok: bool)
    | HealthChange(health: Health, ok: bool)
    | ResetCircuit(ok: bool)
    | ManualStart(ok: bool)
    | ClearOnStart(ok: bool)
    | ManualStop(ok: bool)
    | Remove

  // The UPDATE statements on the row.
  datatype Update = Open | Count | SetStatus(status: Status) | MarkOom | SetHealth(health: Health) | Clear

  function Updated(r: Row, u: Update): Row {
    match u
    case Open => r.(circuitOpen := true, status := Stopped)
    case Count => r.(restartCount := r.restartCount + 1, status := Starting)
    case SetStatus(status) => r.(status := status)
    case MarkOom => r.(oomKilled := true)
    case SetHealth(health) => r.(health := health)
    case Clear => r.(health := NoHealth, oomKilled := false, circuitOpen := false)
  }

  function WithRow(s: System, ok: bool, u: Update): System {
    if ok && s.row.Some? then s.(row := Some(Updated(s.row.value, u))) else s
  }

  function At(s: System, id: int, h: Handler): System {
    s.(handlers := s.handlers[id := h])
  }

  function Done(s: System, id: int): System {
    s.(handlers := s.handlers - {id})
  }

  // The query of HandleCrash, and its guards.
  function Read(max: int, s: System, id: int, ok: bool): System {
    if !ok || s.row.None? || s.row.value.circuitOpen then Done(s, id)
    else
      var n := s.row.value.restartCount;
      if n >= max then At(s, id, Opening(n))
      else At(s, id, Sleeping(n)).(slept := s.slept + Backoff(n))
  }

  // The UPDATE that counts a restart. A row deleted meanwhile is no error: nothing is updated.
  function CountRestart(s: System, id: int, seen: nat, ok: bool): System {
    if !ok then Done(s, id)
    else
      At(WithRow(s, true, Count), id, Restarting(seen)).(attempts := s.attempts + 1)
  }

  function Advance(max: int, s: System, id: int, a: Action): System
    requires id in s.handlers
  {
    match (s.handlers[id], a)
    case (Begun, Snapshot(_, ok)) => Read(max, s, id, ok)
    case (Opening(n), OpenCircuit(_, ok)) =>
      var t := WithRow(s, ok, Open);
      Done(t.(notices := t.notices + [CircuitOpened(n)]), id)
    case (Sleeping(n), Increment(_, ok)) => CountRestart(s, id, n, ok)
    case (Restarting(n), Restart(_, ok)) =>
      At(s, id, Finishing(n, ok)).(restarts := s.restarts + 1)
    case (Finishing(n, restarted), Finish(_, ok)) =>
      var t := WithRow(s, ok, SetStatus(if restarted then Running else Stopped));
      Done(t.(notices := t.notices + if restarted then [Restarted(n + 1)] else []), id)
    case _ => s
  }

  function Do(max: int, s: System, a: Action): System {
    match a
    case Die(id, exitCode) =>
      // dispatch: exit code 0 is a clean stop
      if exitCode != 0 && id !in s.handlers then At(s, id, Begun) else s
    case Oom(ok) => WithRow(s, ok, MarkOom)
    case HealthChange(h, ok) =>
      var t := WithRow(s, ok, SetHealth(h));
      if h == Unhealthy && t.row.Some? then t.(notices := t.notices + [UnhealthyNotice]) else t
    case ResetCircuit(ok) =>
      if ok && s.row.Some?
      then s.(row := Some(s.row.value.(circuitOpen := false, restartCount := 0, oomKilled := false)),
              resets := s.resets + 1)
      else s
    case ManualStart(ok) => WithRow(s, ok, SetStatus(Running))
    case ClearOnStart(ok) => WithRow(s, ok, Clear)
    case ManualStop(ok) => WithRow(s, ok, SetStatus(Stopped))
    case Remove => s.(row := None)
    case _ => if a.id in s.handlers then Advance(max, s, a.id, a) else s
  }

  function Exec(max: int, s: System, actions: seq<Action>): System {
    if actions == [] then s
    else Do(max, Exec(max, s, actions[..|actions| - 1]), actions[|actions| - 1])
  }

  // ------------------------------------------------------------------ one handler, undisturbed

  // Which of the calls of one handler succeed.
  datatype Faults = Faults(query: bool, open: bool, increment: bool, restart: bool, finish: bool)

  // All the steps of the handler of one crash, in order. Those of the branches it does not
  // take are not enabled.
  function Handle(max: int, s: System, id: int, exitCode: int, f: Faults): System {
    var s1 := Do(max, s, Die(id, exitCode));
    var s2 := Do(max, s1, Snapshot(id, f.query));
    var s3 := Do(max, s2, OpenCircuit(id, f.open));
    var s4 := Do(max, s3, Increment(id, f.increment));
    var s5 := Do(max, s4, Restart(id, f.restart));
    Do(max, s5, Finish(id, f.finish))
  }

  // What a crash comes to when nothing interferes.
  function Outcome(max: int, s: System, f: Faults): System {
    if !f.query || s.row.None? || s.row.value.circuitOpen then s
    else
      var r := s.row.value;
      var n := r.restartCount;
      if n >= max then
        s.(row := Some(if f.open then r.(circuitOpen := true, status := Stopped) else r),
           notices := s.notices + [CircuitOpened(n)])
      else if !f.increment then s.(slept := s.slept + Backoff(n))
      else
        var status := if !f.finish then Starting else if f.restart then Running else Stopped;
        s.(row := Some(r.(restartCount := n + 1, status := status)),
           notices := s.notices + if f.restart then [Restarted(n + 1)] else [],
           slept := s.slept + Backoff(n), attempts := s.attempts + 1, restarts := s.restarts + 1)
  }

  lemma {:induction false} IdleSteps(max: int, s: System, id: int, f: Faults)
    requires id !in s.handlers
    ensures Do(max, s, OpenCircuit(id, f.open)) == s && Do(max, s, Increment(id, f.increment)) == s
    ensures Do(max, s, Restart(id, f.restart)) == s && Do(max, s, Finish(id, f.finish)) == s
  {
  }

  lemma {:induction false} RestartSteps(max: int, s: System, id: int, f: Faults, n: nat)
    requires id !in s.handlers
    ensures Do(max, Do(max, At(s, id, Restarting(n)), Restart(id, f.restart)), Finish(id, f.finish))
            == WithRow(s, f.finish, SetStatus(if f.restart then Running else Stopped))
               .(restarts := s.restarts + 1, notices := s.notices + if f.restart then [Restarted(n + 1)] else [])
  {
    var s5 := Do(max, At(s, id, Restarting(n)), Restart(id, f.restart));
    assert s5 == At(s, id, Finishing(n, f.restart)).(restarts := s.restarts + 1);
    assert s5.handlers - {id} == s.handlers;
  }

  lemma {:induction false} IncrementStep(max: int, s: System, id: int, n: nat, ok: bool)
    requires id !in s.handlers
    ensures Do(max, At(s, id, Sleeping(n)), Increment(id, ok))
            == if ok then At(WithRow(s, true, Count).(attempts := s.attempts + 1), id, Restarting(n)) else s
  {
    var s3 := At(s, id, Sleeping(n));
    assert s3.handlers - {id} == s.handlers;
    assert s3.handlers[id := Restarting(n)] == s.handlers[id := Restarting(n)];
  }

  lemma {:induction false} HandleSleeping(max: int, s: System, id: int, f: Faults, n: nat)
    requires id !in s.handlers && s.row.Some?
    requires n == s.row.value.restartCount && !s.row.value.circuitOpen && n < max && f.query
    ensures var s3 := Read(max, At(s, id, Begun), id, f.query);
            Do(max, Do(max, Do(max, s3, Increment(id, f.increment)), Restart(id, f.restart)), Finish(id, f.finish))
            == Outcome(max, s, f)
  {
    var t := s.(slept := s.slept + Backoff(n));
    assert Read(max, At(s, id, Begun), id, f.query) == At(t, id, Sleeping(n));
    IncrementStep(max, t, id, n, f.increment);
    if f.increment {
      RestartSteps(max, WithRow(t, true, Count).(attempts := t.attempts + 1), id, f, n);
    } else {
      IdleSteps(max, t, id, f);
    }
  }

  /** A handler that nothing interferes with has the outcome of HandleCrash read from top to bottom. */
  lemma {:induction false} HandleIsOutcome(max: int, s: System, id: int, exitCode: int, f: Faults)
    requires id !in s.handlers && exitCode != 0
    ensures Handle(max, s, id, exitCode, f) == Outcome(max, s, f)
  {
    var s1 := Do(max, s, Die(id, exitCode));
    var s2 := Do(max, s1, Snapshot(id, f.query));
    assert s1.handlers - {id} == s.handlers;
    if !f.query || s.row.None? || s.row.value.circuitOpen {
      assert s2 == s;
      IdleSteps(max, s, id, f);
    } else if s.row.value.restartCount >= max {
      var s3 := Do(max, s2, OpenCircuit(id, f.open));
      assert s3.handlers == s.handlers;
      assert s3 == Outcome(max, s, f);
      IdleSteps(max, s3, id, f);
    } else {
      HandleSleeping(max, s, id, f, s.row.value.restartCount);
    }
  }

  /** The recovery service as the code has it, for one container, with the calls of a handler
      in a row: by HandleIsOutcome, a crash runs the steps of one handler. */
  class RecoveryService {
    const maxRestarts: int
    var row: Option<Row>
    var notices: seq<Notice>
    var slept: nat
    ghost var attempts: nat
    var restarts: nat
    ghost var resets: nat

    constructor (max: int, r: Row)
      ensures maxRestarts == max && View() == System(Some(r), map[], [], 0, 0, 0, 0)
    {
      maxRestarts := max;
      row := Some(r);
      notices := [];
      slept, attempts, restarts, resets := 0, 0, 0, 0;
    }

    ghost function View(): System
      reads this
    {
      System(row, map[], notices, slept, attempts, restarts, resets)
    }

    method HandleCrash(exitCode: int, f: Faults)
      requires exitCode != 0
      modifies this
      ensures View() == Outcome(maxRestarts, old(View()), f)
    {
      if !f.query || row.None? {
        return;
      }
      var snapshot := row.value;
      if snapshot.circuitOpen {
        return;
      }
      if snapshot.restartCount >= maxRestarts {
        if f.open {
          row := Some(row.value.(circuitOpen := true, status := Stopped));
        }
        notices := notices + [CircuitOpened(snapshot.restartCount)];
        return;
      }
      var delayIdx := snapshot.restartCount;
      if delayIdx >= |BACKOFF| {
        delayIdx := |BACKOFF| - 1;
      }
      slept := slept + BACKOFF[delayIdx];
      if !f.increment {
        return;
      }
      row := Some(row.value.(restartCount := row.value.restartCount + 1, status := Starting));
      attempts := attempts + 1;
      restarts := restarts + 1;
      if !f.restart {
        if f.finish {
          row := Some(row.value.(status := Stopped));
        }
        return;
      }
      if f.finish {
        row := Some(row.value.(status := Running));
      }
      notices := notices + [Restarted(snapshot.restartCount + 1)];
    }

    method HandleOOM(ok: bool)
      modifies this
      ensures View() == Do(maxRestarts, old(View()), Oom(ok))
    {
      if ok && row.Some? {
        row := Some(row.value.(oomKilled := true));
      }
    }

    method HandleHealthChange(health: Health, ok: bool)
      modifies this
      ensures View() == Do(maxRestarts, old(View()), HealthChange(health, ok))
    {
      if ok && row.Some? {
        row := Some(row.value.(health := health));
      }
      if health != Unhealthy || row.None? {
        return;
      }
      notices := notices + [UnhealthyNotice];
    }

    method Reset(ok: bool) returns (done: bool)
      modifies this
      ensures done == (ok && old(row).Some?)
      ensures View() == Do(maxRestarts, old(View()), ResetCircuit(ok))
    {
      done := ok && row.Some?;
      if done {
        row := Some(row.value.(circuitOpen := false, restartCount := 0, oomKilled := false));
        resets := resets + 1;
      }
    }
  }
}
