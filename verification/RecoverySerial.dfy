/**
 Crash recovery when events come one at a time: what the row holds after any trace of them.
 */
module RecoverySerial {
  import opened Common
  import opened Recovery

  datatype Event =
    | Crash(exitCode: int, restartWorks: bool)
    | OomKill
    | HealthEvent(health: Health)
    | UserStart

  // One event served to its end, every statement succeeding. The Docker restart may fail.
  function Serve(max: int, s: System, e: Event): System {
    match e
    case Crash(exitCode, works) => Handle(max, s, 0, exitCode, Faults(true, true, true, works, true))
    case OomKill => Do(max, s, Oom(true))
    case HealthEvent(h) => Do(max, s, HealthChange(h, true))
    case UserStart => Do(max, Do(max, s, ManualStart(true)), ClearOnStart(true))
  }

  function ServeAll(max: int, s: System, events: seq<Event>): System {
    if events == [] then s
    else Serve(max, ServeAll(max, s, events[..|events| - 1]), events[|events| - 1])
  }

  predicate IsCrash(e: Event) {
    e.Crash? && e.exitCode != 0
  }

  function Crashes(events: seq<Event>): nat {
    if events == [] then 0
    else Crashes(events[..|events| - 1]) + if IsCrash(events[|events| - 1]) then 1 else 0
  }

  function CrashesSinceStart(events: seq<Event>): nat {
    if events == [] || events[|events| - 1].UserStart? then 0
    else CrashesSinceStart(events[..|events| - 1]) + if IsCrash(events[|events| - 1]) then 1 else 0
  }

  function Min(a: nat, b: nat): nat {
    if a < b then a else b
  }

  // The backoff of the first n restarts.
  function TotalBackoff(n: nat): nat {
    if n == 0 then 0 else TotalBackoff(n - 1) + Backoff(n - 1)
  }

  // A row just created or just reset, and no handler at work.
  ghost predicate JustReset(s: System) {
    s.row.Some? && s.row.value.restartCount == 0 && !s.row.value.circuitOpen && s.handlers == map[]
  }

  lemma {:induction false} CleanStop(max: int, s: System, f: Faults)
    requires s.handlers == map[]
    ensures Handle(max, s, 0, 0, f) == s
  {
    assert Do(max, s, Snapshot(0, f.query)) == s;
    IdleSteps(max, s, 0, f);
  }

  lemma {:induction false} ServeKeepsIdle(max: int, s: System, e: Event)
    requires s.handlers == map[]
    ensures Serve(max, s, e).handlers == map[]
    ensures e.Crash? ==>
              Serve(max, s, e)
              == if e.exitCode == 0 then s else Outcome(max, s, Faults(true, true, true, e.restartWorks, true))
  {
    if e.Crash? {
      var f := Faults(true, true, true, e.restartWorks, true);
      if e.exitCode == 0 {
        CleanStop(max, s, f);
      } else {
        HandleIsOutcome(max, s, 0, e.exitCode, f);
      }
    }
  }

  // The system e after m crashes, d of them since the last manual start, from system s.
  ghost predicate After(max: nat, s: System, e: System, m: nat, d: nat) {
    && e.row.Some? && e.handlers == map[]
    && e.row.value.restartCount == Min(m, max)
    && (e.row.value.circuitOpen <==> m > max && d > 0)
    && e.restarts == s.restarts + Min(m, max)
    && e.slept == s.slept + TotalBackoff(Min(m, max))
  }

  lemma {:induction false} AfterCrash(max: nat, s: System, e: System, m: nat, d: nat, works: bool)
    requires After(max, s, e, m, d) && d <= m
    ensures After(max, s, Outcome(max, e, Faults(true, true, true, works, true)), m + 1, d + 1)
  {
  }

  lemma {:induction false} AfterOther(max: nat, s: System, e: System, m: nat, d: nat, event: Event)
    requires After(max, s, e, m, d) && d <= m && !event.Crash?
    ensures After(max, s, Serve(max, e, event), m, if event.UserStart? then 0 else d)
  {
  }

  lemma {:induction false} ServedAfter(max: nat, s: System, e: System, m: nat, d: nat, event: Event)
    requires After(max, s, e, m, d) && d <= m
    ensures var c := if IsCrash(event) then 1 else 0;
            After(max, s, Serve(max, e, event), m + c, if event.UserStart? then 0 else d + c)
  {
    if event.Crash? {
      ServeKeepsIdle(max, e, event);
      AfterCrash(max, s, e, m, d, event.restartWorks);
    } else {
      AfterOther(max, s, e, m, d, event);
    }
  }

  /** The breaker in closed form. After m crashes, restarts working or not, the restart count is
      the smaller of m and maxRestarts, that many restarts have been asked of Docker, each
      after its backoff, and the circuit is open just when m exceeds maxRestarts and a crash
      came after the last manual start. */
  lemma {:induction false} ClosedForm(max: nat, s: System, events: seq<Event>)
    requires JustReset(s)
    ensures After(max, s, ServeAll(max, s, events), Crashes(events), CrashesSinceStart(events))
  {
    if events != [] {
      var before := events[..|events| - 1];
      ClosedForm(max, s, before);
      CrashesSinceStartAtMost(before);
      ServedAfter(max, s, ServeAll(max, s, before), Crashes(before), CrashesSinceStart(before), events[|events| - 1]);
    }
  }

  lemma {:induction false} CrashesSinceStartAtMost(events: seq<Event>)
    ensures CrashesSinceStart(events) <= Crashes(events)
    ensures (forall i | 0 <= i < |events| :: !events[i].UserStart?) ==> CrashesSinceStart(events) == Crashes(events)
  {
    if events != [] {
      CrashesSinceStartAtMost(events[..|events| - 1]);
    }
  }

  /** With no manual start in the trace, the circuit is open exactly when the crashes outnumber
      the restarts the plan allows. */
  lemma {:induction false} OpensWhenExceeded(max: nat, s: System, events: seq<Event>)
    requires JustReset(s) && forall i | 0 <= i < |events| :: !events[i].UserStart?
    ensures var e := ServeAll(max, s, events);
            e.row.Some? && (e.row.value.circuitOpen <==> Crashes(events) > max)
  {
    ClosedForm(max, s, events);
    CrashesSinceStartAtMost(events);
  }

  /** A manual start closes the circuit but keeps the count: on an exhausted container the next
      crash opens it again, and Docker is not asked to restart anything. */
  lemma {:induction false} StartThenCrash(max: nat, s: System, exitCode: int, works: bool)
    requires s.row.Some? && s.row.value.restartCount >= max && s.handlers == map[] && exitCode != 0
    ensures var t := Serve(max, s, UserStart);
            var u := Serve(max, t, Crash(exitCode, works));
            && t.row.Some? && u.row.Some?
            && !t.row.value.circuitOpen && t.row.value.status == Running
            && u.row.value.circuitOpen && u.row.value.status == Stopped
            && u.row.value.restartCount == s.row.value.restartCount
            && u.restarts == s.restarts && u.slept == s.slept
  {
    ServeKeepsIdle(max, Serve(max, s, UserStart), Crash(exitCode, works));
  }

  // ------------------------------------------------------------------ stops by the user

  /** A container that the user stops does not always stay stopped: the die event of the stop is
      taken for a crash when the exit code is not 0. Docker is asked to restart it exactly when
      no guard of HandleCrash stands in the way, and the row still says "stopped" at the end
      exactly when it is not asked or the restart is seen to fail. */
  lemma {:induction false} StopThenDie(max: nat, s: System, id: int, exitCode: int, f: Faults)
    requires s.row.Some? && id !in s.handlers
    ensures var t := Do(max, s, ManualStop(true));
            var u := Handle(max, t, id, exitCode, f);
            var restarted := exitCode != 0 && f.query && f.increment
                             && !s.row.value.circuitOpen && s.row.value.restartCount < max;
            && t.row.value.status == Stopped
            && u.restarts == s.restarts + (if restarted then 1 else 0)
            && u.row.Some? && (u.row.value.status == Stopped <==> !restarted || (f.finish && !f.restart))
            && (u.row.value.status == Running <==> restarted && f.finish && f.restart)
  {
    var t := Do(max, s, ManualStop(true));
    if exitCode == 0 {
      assert Do(max, t, Snapshot(id, f.query)) == t;
      IdleSteps(max, t, id, f);
    } else {
      HandleIsOutcome(max, t, id, exitCode, f);
    }
  }

  /** Such a stop: the process of a new container is killed, exit code 137, and the container
      runs again. */
  lemma {:induction false} StopThatDoesNotLast(max: nat)
    requires max > 0
    ensures var s := System(Some(Row(Running, 0, false, false, NoHealth)), map[], [], 0, 0, 0, 0);
            var u := Handle(max, Do(max, s, ManualStop(true)), 0, 137, Faults(true, true, true, true, true));
            u.row.Some? && u.row.value.status == Running && u.restarts == 1
  {
    var s := System(Some(Row(Running, 0, false, false, NoHealth)), map[], [], 0, 0, 0, 0);
    StopThenDie(max, s, 0, 137, Faults(true, true, true, true, true));
  }

  // ------------------------------------------------------------------ backoff

  function Pow2(n: nat): nat {
    if n == 0 then 1 else 2 * Pow2(n - 1)
  }

  /** Delays never shrink and never exceed a minute. */
  lemma {:induction false} BackoffGrows(m: nat, n: nat)
    requires m <= n
    ensures Backoff(m) <= Backoff(n) <= 60
  {
    assert BACKOFF[0] <= BACKOFF[1] <= BACKOFF[2] <= BACKOFF[3] <= BACKOFF[4] == 60;
    forall i, j | 0 <= i <= j < |BACKOFF|
      ensures BACKOFF[i] <= BACKOFF[j]
    {
    }
  }

  /** The time spent waiting over n restarts from zero: it doubles up to the fourth, then grows
      by a minute each. */
  lemma {:induction false} TotalBackoffIs(n: nat)
    ensures TotalBackoff(n) == if n <= 4 then 5 * (Pow2(n) - 1) else 135 + 60 * (n - 5)
  {
    if n > 0 {
      TotalBackoffIs(n - 1);
      assert Pow2(0) == 1 && Pow2(1) == 2 && Pow2(2) == 4 && Pow2(3) == 8 && Pow2(4) == 16;
      if n >= 5 {
        assert Backoff(n - 1) == 60;
      }
    }
  }
}
