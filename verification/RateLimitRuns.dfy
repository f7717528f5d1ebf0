/**
 Whole runs of the rate limiter: evicting idle addresses cannot be seen, except with limits
 whose bucket takes more than the idle time to fill; and what a client may rely on.
 */
module RateLimitRuns {
  import TB = TokenBucket
  import opened RateLimit

  // Ten idle minutes fill a bucket.
  predicate IdleFills(l: Limits) {
    l.burst as real <= IDLE * l.rate
  }

  // ------------------------------------------------------------------ sweeps drop full buckets

  ghost predicate EntryOk(v: Entry, now: real) {
    v.bucket.tokens >= 0.0 && v.bucket.last <= v.lastSeen <= now
  }

  lemma {:induction false} TakeOk(l: Limits, b: Bucket, now: real)
    requires b.tokens >= 0.0
    ensures Take(l, b, now).tokens >= 0.0
    ensures Take(l, b, now).last == now || Take(l, b, now) == b
  {
  }

  ghost predicate AllOk(t: Table, now: real) {
    forall ip | ip in t :: EntryOk(t[ip], now)
  }

  lemma {:induction false} StepOk(l: Limits, t: Table, e: Event, now: real)
    requires AllOk(t, e.at) && e.at <= now
    ensures AllOk(Step(l, t, e), now)
  {
    if e.Request? {
      TakeOk(l, Seen(l, t, e.ip, e.at), e.at);
    }
  }

  lemma {:induction false} EntriesOk(l: Limits, events: seq<Event>, now: real)
    requires InOrder(events) && (events != [] ==> events[|events| - 1].at <= now)
    ensures AllOk(After(l, events), now)
  {
    if events == [] {
    } else {
      var n := |events| - 1;
      var s, t := After(l, events[..n]), After(l, events);
      EntriesOk(l, events[..n], events[n].at);
      StepOk(l, s, events[n], now);
      assert t == Step(l, s, events[n]);
      assert AllOk(t, now);
    }
  }

  lemma {:induction false} IdleIsFull(l: Limits, v: Entry, now: real)
    requires l.rate >= 0.0 && IdleFills(l) && EntryOk(v, now) && now - v.lastSeen > IDLE
    ensures TB.FullAt(l.burst, Scale(l, v.bucket), Clock(l, now))
  {
    Times1(l.rate, IDLE, now - v.bucket.last);
    assert IDLE * l.rate == l.rate * IDLE;
    assert Clock(l, Elapsed(v.bucket, now)) >= l.burst as real;
    assert Level(l, v.bucket, now) == l.burst as real;
    ScaleLevel(l, v.bucket, now);
  }

  lemma {:induction false} SweepsDropFull(l: Limits, events: seq<Event>, i: nat)
    requires l.rate >= 0.0 && InOrder(events) && i < |events|
    requires events[i].Sweep? ==> IdleFills(l)
    ensures TB.DropsFull(l.burst, ScaleEvents(l, events), i)
  {
    var e, t := events[i], After(l, events[..i]);
    ScaleEventAt(l, events, i);
    ScaleRun(l, events[..i]);
    if e.Sweep? {
      EntriesOk(l, events[..i], e.at);
      forall ip | ip in Stale(t, e.at)
        ensures TB.FullAt(l.burst, Scale(l, t[ip].bucket), Clock(l, e.at))
      {
        IdleIsFull(l, t[ip], e.at);
      }
    }
  }

  // The answers are those of one bucket fed with the address's own requests.
  lemma {:induction false} AnswersAreSolo(l: Limits, events: seq<Event>, ip: string)
    requires l.rate >= 0.0 && InOrder(events)
    requires IdleFills(l) || forall i | 0 <= i < |events| :: events[i].Request?
    ensures Answers(l, events, ip) == TB.SoloGrants(l.burst, ScaleTimes(l, Times(events, ip)))
  {
    var scaled := ScaleEvents(l, events);
    ScaleInOrder(l, events);
    ScaleAnswers(l, events, ip);
    ScaleTimesOf(l, events, ip);
    forall i | 0 <= i < |scaled|
      ensures TB.DropsFull(l.burst, scaled, i)
    {
      SweepsDropFull(l, events, i);
    }
    var now := if events == [] then 0.0 else scaled[|events| - 1].at;
    TB.StaysFaithful(l.burst, scaled, ip, now);
  }

  lemma {:induction false} AloneIsRequests(events: seq<Event>, ip: string, now: real)
    requires forall i | 0 <= i < |events| :: events[i].at <= now
    ensures forall e | e in Alone(events, ip) :: e.Request? && e.ip == ip && e.at <= now
  {
    if events != [] {
      AloneIsRequests(events[..|events| - 1], ip, now);
    }
  }

  lemma {:induction false} AloneIsInOrder(events: seq<Event>, ip: string)
    requires InOrder(events)
    ensures InOrder(Alone(events, ip))
  {
    if events != [] {
      var n := |events| - 1;
      var before := Alone(events[..n], ip);
      AloneIsInOrder(events[..n], ip);
      AloneIsRequests(events[..n], ip, events[n].at);
      assert forall i | 0 <= i < |before| :: before[i] in before;
    }
  }

  lemma {:induction false} AloneTimes(events: seq<Event>, ip: string)
    ensures Times(Alone(events, ip), ip) == Times(events, ip)
  {
    if events != [] {
      var n := |events| - 1;
      var a := Alone(events, ip);
      AloneTimes(events[..n], ip);
      if events[n].Request? && events[n].ip == ip {
        assert a[..|a| - 1] == Alone(events[..n], ip);
      }
    }
  }

  lemma {:induction false} AloneIs(events: seq<Event>, ip: string)
    requires InOrder(events)
    ensures var a := Alone(events, ip);
            && InOrder(a)
            && (forall i | 0 <= i < |a| :: a[i].Request? && a[i].ip == ip && a[i].at <= events[|events| - 1].at)
            && Times(a, ip) == Times(events, ip)
    ensures events == [] ==> Alone(events, ip) == []
  {
    AloneIsInOrder(events, ip);
    AloneTimes(events, ip);
    if events != [] {
      AloneIsRequests(events, ip, events[|events| - 1].at);
    }
    var a := Alone(events, ip);
    assert forall i | 0 <= i < |a| :: a[i] in a;
  }

  /** Evicting idle addresses is invisible when ten idle minutes fill a bucket: each address
      gets the answers of a bucket of its own that is never evicted. */
  lemma {:induction false} EvictionUnobservable(l: Limits, events: seq<Event>, ip: string)
    requires l.rate >= 0.0 && IdleFills(l) && InOrder(events)
    ensures Answers(l, events, ip) == Answers(l, Alone(events, ip), ip)
  {
    AloneIs(events, ip);
    AnswersAreSolo(l, events, ip);
    AnswersAreSolo(l, Alone(events, ip), ip);
  }

  // The tokens earned between two times.
  function Earned(l: Limits, from: real, until: real): real {
    l.rate * (until - from)
  }

  /** Over any run, in any window between two requests of an address, at most the burst plus
      the rate times the window's length are let through. */
  lemma {:induction false} WindowBound(l: Limits, events: seq<Event>, ip: string, i: nat, j: nat)
    requires l.rate >= 0.0 && InOrder(events)
    requires IdleFills(l) || forall k | 0 <= k < |events| :: events[k].Request?
    requires i < j <= |Times(events, ip)|
    ensures |Answers(l, events, ip)| == |Times(events, ip)|
    ensures var times := Times(events, ip);
            TB.Count(Answers(l, events, ip)[i..j]) as real <= l.burst as real + Earned(l, times[i], times[j - 1])
  {
    var times := Times(events, ip);
    var scaled := ScaleTimes(l, times);
    AnswersAreSolo(l, events, ip);
    TimesInOrder(events, ip);
    ScaleTimesInOrder(l, times);
    TB.SoloWindow(l.burst, scaled, i, j);
    assert scaled[j - 1] == Clock(l, times[j - 1]) && scaled[i] == Clock(l, times[i]);
    ClockDifference(l, times[i], times[j - 1]);
  }

  lemma {:induction false} ClockDifference(l: Limits, a: real, b: real)
    ensures Clock(l, b) - Clock(l, a) == Earned(l, a, b)
  {
  }

  lemma {:induction false} ScaleTimesInOrder(l: Limits, times: seq<real>)
    requires l.rate >= 0.0 && TB.InOrder(times)
    ensures TB.InOrder(ScaleTimes(l, times))
  {
    forall i, j | 0 <= i < j < |times|
      ensures Clock(l, times[i]) <= Clock(l, times[j])
    {
      var a, b := times[i], times[j];
      assert a <= b;
      ClockGrows(l, a, b);
    }
  }

  lemma {:induction false} TimesInOrder(events: seq<Event>, ip: string)
    requires InOrder(events)
    ensures TB.InOrder(Times(events, ip))
    ensures forall i | 0 <= i < |Times(events, ip)| :: Times(events, ip)[i] <= events[|events| - 1].at
    ensures events == [] ==> Times(events, ip) == []
  {
    if events != [] {
      TimesInOrder(events[..|events| - 1], ip);
    }
  }

  /** The limits main.go installs are among those EvictionUnobservable and WindowBound cover. */
  lemma {:induction false} InstalledLimits(events: seq<Event>, ip: string)
    requires InOrder(events)
    ensures INSTALLED.rate >= 0.0 && IdleFills(INSTALLED)
    ensures Answers(INSTALLED, events, ip) == Answers(INSTALLED, Alone(events, ip), ip)
  {
    EvictionUnobservable(INSTALLED, events, ip);
  }

  // ------------------------------------------------------------------ a patient client

  // Each request of the address comes at least 1/rate after the one before.
  ghost predicate Patient(l: Limits, times: seq<real>) {
    forall i | 0 < i < |times| :: Earned(l, times[i - 1], times[i]) >= 1.0
  }

  lemma {:induction false} WaitedLongEnough(l: Limits, b: Bucket, now: real)
    requires l.burst >= 1 && b.tokens >= 0.0 && b.last <= now && Earned(l, b.last, now) >= 1.0
    ensures Grants(l, b, now)
  {
    assert Elapsed(b, now) == now - b.last;
    assert Clock(l, Elapsed(b, now)) == Earned(l, b.last, now);
  }

  lemma {:induction false} FreshGrants(l: Limits, now: real)
    requires l.burst >= 1
    ensures Grants(l, TB.Bucket(l.burst as real, now), now)
    ensures Level(l, TB.Bucket(l.burst as real, now), now) == l.burst as real
  {
    assert l.rate * 0.0 == 0.0;
  }

  /** A client that spaces its requests at least 1/rate apart is never refused, whatever is
      evicted meanwhile and whatever others do. */
  lemma {:induction false} PatientIsNeverRefused(l: Limits, events: seq<Event>, ip: string)
    requires l.burst >= 1 && InOrder(events) && Patient(l, Times(events, ip))
    ensures forall i | 0 <= i < |Answers(l, events, ip)| :: Answers(l, events, ip)[i]
    ensures var t, times := After(l, events), Times(events, ip);
            ip in t ==> times != [] && t[ip].bucket.last == times[|times| - 1] && t[ip].bucket.tokens >= 0.0
  {
    if events != [] {
      var n := |events| - 1;
      var e, t, before := events[n], After(l, events[..n]), Times(events[..n], ip);
      if e.Request? && e.ip == ip {
        var times := Times(events, ip);
        assert times == before + [e.at];
        forall i | 0 < i < |before|
          ensures Earned(l, before[i - 1], before[i]) >= 1.0
        {
          assert times[i] == before[i] && times[i - 1] == before[i - 1];
        }
        PatientIsNeverRefused(l, events[..n], ip);
        if ip in t {
          var m := |before|;
          assert Earned(l, times[m - 1], times[m]) >= 1.0;
          TimesInOrder(events, ip);
          WaitedLongEnough(l, t[ip].bucket, e.at);
        } else {
          FreshGrants(l, e.at);
        }
      } else {
        PatientIsNeverRefused(l, events[..n], ip);
      }
    }
  }

  // ------------------------------------------------------------------ limits too slow to refill

  function Requests(ip: string, at: real, n: nat): (r: seq<Event>)
    ensures |r| == n && forall i | 0 <= i < n :: r[i] == Request(ip, at)
  {
    seq(n, _ => Request(ip, at))
  }

  function Copies(at: real, n: nat): (r: seq<real>)
    ensures |r| == n && forall i | 0 <= i < n :: r[i] == at
  {
    seq(n, _ => at)
  }

  function AllGranted(n: nat): (r: seq<bool>)
    ensures |r| == n && forall i | 0 <= i < n :: r[i]
  {
    seq(n, _ => true)
  }

  lemma {:induction false} Snoc(l: Limits, events: seq<Event>, e: Event, ip: string)
    ensures After(l, events + [e]) == Step(l, After(l, events), e)
    ensures Answers(l, events + [e], ip)
            == Answers(l, events, ip)
            + if e.Request? && e.ip == ip then [Grants(l, Seen(l, After(l, events), ip, e.at), e.at)] else []
    ensures Times(events + [e], ip) == Times(events, ip) + if e.Request? && e.ip == ip then [e.at] else []
  {
    assert (events + [e])[..|events|] == events;
  }

  lemma {:induction false} LevelAtOnce(l: Limits, n: nat, at: real)
    requires n <= l.burst
    ensures Level(l, TB.Bucket((l.burst - n) as real, at), at) == (l.burst - n) as real
  {
    assert l.rate * 0.0 == 0.0;
  }

  // One more request at the time of a burst that is not used up.
  lemma {:induction false} OneMore(l: Limits, t: Table, ip: string, at: real, n: nat)
    requires n < l.burst
    requires if n == 0 then ip !in t else ip in t && t[ip].bucket == TB.Bucket((l.burst - n) as real, at)
    ensures Grants(l, Seen(l, t, ip, at), at)
    ensures Touch(l, t, ip, at) == t[ip := Entry(TB.Bucket((l.burst - (n + 1)) as real, at), at)]
  {
    LevelAtOnce(l, n, at);
  }

  lemma {:induction false} RequestsSnoc(events: seq<Event>, ip: string, at: real, n: nat)
    requires n > 0
    ensures events + Requests(ip, at, n) == (events + Requests(ip, at, n - 1)) + [Request(ip, at)]
  {
  }

  // The table t after n requests of the address at this time.
  function Spent(l: Limits, t: Table, ip: string, at: real, n: nat): Table
    requires n <= l.burst
  {
    if n == 0 then t else t[ip := Entry(TB.Bucket((l.burst - n) as real, at), at)]
  }

  lemma {:induction false} SpendOne(l: Limits, t: Table, before: seq<Event>, ip: string, at: real, n: nat)
    requires ip !in t && 0 < n <= l.burst
    requires After(l, before) == Spent(l, t, ip, at, n - 1)
    ensures After(l, before + [Request(ip, at)]) == Spent(l, t, ip, at, n)
    ensures Answers(l, before + [Request(ip, at)], ip) == Answers(l, before, ip) + [true]
  {
    Snoc(l, before, Request(ip, at), ip);
    OneMore(l, Spent(l, t, ip, at, n - 1), ip, at, n - 1);
  }

  lemma {:induction false} AllGrantedSnoc(n: nat)
    ensures AllGranted(n + 1) == AllGranted(n) + [true]
  {
  }

  ghost predicate HasSpent(l: Limits, before: seq<Event>, after: seq<Event>, ip: string, at: real, n: nat)
    requires n <= l.burst
  {
    && After(l, after) == Spent(l, After(l, before), ip, at, n)
    && Answers(l, after, ip) == Answers(l, before, ip) + AllGranted(n)
  }

  lemma {:induction false} SpendsOneMore(l: Limits, before: seq<Event>, after: seq<Event>, ip: string, at: real, n: nat)
    requires ip !in After(l, before) && n < l.burst && HasSpent(l, before, after, ip, at, n)
    ensures HasSpent(l, before, after + [Request(ip, at)], ip, at, n + 1)
  {
    SpendOne(l, After(l, before), after, ip, at, n + 1);
    AllGrantedSnoc(n);
  }

  lemma {:induction false} NoneSpent(l: Limits, events: seq<Event>, ip: string, at: real)
    ensures HasSpent(l, events, events + Requests(ip, at, 0), ip, at, 0)
  {
    assert events + Requests(ip, at, 0) == events;
    assert AllGranted(0) == [];
  }

  // A new address gets a whole burst at once.
  lemma {:induction false} BurstGranted(l: Limits, events: seq<Event>, ip: string, at: real, n: nat)
    requires ip !in After(l, events) && n <= l.burst
    ensures HasSpent(l, events, events + Requests(ip, at, n), ip, at, n)
  {
    hide HasSpent, Requests;
    if n == 0 {
      NoneSpent(l, events, ip, at);
    } else {
      BurstGranted(l, events, ip, at, n - 1);
      SpendsOneMore(l, events, events + Requests(ip, at, n - 1), ip, at, n - 1);
      RequestsSnoc(events, ip, at, n);
    }
  }

  lemma {:induction false} BurstTimes(l: Limits, events: seq<Event>, ip: string, at: real, n: nat)
    ensures Times(events + Requests(ip, at, n), ip) == Times(events, ip) + Copies(at, n)
  {
    if n == 0 {
      assert events + Requests(ip, at, 0) == events;
    } else {
      RequestsSnoc(events, ip, at, n);
      BurstTimes(l, events, ip, at, n - 1);
      Snoc(l, events + Requests(ip, at, n - 1), Request(ip, at), ip);
    }
  }

  // A time after the idle time at which an emptied bucket is not full again.
  lemma {:induction false} PickTime(l: Limits) returns (s: real)
    requires l.rate >= 0.0 && !IdleFills(l)
    ensures s > IDLE && Earned(l, 0.0, s) < l.burst as real
  {
    if l.rate == 0.0 {
      s := IDLE + 1.0;
    } else {
      var full := l.burst as real / l.rate;
      assert l.rate * full == l.burst as real;
      if full <= IDLE {
        Times1(l.rate, full, IDLE);
        assert false;
      }
      s := (IDLE + full) / 2.0;
      assert l.rate * s == (l.rate * IDLE + l.rate * full) / 2.0;
    }
  }

  // Use up the burst, stay away until the sweep, and come back.
  function Comeback(l: Limits, ip: string, s: real): seq<Event> {
    Requests(ip, 0.0, l.burst) + [Sweep(s)] + Requests(ip, s, l.burst)
  }

  lemma {:induction false} SweptAway(l: Limits, ip: string, s: real)
    requires l.burst > 0 && s > IDLE
    ensures After(l, Requests(ip, 0.0, l.burst) + [Sweep(s)]) == map[]
    ensures Answers(l, Requests(ip, 0.0, l.burst) + [Sweep(s)], ip) == AllGranted(l.burst)
  {
    var first := Requests(ip, 0.0, l.burst);
    assert [] + first == first;
    BurstGranted(l, [], ip, 0.0, l.burst);
    Snoc(l, first, Sweep(s), ip);
  }

  lemma {:induction false} ComebackGranted(l: Limits, ip: string, s: real)
    requires l.burst > 0 && s > IDLE
    ensures Answers(l, Comeback(l, ip, s), ip) == AllGranted(2 * l.burst)
    ensures InOrder(Comeback(l, ip, s))
  {
    SweptAway(l, ip, s);
    BurstGranted(l, Requests(ip, 0.0, l.burst) + [Sweep(s)], ip, s, l.burst);
    assert AllGranted(l.burst) + AllGranted(l.burst) == AllGranted(2 * l.burst);
  }

  lemma {:induction false} SweptTimes(l: Limits, ip: string, s: real)
    ensures Times(Requests(ip, 0.0, l.burst) + [Sweep(s)], ip) == Copies(0.0, l.burst)
  {
    var first := Requests(ip, 0.0, l.burst);
    assert [] + first == first;
    BurstTimes(l, [], ip, 0.0, l.burst);
    Snoc(l, first, Sweep(s), ip);
  }

  lemma {:induction false} ComebackTimes(l: Limits, ip: string, s: real)
    ensures Times(Comeback(l, ip, s), ip) == Copies(0.0, l.burst) + Copies(s, l.burst)
  {
    SweptTimes(l, ip, s);
    BurstTimes(l, Requests(ip, 0.0, l.burst) + [Sweep(s)], ip, s, l.burst);
  }

  lemma {:induction false} CountAll(n: nat)
    ensures TB.Count(AllGranted(n)) == n
  {
    if n > 0 {
      CountAll(n - 1);
      assert AllGranted(n)[..n - 1] == AllGranted(n - 1);
    }
  }

  // With too slow a refill, a client that comes back after a sweep gets more than its bucket holds.
  lemma {:induction false} EvictionObservable(l: Limits, ip: string) returns (events: seq<Event>)
    requires l.rate >= 0.0 && !IdleFills(l)
    ensures InOrder(events) && Answers(l, events, ip) != Answers(l, Alone(events, ip), ip)
  {
    assert l.burst > 0 by {
      Times1(l.rate, 0.0, IDLE);
    }
    var s := PickTime(l);
    events := Comeback(l, ip, s);
    ComebackGranted(l, ip, s);
    ComebackTimes(l, ip, s);
    var own, n := Alone(events, ip), 2 * l.burst;
    AloneIs(events, ip);
    WindowBound(l, own, ip, 0, n);
    assert Answers(l, own, ip)[0..n] == Answers(l, own, ip);
    CountAll(n);
  }

  // In no run, for no address, can evictions be seen.
  ghost predicate NeverObservable(l: Limits) {
    forall events, ip | InOrder(events) :: Answers(l, events, ip) == Answers(l, Alone(events, ip), ip)
  }

  /** Evictions are invisible exactly for the limits whose bucket fills in ten minutes. */
  lemma {:induction false} EvictionUnobservableExactly(l: Limits)
    requires l.rate >= 0.0
    ensures NeverObservable(l) <==> IdleFills(l)
  {
    if IdleFills(l) {
      forall events, ip | InOrder(events)
        ensures Answers(l, events, ip) == Answers(l, Alone(events, ip), ip)
      {
        EvictionUnobservable(l, events, ip);
      }
    } else {
      var events := EvictionObservable(l, "192.0.2.1");
    }
  }
}
