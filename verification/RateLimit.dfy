/**
 The per-address rate limiter (middlware/ratelimit.go) and its cleanup of idle addresses.
 Times are seconds. The bucket of golang.org/x/time/rate is taken in exact arithmetic: it
 refills at the rate up to the burst, and grants a request when it holds a whole token.
 A request here finds and asks its limiter at once; RateLimitPauses.dfy takes the two apart.
 */
module RateLimit {
  import TB = TokenBucket

  type Bucket = TB.Bucket

  datatype Limits = Limits(rate: real, burst: nat)

  const IDLE := 600.0

  // The limits main.go installs.
  const INSTALLED := Limits(10.0, 30)

  // The tokens the rate earns in this many seconds.
  function Clock(l: Limits, t: real): real {
    l.rate * t
  }

  function Elapsed(b: Bucket, now: real): real {
    if now < b.last then 0.0 else now - b.last
  }

  function Level(l: Limits, b: Bucket, now: real): real {
    var tokens := b.tokens + Clock(l, Elapsed(b, now));
    if tokens > l.burst as real then l.burst as real else tokens
  }

  predicate Grants(l: Limits, b: Bucket, now: real) {
    Level(l, b, now) >= 1.0
  }

  function Take(l: Limits, b: Bucket, now: real): Bucket {
    if Grants(l, b, now) then TB.Bucket(Level(l, b, now) - 1.0, now) else b
  }

  // ------------------------------------------------------------------ the table of visitors

  datatype Entry = Entry(bucket: Bucket, lastSeen: real)

  type Table = map<string, Entry>

  function Seen(l: Limits, t: Table, ip: string, now: real): Bucket {
    if ip in t then t[ip].bucket else TB.Bucket(l.burst as real, now)
  }

  function Touch(l: Limits, t: Table, ip: string, now: real): Table {
    t[ip := Entry(Take(l, Seen(l, t, ip, now), now), now)]
  }

  predicate Idle(lastSeen: real, now: real) {
    now - lastSeen > IDLE
  }

  function Stale(t: Table, now: real): set<string> {
    set ip | ip in t && Idle(t[ip].lastSeen, now)
  }

  datatype Event =
    | Request(ip: string, at: real)
    | Sweep(at: real)

  function Step(l: Limits, t: Table, e: Event): Table {
    match e
    case Request(ip, at) => Touch(l, t, ip, at)
    case Sweep(at) => t - Stale(t, at)
  }

  function After(l: Limits, events: seq<Event>): Table {
    if events == [] then map[]
    else Step(l, After(l, events[..|events| - 1]), events[|events| - 1])
  }

  // The decisions on the requests of one address, in order.
  function Answers(l: Limits, events: seq<Event>, ip: string): seq<bool> {
    if events == [] then []
    else
      var n := |events| - 1;
      var before, e := Answers(l, events[..n], ip), events[n];
      if e.Request? && e.ip == ip
      then before + [Grants(l, Seen(l, After(l, events[..n]), ip, e.at), e.at)]
      else before
  }

  function Times(events: seq<Event>, ip: string): seq<real> {
    if events == [] then []
    else
      var n := |events| - 1;
      var before, e := Times(events[..n], ip), events[n];
      if e.Request? && e.ip == ip then before + [e.at] else before
  }

  ghost predicate InOrder(events: seq<Event>) {
    forall i, j | 0 <= i < j < |events| :: events[i].at <= events[j].at
  }

  // The requests of one address, with no other address and no sweep: one bucket, never evicted.
  function Alone(events: seq<Event>, ip: string): seq<Event> {
    if events == [] then []
    else
      var n := |events| - 1;
      var before, e := Alone(events[..n], ip), events[n];
      if e.Request? && e.ip == ip then before + [e] else before
  }

  // ------------------------------------------------------------------ the clock in tokens

  function Scale(l: Limits, b: Bucket): Bucket {
    TB.Bucket(b.tokens, Clock(l, b.last))
  }

  lemma {:induction false} Times1(rate: real, a: real, b: real)
    requires rate >= 0.0 && a <= b
    ensures rate * a <= rate * b
    ensures rate * (b - a) == rate * b - rate * a
  {
  }

  lemma {:induction false} ClockGrows(l: Limits, a: real, b: real)
    requires l.rate >= 0.0 && a <= b
    ensures Clock(l, a) <= Clock(l, b)
  {
    Times1(l.rate, a, b);
    assert Clock(l, a) == l.rate * a && Clock(l, b) == l.rate * b;
  }

  lemma {:induction false} ScaleLevel(l: Limits, b: Bucket, now: real)
    requires l.rate >= 0.0
    ensures Level(l, b, now) == TB.Level(l.burst, Scale(l, b), Clock(l, now))
  {
    if now < b.last {
      Times1(l.rate, now, b.last);
      assert l.rate * 0.0 == 0.0;
    } else {
      Times1(l.rate, b.last, now);
    }
  }

  function ScaleTable(l: Limits, t: Table): TB.Table {
    map ip | ip in t :: Scale(l, t[ip].bucket)
  }

  function ScaleEvent(l: Limits, t: Table, e: Event): TB.Event {
    match e
    case Request(ip, at) => TB.Request(ip, Clock(l, at))
    case Sweep(at) => TB.Drop(Stale(t, at), Clock(l, at))
  }

  function ScaleEvents(l: Limits, events: seq<Event>): (r: seq<TB.Event>)
    ensures |r| == |events|
  {
    if events == [] then []
    else
      var n := |events| - 1;
      ScaleEvents(l, events[..n]) + [ScaleEvent(l, After(l, events[..n]), events[n])]
  }

  function ScaleTimes(l: Limits, times: seq<real>): (r: seq<real>)
    ensures |r| == |times| && forall i | 0 <= i < |times| :: r[i] == Clock(l, times[i])
  {
    seq(|times|, i requires 0 <= i < |times| => Clock(l, times[i]))
  }

  lemma {:induction false} ScaleTake(l: Limits, b: Bucket, now: real)
    requires l.rate >= 0.0
    ensures Grants(l, b, now) <==> TB.Grants(l.burst, Scale(l, b), Clock(l, now))
    ensures Scale(l, Take(l, b, now)) == TB.Take(l.burst, Scale(l, b), Clock(l, now))
  {
    ScaleLevel(l, b, now);
  }

  lemma {:induction false} ScaleSeen(l: Limits, t: Table, ip: string, now: real)
    ensures Scale(l, Seen(l, t, ip, now)) == TB.Seen(l.burst, ScaleTable(l, t), ip, Clock(l, now))
  {
  }

  lemma {:induction false} ScaleUpdate(l: Limits, t: Table, ip: string, v: Entry)
    ensures ScaleTable(l, t[ip := v]) == ScaleTable(l, t)[ip := Scale(l, v.bucket)]
  {
  }

  lemma {:induction false} ScaleRequest(l: Limits, t: Table, ip: string, now: real)
    requires l.rate >= 0.0
    ensures ScaleTable(l, Touch(l, t, ip, now))
            == TB.Step(l.burst, ScaleTable(l, t), TB.Request(ip, Clock(l, now)))
  {
    var b := Seen(l, t, ip, now);
    ScaleSeen(l, t, ip, now);
    ScaleTake(l, b, now);
    ScaleUpdate(l, t, ip, Entry(Take(l, b, now), now));
  }

  lemma {:induction false} ScaleSweep(l: Limits, t: Table, now: real)
    ensures ScaleTable(l, t - Stale(t, now)) == ScaleTable(l, t) - Stale(t, now)
  {
  }

  lemma {:induction false} ScaleStep(l: Limits, t: Table, e: Event)
    requires l.rate >= 0.0
    ensures ScaleTable(l, Step(l, t, e)) == TB.Step(l.burst, ScaleTable(l, t), ScaleEvent(l, t, e))
  {
    match e
    case Request(ip, at) => ScaleRequest(l, t, ip, at);
    case Sweep(at) => ScaleSweep(l, t, at);
  }

  // The run on the token clock is the same run.
  lemma {:induction false} ScaleRun(l: Limits, events: seq<Event>)
    requires l.rate >= 0.0
    ensures ScaleTable(l, After(l, events)) == TB.After(l.burst, ScaleEvents(l, events))
  {
    if events != [] {
      var n := |events| - 1;
      ScaleRun(l, events[..n]);
      ScaleStep(l, After(l, events[..n]), events[n]);
      assert ScaleEvents(l, events)[..n] == ScaleEvents(l, events[..n]);
    }
  }

  lemma {:induction false} ScaleAnswer(l: Limits, t: Table, ip: string, now: real)
    requires l.rate >= 0.0
    ensures Grants(l, Seen(l, t, ip, now), now) <==>
            TB.Grants(l.burst, TB.Seen(l.burst, ScaleTable(l, t), ip, Clock(l, now)), Clock(l, now))
  {
    ScaleSeen(l, t, ip, now);
    ScaleTake(l, Seen(l, t, ip, now), now);
  }

  // The last event of a run on the token clock.
  lemma {:induction false} ScaleLast(l: Limits, events: seq<Event>)
    requires events != []
    ensures var n := |events| - 1;
            ScaleEvents(l, events) == ScaleEvents(l, events[..n]) + [ScaleEvent(l, After(l, events[..n]), events[n])]
  {
  }

  lemma {:induction false} AnswersSnoc(burst: nat, events: seq<TB.Event>, e: TB.Event, ip: string)
    ensures TB.Answers(burst, events + [e], ip)
            == TB.Answers(burst, events, ip)
            + if e.Request? && e.ip == ip then [TB.Grants(burst, TB.Seen(burst, TB.After(burst, events), ip, e.at), e.at)]
              else []
    ensures TB.Times(events + [e], ip) == TB.Times(events, ip) + if e.Request? && e.ip == ip then [e.at] else []
  {
    assert (events + [e])[..|events|] == events;
  }

  lemma {:induction false} ScaleAnswers(l: Limits, events: seq<Event>, ip: string)
    requires l.rate >= 0.0
    ensures Answers(l, events, ip) == TB.Answers(l.burst, ScaleEvents(l, events), ip)
  {
    if events != [] {
      var n := |events| - 1;
      var before, e := events[..n], events[n];
      ScaleAnswers(l, before, ip);
      ScaleRun(l, before);
      ScaleLast(l, events);
      AnswersSnoc(l.burst, ScaleEvents(l, before), ScaleEvent(l, After(l, before), e), ip);
      if e.Request? && e.ip == ip {
        ScaleAnswer(l, After(l, before), ip, e.at);
      }
    }
  }

  lemma {:induction false} ScaleTimesSnoc(l: Limits, times: seq<real>, t: real)
    ensures ScaleTimes(l, times + [t]) == ScaleTimes(l, times) + [Clock(l, t)]
  {
    var a, b := ScaleTimes(l, times + [t]), ScaleTimes(l, times) + [Clock(l, t)];
    forall i | 0 <= i < |a|
      ensures a[i] == b[i]
    {
      assert a[i] == Clock(l, (times + [t])[i]);
    }
  }

  lemma {:induction false} ScaleTimesOf(l: Limits, events: seq<Event>, ip: string)
    ensures ScaleTimes(l, Times(events, ip)) == TB.Times(ScaleEvents(l, events), ip)
  {
    if events != [] {
      var n := |events| - 1;
      var before, e := events[..n], events[n];
      ScaleTimesOf(l, before, ip);
      ScaleLast(l, events);
      AnswersSnoc(l.burst, ScaleEvents(l, before), ScaleEvent(l, After(l, before), e), ip);
      ScaleTimesSnoc(l, Times(before, ip), e.at);
    }
  }

  lemma {:induction false} ScaleEventAt(l: Limits, events: seq<Event>, i: nat)
    requires i < |events|
    ensures ScaleEvents(l, events)[i] == ScaleEvent(l, After(l, events[..i]), events[i])
    ensures ScaleEvents(l, events)[..i] == ScaleEvents(l, events[..i])
  {
    var n := |events| - 1;
    if i < n {
      ScaleEventAt(l, events[..n], i);
      assert events[..n][..i] == events[..i];
      assert ScaleEvents(l, events)[..i] == ScaleEvents(l, events)[..n][..i];
    } else {
      assert ScaleEvents(l, events)[..n] == ScaleEvents(l, events[..n]);
    }
  }

  lemma {:induction false} ScaleAt(l: Limits, events: seq<Event>, i: nat)
    requires i < |events|
    ensures ScaleEvents(l, events)[i].at == Clock(l, events[i].at)
  {
    ScaleEventAt(l, events, i);
  }

  lemma {:induction false} ScalePair(l: Limits, events: seq<Event>, i: nat, j: nat)
    requires l.rate >= 0.0 && InOrder(events) && i < j < |events|
    ensures ScaleEvents(l, events)[i].at <= ScaleEvents(l, events)[j].at
  {
    ScaleAt(l, events, i);
    ScaleAt(l, events, j);
    var a, b := events[i].at, events[j].at;
    assert a <= b;
    ClockGrows(l, a, b);
  }

  lemma {:induction false} ScaleInOrder(l: Limits, events: seq<Event>)
    requires l.rate >= 0.0 && InOrder(events)
    ensures TB.EventsInOrder(ScaleEvents(l, events))
  {
    forall i, j | 0 <= i < j < |events|
      ensures ScaleEvents(l, events)[i].at <= ScaleEvents(l, events)[j].at
    {
      ScalePair(l, events, i, j);
    }
  }
}
