/**
 A token bucket on a clock that counts the tokens earned, so that a token is refilled at
 each tick, and a table of such buckets from which full ones may be dropped.
 RateLimit.dfy maps the limiter, whose clock counts seconds, to this one.
 */
module TokenBucket {

  datatype Bucket = Bucket(tokens: real, last: real)

  // The tokens at hand: refilled since the last grant, at most the burst.
  function Level(burst: nat, b: Bucket, now: real): real {
    var tokens := b.tokens + if now < b.last then 0.0 else now - b.last;
    if tokens > burst as real then burst as real else tokens
  }

  predicate Grants(burst: nat, b: Bucket, now: real) {
    Level(burst, b, now) >= 1.0
  }

  // A grant takes one token, a refusal leaves the bucket alone.
  function Take(burst: nat, b: Bucket, now: real): Bucket {
    if Grants(burst, b, now) then Bucket(Level(burst, b, now) - 1.0, now) else b
  }

  // ------------------------------------------------------------------ one bucket, never dropped

  function Solo(burst: nat, times: seq<real>): Bucket {
    if times == [] then Bucket(burst as real, 0.0)
    else Take(burst, Solo(burst, times[..|times| - 1]), times[|times| - 1])
  }

  function SoloGrants(burst: nat, times: seq<real>): (r: seq<bool>)
    ensures |r| == |times|
  {
    if times == [] then []
    else
      var n := |times| - 1;
      SoloGrants(burst, times[..n]) + [Grants(burst, Solo(burst, times[..n]), times[n])]
  }

  ghost predicate InOrder(times: seq<real>) {
    forall i, j | 0 <= i < j < |times| :: times[i] <= times[j]
  }

  // From time now on, the bucket is full.
  predicate FullAt(burst: nat, b: Bucket, now: real) {
    Level(burst, b, now) == burst as real
  }

  function Count(grants: seq<bool>): nat {
    if grants == [] then 0
    else Count(grants[..|grants| - 1]) + if grants[|grants| - 1] then 1 else 0
  }

  lemma {:induction false} SoloNotNegative(burst: nat, times: seq<real>)
    ensures Solo(burst, times).tokens >= 0.0
  {
    if times != [] {
      SoloNotNegative(burst, times[..|times| - 1]);
    }
  }

  lemma {:induction false} SoloGrantAt(burst: nat, times: seq<real>, i: nat)
    requires i < |times|
    ensures SoloGrants(burst, times)[i] == Grants(burst, Solo(burst, times[..i]), times[i])
  {
    var n := |times| - 1;
    if i < n {
      SoloGrantAt(burst, times[..n], i);
      assert times[..n][..i] == times[..i];
    }
  }

  // One request spends a token or nothing.
  lemma {:induction false} SpendsOne(burst: nat, b: Bucket, now: real, later: real)
    requires now <= later
    ensures (if Grants(burst, b, now) then 1.0 else 0.0) + Level(burst, Take(burst, b, now), later)
            <= Level(burst, b, now) + (later - now)
  {
  }

  lemma {:induction false} CountSnoc(grants: seq<bool>, i: nat, n: nat)
    requires i <= n < |grants|
    ensures Count(grants[i..n + 1]) == Count(grants[i..n]) + if grants[n] then 1 else 0
  {
    assert grants[i..n + 1][..n - i] == grants[i..n];
  }

  lemma {:induction false} SoloSnoc(burst: nat, times: seq<real>, n: nat)
    requires n < |times|
    ensures Solo(burst, times[..n + 1]) == Take(burst, Solo(burst, times[..n]), times[n])
  {
    assert times[..n + 1][..n] == times[..n];
  }

  // Requests i .. n spend what was there at the first one, plus what was refilled since.
  lemma {:induction false} Spending(burst: nat, times: seq<real>, i: nat, n: nat)
    requires InOrder(times) && i <= n < |times|
    ensures Count(SoloGrants(burst, times)[i..n + 1]) as real + Level(burst, Solo(burst, times[..n + 1]), times[n])
            <= Level(burst, Solo(burst, times[..i]), times[i]) + (times[n] - times[i])
    decreases n
  {
    SoloGrantAt(burst, times, n);
    CountSnoc(SoloGrants(burst, times), i, n);
    SoloSnoc(burst, times, n);
    SpendsOne(burst, Solo(burst, times[..n]), times[n], times[n]);
    if i < n {
      Spending(burst, times, i, n - 1);
      Earns(burst, Solo(burst, times[..n]), times[n - 1], times[n]);
    } else {
      assert SoloGrants(burst, times)[i..n] == [];
    }
  }

  lemma {:induction false} Earns(burst: nat, b: Bucket, now: real, later: real)
    requires now <= later
    ensures Level(burst, b, later) <= Level(burst, b, now) + (later - now)
  {
  }

  /** In any window, at most the burst plus the tokens earned in the window get through. */
  lemma {:induction false} SoloWindow(burst: nat, times: seq<real>, i: nat, j: nat)
    requires InOrder(times) && i < j <= |times|
    ensures Count(SoloGrants(burst, times)[i..j]) as real <= burst as real + (times[j - 1] - times[i])
  {
    Spending(burst, times, i, j - 1);
    SoloNotNegative(burst, times[..j]);
  }

  // ------------------------------------------------------------------ a table of buckets

  datatype Event =
    | Request(ip: string, at: real)
    | Drop(ips: set<string>, at: real)

  type Table = map<string, Bucket>

  function Seen(burst: nat, t: Table, ip: string, now: real): Bucket {
    if ip in t then t[ip] else Bucket(burst as real, now)
  }

  function Step(burst: nat, t: Table, e: Event): Table {
    match e
    case Request(ip, at) => t[ip := Take(burst, Seen(burst, t, ip, at), at)]
    case Drop(ips, _) => t - ips
  }

  function After(burst: nat, events: seq<Event>): Table {
    if events == [] then map[]
    else Step(burst, After(burst, events[..|events| - 1]), events[|events| - 1])
  }

  // The answers given to one address, in order.
  function Answers(burst: nat, events: seq<Event>, ip: string): seq<bool> {
    if events == [] then []
    else
      var n := |events| - 1;
      var before, e := Answers(burst, events[..n], ip), events[n];
      if e.Request? && e.ip == ip
      then before + [Grants(burst, Seen(burst, After(burst, events[..n]), ip, e.at), e.at)]
      else before
  }

  // The times at which one address made its requests.
  function Times(events: seq<Event>, ip: string): seq<real> {
    if events == [] then []
    else
      var n := |events| - 1;
      var before, e := Times(events[..n], ip), events[n];
      if e.Request? && e.ip == ip then before + [e.at] else before
  }

  ghost predicate EventsInOrder(events: seq<Event>) {
    forall i, j | 0 <= i < j < |events| :: events[i].at <= events[j].at
  }

  // Only full buckets are dropped.
  ghost predicate DropsFull(burst: nat, events: seq<Event>, i: nat)
    requires i < |events|
  {
    var e, t := events[i], After(burst, events[..i]);
    e.Drop? ==> forall ip | ip in e.ips && ip in t :: FullAt(burst, t[ip], e.at)
  }

  // Two buckets give the same answers from time now on.
  ghost predicate Alike(burst: nat, b: Bucket, c: Bucket, now: real) {
    b == c || (FullAt(burst, b, now) && FullAt(burst, c, now))
  }

  // What the table t remembers of an address is as good as the bucket own.
  ghost predicate AsGood(burst: nat, t: Table, own: Bucket, ip: string, now: real) {
    if ip in t then Alike(burst, t[ip], own, now) else FullAt(burst, own, now)
  }

  lemma {:induction false} RequestIsFaithful(burst: nat, t: Table, own: Bucket, ip: string, at: real, now: real)
    requires AsGood(burst, t, own, ip, at) && at <= now
    ensures Grants(burst, Seen(burst, t, ip, at), at) == Grants(burst, own, at)
    ensures AsGood(burst, t[ip := Take(burst, Seen(burst, t, ip, at), at)], Take(burst, own, at), ip, now)
  {
  }

  lemma {:induction false} DropIsFaithful(burst: nat, t: Table, own: Bucket, ip: string, ips: set<string>, at: real, now: real)
    requires AsGood(burst, t, own, ip, at) && at <= now
    requires ip in ips && ip in t ==> FullAt(burst, t[ip], at)
    ensures AsGood(burst, t - ips, own, ip, now)
  {
  }

  lemma {:induction false} StaysFaithful(burst: nat, events: seq<Event>, ip: string, now: real)
    requires EventsInOrder(events) && (events != [] ==> events[|events| - 1].at <= now)
    requires forall i | 0 <= i < |events| :: DropsFull(burst, events, i)
    ensures AsGood(burst, After(burst, events), Solo(burst, Times(events, ip)), ip, now)
    ensures Answers(burst, events, ip) == SoloGrants(burst, Times(events, ip))
  {
    if events != [] {
      var n := |events| - 1;
      var before, e := events[..n], events[n];
      PrefixDropsFull(burst, events, n);
      StaysFaithful(burst, before, ip, e.at);
      var t, own := After(burst, before), Solo(burst, Times(before, ip));
      assert DropsFull(burst, events, n);
      match e
      case Request(other, at) =>
        if other == ip {
          RequestIsFaithful(burst, t, own, ip, at, now);
          var times := Times(events, ip);
          assert times[..|times| - 1] == Times(before, ip);
        } else {
          DropIsFaithful(burst, t, own, ip, {}, at, now);
        }
      case Drop(ips, at) =>
        DropIsFaithful(burst, t, own, ip, ips, at, now);
    }
  }

  lemma {:induction false} PrefixDropsFull(burst: nat, events: seq<Event>, n: nat)
    requires n <= |events| && forall i | 0 <= i < |events| :: DropsFull(burst, events, i)
    ensures forall i | 0 <= i < n :: DropsFull(burst, events[..n], i)
  {
    forall i | 0 <= i < n
      ensures DropsFull(burst, events[..n], i)
    {
      assert DropsFull(burst, events, i);
      assert events[..n][..i] == events[..i];
    }
  }
}
