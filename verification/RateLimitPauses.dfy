/**
 The rate limiter as requests really use it: a request finds the limiter of its address, gives
 the table's lock back, and asks the limiter later, when the address may have been evicted.
 */
module RateLimitPauses {
  import opened Common
  import TB = TokenBucket
  import opened RateLimit
  import opened RateLimitRuns

  // A limiter, and the address it was made for.
  datatype Own = Own(ip: string, bucket: Bucket)

  datatype Visitor = Visitor(limiter: nat, lastSeen: real)

  // A request that has found its limiter.
  datatype Held = Held(ip: string, limiter: nat, since: real)

  // limiters: all that were ever made; visitors: the table; held: the requests under way.
  datatype State = State(limiters: seq<Own>, visitors: map<string, Visitor>, held: map<int, Held>)

  datatype Action =
    | Find(p: int, ip: string, at: real)
    | Ask(p: int, at: real)
    | Clean(at: real)

  function Gone(s: State, now: real): set<string> {
    set ip | ip in s.visitors && Idle(s.visitors[ip].lastSeen, now)
  }

  function Asked(l: Limits, s: State, limiter: nat, at: real): seq<Own>
    requires limiter < |s.limiters|
  {
    s.limiters[limiter := s.limiters[limiter].(bucket := Take(l, s.limiters[limiter].bucket, at))]
  }

  function Found(l: Limits, s: State, ip: string, at: real): State {
    if ip in s.visitors then s.(visitors := s.visitors[ip := s.visitors[ip].(lastSeen := at)])
    else s.(limiters := s.limiters + [Own(ip, TB.Bucket(l.burst as real, at))],
            visitors := s.visitors[ip := Visitor(|s.limiters|, at)])
  }

  function Do(l: Limits, s: State, a: Action): State {
    match a
    case Find(p, ip, at) =>
      if p in s.held then s
      else
        var t := Found(l, s, ip, at);
        t.(held := s.held[p := Held(ip, t.visitors[ip].limiter, at)])
    case Ask(p, at) =>
      if p in s.held && s.held[p].limiter < |s.limiters|
      then s.(limiters := Asked(l, s, s.held[p].limiter, at), held := s.held - {p})
      else s
    case Clean(at) => s.(visitors := s.visitors - Gone(s, at))
  }

  function Exec(l: Limits, actions: seq<Action>): State {
    if actions == [] then State([], map[], map[])
    else Do(l, Exec(l, actions[..|actions| - 1]), actions[|actions| - 1])
  }

  predicate AsksFor(s: State, a: Action, ip: string) {
    a.Ask? && a.p in s.held && s.held[a.p].ip == ip && s.held[a.p].limiter < |s.limiters|
  }

  predicate Decision(l: Limits, s: State, a: Action)
    requires a.Ask? && a.p in s.held && s.held[a.p].limiter < |s.limiters|
  {
    Grants(l, s.limiters[s.held[a.p].limiter].bucket, a.at)
  }

  // The decisions on the requests of one address, in the order in which they ask.
  function Decisions(l: Limits, actions: seq<Action>, ip: string): seq<bool> {
    if actions == [] then []
    else
      var n := |actions| - 1;
      var s, before := Exec(l, actions[..n]), Decisions(l, actions[..n], ip);
      if AsksFor(s, actions[n], ip) then before + [Decision(l, s, actions[n])] else before
  }

  // Requests that find and ask at once, at the times at which those of the address ask.
  function Asks(l: Limits, actions: seq<Action>, ip: string): seq<Event> {
    if actions == [] then []
    else
      var n := |actions| - 1;
      var s, before := Exec(l, actions[..n]), Asks(l, actions[..n], ip);
      if AsksFor(s, actions[n], ip) then before + [Request(ip, actions[n].at)] else before
  }

  ghost predicate Ordered(actions: seq<Action>) {
    forall i, j | 0 <= i < j < |actions| :: actions[i].at <= actions[j].at
  }

  // No request takes longer than this from finding its limiter to asking it.
  predicate Prompt(s: State, a: Action, pause: real) {
    a.Ask? && a.p in s.held ==> a.at - s.held[a.p].since <= pause
  }

  ghost predicate AllPrompt(l: Limits, actions: seq<Action>, pause: real) {
    forall i | 0 <= i < |actions| :: Prompt(Exec(l, actions[..i]), actions[i], pause)
  }

  // What is left of ten minutes after the pause fills a bucket.
  predicate PauseFills(l: Limits, pause: real) {
    l.burst as real <= Clock(l, if pause < IDLE then IDLE - pause else 0.0)
  }

  // ------------------------------------------------------------------ buckets that answer alike

  predicate Full(l: Limits, b: Bucket, now: real) {
    Level(l, b, now) == l.burst as real
  }

  predicate Alike(l: Limits, b: Bucket, c: Bucket, now: real) {
    b == c || (Full(l, b, now) && Full(l, c, now))
  }

  lemma {:induction false} NoTime(l: Limits)
    ensures Clock(l, 0.0) == 0.0
  {
    assert l.rate * 0.0 == 0.0;
  }

  lemma {:induction false} FullStays(l: Limits, b: Bucket, now: real, later: real)
    requires l.rate >= 0.0 && now <= later && Full(l, b, now)
    ensures Full(l, b, later)
  {
    ClockGrows(l, Elapsed(b, now), Elapsed(b, later));
  }

  lemma {:induction false} AlikeStays(l: Limits, b: Bucket, c: Bucket, now: real, later: real)
    requires l.rate >= 0.0 && now <= later && Alike(l, b, c, now)
    ensures Alike(l, b, c, later)
  {
    if b != c {
      FullStays(l, b, now, later);
      FullStays(l, c, now, later);
    }
  }

  lemma {:induction false} TakeAlike(l: Limits, b: Bucket, c: Bucket, now: real)
    requires Alike(l, b, c, now)
    ensures Grants(l, b, now) == Grants(l, c, now)
    ensures Alike(l, Take(l, b, now), Take(l, c, now), now)
  {
  }

  lemma {:induction false} NewIsFull(l: Limits, now: real)
    ensures Full(l, TB.Bucket(l.burst as real, now), now)
  {
    assert l.rate * 0.0 == 0.0;
  }

  // ------------------------------------------------------------------ what every step keeps

  // Each limiter is used for the address it was made for.
  ghost predicate Sound(s: State) {
    && (forall ip | ip in s.visitors :: s.visitors[ip].limiter < |s.limiters| && s.limiters[s.visitors[ip].limiter].ip == ip)
    && (forall p | p in s.held :: s.held[p].limiter < |s.limiters| && s.limiters[s.held[p].limiter].ip == s.held[p].ip)
  }

  // A request that may still ask holds the limiter that the table has for its address.
  ghost predicate HeldOk(s: State, p: int, pause: real, now: real)
    requires p in s.held
  {
    var h := s.held[p];
    && h.since <= now
    && (now - h.since <= pause ==>
          h.ip in s.visitors && s.visitors[h.ip].limiter == h.limiter && h.since <= s.visitors[h.ip].lastSeen)
  }

  // A limiter in the table was last asked no later than the pause after the address was seen.
  ghost predicate VisitorOk(s: State, ip: string, pause: real, now: real)
    requires ip in s.visitors && s.visitors[ip].limiter < |s.limiters|
  {
    var v, b := s.visitors[ip], s.limiters[s.visitors[ip].limiter].bucket;
    v.lastSeen <= now && b.tokens >= 0.0 && b.last <= now && b.last <= v.lastSeen + pause
  }

  ghost predicate Timely(s: State, pause: real, now: real)
    requires Sound(s)
  {
    && (forall p | p in s.held :: HeldOk(s, p, pause, now))
    && (forall ip | ip in s.visitors :: VisitorOk(s, ip, pause, now))
  }

  lemma {:induction false} StepIsSound(l: Limits, s: State, a: Action)
    requires Sound(s)
    ensures Sound(Do(l, s, a))
  {
  }

  lemma {:induction false} LaterIsTimely(s: State, pause: real, now: real, later: real)
    requires Sound(s) && Timely(s, pause, now) && now <= later
    ensures Timely(s, pause, later)
  {
    assert forall p | p in s.held :: HeldOk(s, p, pause, now);
    assert forall ip | ip in s.visitors :: VisitorOk(s, ip, pause, now);
  }

  lemma {:induction false} FoundIsTimely(l: Limits, s: State, ip: string, pause: real, now: real)
    requires Sound(s) && Timely(s, pause, now) && pause >= 0.0
    ensures Sound(Found(l, s, ip, now)) && Timely(Found(l, s, ip, now), pause, now)
  {
    var t := Found(l, s, ip, now);
    forall p | p in t.held
      ensures HeldOk(t, p, pause, now)
    {
      assert HeldOk(s, p, pause, now);
    }
    forall other | other in t.visitors
      ensures VisitorOk(t, other, pause, now)
    {
      assert other in s.visitors ==> VisitorOk(s, other, pause, now);
    }
  }

  lemma {:induction false} FindIsTimely(l: Limits, s: State, a: Action, pause: real)
    requires Sound(s) && Timely(s, pause, a.at) && pause >= 0.0 && a.Find?
    ensures Sound(Do(l, s, a)) && Timely(Do(l, s, a), pause, a.at)
  {
    var t := Do(l, s, a);
    if t != s {
      var f := Found(l, s, a.ip, a.at);
      FoundIsTimely(l, s, a.ip, pause, a.at);
      forall p | p in t.held
        ensures HeldOk(t, p, pause, a.at)
      {
        assert p != a.p ==> HeldOk(f, p, pause, a.at);
      }
      forall ip | ip in t.visitors
        ensures VisitorOk(t, ip, pause, a.at)
      {
        assert VisitorOk(f, ip, pause, a.at);
      }
    }
  }

  lemma {:induction false} AskIsTimely(l: Limits, s: State, a: Action, pause: real)
    requires Sound(s) && Timely(s, pause, a.at) && Prompt(s, a, pause) && a.Ask?
    ensures Sound(Do(l, s, a)) && Timely(Do(l, s, a), pause, a.at)
  {
    StepIsSound(l, s, a);
    var t := Do(l, s, a);
    if t != s {
      assert HeldOk(s, a.p, pause, a.at);
      assert forall p | p in s.held :: HeldOk(s, p, pause, a.at);
      assert VisitorOk(s, s.held[a.p].ip, pause, a.at);
      TakeOk(l, s.limiters[s.held[a.p].limiter].bucket, a.at);
      forall ip | ip in t.visitors
        ensures VisitorOk(t, ip, pause, a.at)
      {
        assert VisitorOk(s, ip, pause, a.at);
      }
    }
  }

  lemma {:induction false} CleanIsTimely(l: Limits, s: State, a: Action, pause: real)
    requires Sound(s) && Timely(s, pause, a.at) && pause <= IDLE && a.Clean?
    ensures Sound(Do(l, s, a)) && Timely(Do(l, s, a), pause, a.at)
  {
    StepIsSound(l, s, a);
    var t := Do(l, s, a);
    forall p | p in t.held
      ensures HeldOk(t, p, pause, a.at)
    {
      assert HeldOk(s, p, pause, a.at);
    }
    forall ip | ip in t.visitors
      ensures VisitorOk(t, ip, pause, a.at)
    {
      assert VisitorOk(s, ip, pause, a.at);
    }
  }

  lemma {:induction false} StepIsTimely(l: Limits, s: State, a: Action, pause: real)
    requires Sound(s) && Timely(s, pause, a.at) && Prompt(s, a, pause) && 0.0 <= pause <= IDLE
    ensures Sound(Do(l, s, a)) && Timely(Do(l, s, a), pause, a.at)
  {
    match a
    case Find(_, _, _) => FindIsTimely(l, s, a, pause);
    case Ask(_, _) => AskIsTimely(l, s, a, pause);
    case Clean(_) => CleanIsTimely(l, s, a, pause);
  }

  // ------------------------------------------------------------------ as good as one bucket

  // What the limiters remember of an address is as good as the bucket of a table that is asked at
  // once and never cleaned.
  ghost predicate Good(l: Limits, s: State, t: Table, ip: string, now: real)
    requires Sound(s)
  {
    var own := Seen(l, t, ip, now);
    if ip in s.visitors then Alike(l, s.limiters[s.visitors[ip].limiter].bucket, own, now) else Full(l, own, now)
  }

  lemma {:induction false} GoodStays(l: Limits, s: State, t: Table, ip: string, now: real, later: real)
    requires Sound(s) && Good(l, s, t, ip, now) && l.rate >= 0.0 && now <= later
    ensures Good(l, s, t, ip, later)
  {
    var own := Seen(l, t, ip, now);
    NewIsFull(l, now);
    NewIsFull(l, later);
    if ip in s.visitors {
      var b := s.limiters[s.visitors[ip].limiter].bucket;
      AlikeStays(l, b, own, now, later);
      if ip !in t {
        FullStays(l, b, now, later);
      }
    } else if ip in t {
      FullStays(l, own, now, later);
    }
  }

  lemma {:induction false} FindIsGood(l: Limits, s: State, t: Table, ip: string, a: Action)
    requires Sound(s) && Good(l, s, t, ip, a.at) && a.Find?
    ensures Sound(Do(l, s, a)) && Good(l, Do(l, s, a), t, ip, a.at)
  {
    StepIsSound(l, s, a);
    NewIsFull(l, a.at);
  }

  lemma {:induction false} AskIsGood(l: Limits, s: State, t: Table, ip: string, a: Action, pause: real)
    requires Sound(s) && Timely(s, pause, a.at) && Prompt(s, a, pause) && Good(l, s, t, ip, a.at) && a.Ask?
    ensures Sound(Do(l, s, a))
    ensures AsksFor(s, a, ip) ==>
              && Decision(l, s, a) == Grants(l, Seen(l, t, ip, a.at), a.at)
              && Good(l, Do(l, s, a), Step(l, t, Request(ip, a.at)), ip, a.at)
    ensures !AsksFor(s, a, ip) ==> Good(l, Do(l, s, a), t, ip, a.at)
  {
    StepIsSound(l, s, a);
    if AsksFor(s, a, ip) {
      assert HeldOk(s, a.p, pause, a.at);
      TakeAlike(l, s.limiters[s.held[a.p].limiter].bucket, Seen(l, t, ip, a.at), a.at);
    }
  }

  lemma {:induction false} IdleHasFilled(l: Limits, b: Bucket, lastSeen: real, pause: real, now: real)
    requires l.rate >= 0.0 && PauseFills(l, pause) && pause <= IDLE
    requires b.tokens >= 0.0 && b.last <= lastSeen + pause && Idle(lastSeen, now)
    ensures Full(l, b, now)
  {
    assert IDLE - pause <= Elapsed(b, now);
    ClockGrows(l, IDLE - pause, Elapsed(b, now));
  }

  lemma {:induction false} CleanIsGood(l: Limits, s: State, t: Table, ip: string, a: Action, pause: real)
    requires l.rate >= 0.0 && PauseFills(l, pause) && pause <= IDLE
    requires Sound(s) && Timely(s, pause, a.at) && Good(l, s, t, ip, a.at) && a.Clean?
    ensures Sound(Do(l, s, a)) && Good(l, Do(l, s, a), t, ip, a.at)
  {
    StepIsSound(l, s, a);
    if ip in Gone(s, a.at) {
      assert VisitorOk(s, ip, pause, a.at);
      IdleHasFilled(l, s.limiters[s.visitors[ip].limiter].bucket, s.visitors[ip].lastSeen, pause, a.at);
    }
  }

  lemma {:induction false} PrefixIsPrompt(l: Limits, actions: seq<Action>, pause: real)
    requires actions != [] && AllPrompt(l, actions, pause)
    ensures AllPrompt(l, actions[..|actions| - 1], pause)
    ensures Prompt(Exec(l, actions[..|actions| - 1]), actions[|actions| - 1], pause)
  {
    var n := |actions| - 1;
    forall i | 0 <= i < n
      ensures Prompt(Exec(l, actions[..n][..i]), actions[..n][i], pause)
    {
      assert actions[..n][..i] == actions[..i];
    }
  }

  // One step, and the table it is compared with.
  lemma {:induction false} StepIsGood(l: Limits, s: State, t: Table, ip: string, a: Action, pause: real)
    requires l.rate >= 0.0 && PauseFills(l, pause) && 0.0 <= pause <= IDLE
    requires Sound(s) && Timely(s, pause, a.at) && Prompt(s, a, pause) && Good(l, s, t, ip, a.at)
    ensures Sound(Do(l, s, a))
    ensures AsksFor(s, a, ip) ==>
              && Decision(l, s, a) == Grants(l, Seen(l, t, ip, a.at), a.at)
              && Good(l, Do(l, s, a), Step(l, t, Request(ip, a.at)), ip, a.at)
    ensures !AsksFor(s, a, ip) ==> Good(l, Do(l, s, a), t, ip, a.at)
  {
    match a
    case Find(_, _, _) => FindIsGood(l, s, t, ip, a);
    case Ask(_, _) => AskIsGood(l, s, t, ip, a, pause);
    case Clean(_) => CleanIsGood(l, s, t, ip, a, pause);
  }

  lemma {:induction false} RunIsGood(l: Limits, actions: seq<Action>, ip: string, pause: real, now: real)
    requires l.rate >= 0.0 && PauseFills(l, pause) && 0.0 <= pause <= IDLE
    requires Ordered(actions) && AllPrompt(l, actions, pause) && (actions != [] ==> actions[|actions| - 1].at <= now)
    ensures Sound(Exec(l, actions)) && Timely(Exec(l, actions), pause, now)
    ensures Good(l, Exec(l, actions), After(l, Asks(l, actions, ip)), ip, now)
    ensures Decisions(l, actions, ip) == Answers(l, Asks(l, actions, ip), ip)
  {
    if actions == [] {
      NewIsFull(l, now);
    } else {
      var n := |actions| - 1;
      var before, a := actions[..n], actions[n];
      var s, asks := Exec(l, before), Asks(l, before, ip);
      PrefixIsPrompt(l, actions, pause);
      RunIsGood(l, before, ip, pause, a.at);
      StepIsTimely(l, s, a, pause);
      StepIsGood(l, s, After(l, asks), ip, a, pause);
      Snoc(l, asks, Request(ip, a.at), ip);
      LaterIsTimely(Exec(l, actions), pause, a.at, now);
      GoodStays(l, Exec(l, actions), After(l, Asks(l, actions, ip)), ip, a.at, now);
    }
  }

  ghost predicate Allowed(l: Limits, actions: seq<Action>, pause: real) {
    Ordered(actions) && AllPrompt(l, actions, pause)
  }

  /** Requests that ask within the pause get the decisions of a bucket of their own, asked at the
      same times and never evicted, when what is left of ten minutes fills a bucket. */
  lemma {:induction false} PausesUnobservable(l: Limits, actions: seq<Action>, ip: string, pause: real)
    requires l.rate >= 0.0 && PauseFills(l, pause) && 0.0 <= pause <= IDLE && Allowed(l, actions, pause)
    ensures Decisions(l, actions, ip) == Answers(l, Asks(l, actions, ip), ip)
  {
    RunIsGood(l, actions, ip, pause, if actions == [] then 0.0 else actions[|actions| - 1].at);
  }

  lemma {:induction false} AsksAreInOrder(l: Limits, actions: seq<Action>, ip: string)
    requires Ordered(actions)
    ensures var e := Asks(l, actions, ip);
            && InOrder(e)
            && forall i | 0 <= i < |e| :: e[i].Request? && e[i].ip == ip && e[i].at <= actions[|actions| - 1].at
    ensures actions == [] ==> Asks(l, actions, ip) == []
  {
    if actions != [] {
      AsksAreInOrder(l, actions[..|actions| - 1], ip);
    }
  }

  /** So in any window, whatever is evicted between finding and asking, at most the burst plus the
      rate times the window's length are let through. */
  lemma {:induction false} PausedWindowBound(l: Limits, actions: seq<Action>, ip: string, pause: real, i: nat, j: nat)
    requires l.rate >= 0.0 && PauseFills(l, pause) && 0.0 <= pause <= IDLE && Allowed(l, actions, pause)
    requires i < j <= |Times(Asks(l, actions, ip), ip)|
    ensures |Decisions(l, actions, ip)| == |Times(Asks(l, actions, ip), ip)|
    ensures var times := Times(Asks(l, actions, ip), ip);
            TB.Count(Decisions(l, actions, ip)[i..j]) as real <= l.burst as real + Earned(l, times[i], times[j - 1])
  {
    PausesUnobservable(l, actions, ip, pause);
    AsksAreInOrder(l, actions, ip);
    WindowBound(l, Asks(l, actions, ip), ip, i, j);
  }

  // ------------------------------------------------------------------ longer pauses

  function Last(actions: seq<Action>): real {
    if actions == [] then 0.0 else actions[|actions| - 1].at
  }

  lemma {:induction false} OneMoreAction(l: Limits, actions: seq<Action>, a: Action, ip: string)
    ensures Exec(l, actions + [a]) == Do(l, Exec(l, actions), a)
    ensures var s := Exec(l, actions);
            && Decisions(l, actions + [a], ip)
               == Decisions(l, actions, ip) + (if AsksFor(s, a, ip) then [Decision(l, s, a)] else [])
            && Asks(l, actions + [a], ip)
               == Asks(l, actions, ip) + (if AsksFor(s, a, ip) then [Request(ip, a.at)] else [])
  {
    assert (actions + [a])[..|actions|] == actions;
  }

  lemma {:induction false} OneMoreAllowed(l: Limits, actions: seq<Action>, a: Action, pause: real)
    requires Allowed(l, actions, pause) && (actions != [] ==> Last(actions) <= a.at) && Prompt(Exec(l, actions), a, pause)
    ensures Allowed(l, actions + [a], pause) && Last(actions + [a]) == a.at
  {
    var more, n := actions + [a], |actions|;
    forall i | 0 <= i < |more|
      ensures Prompt(Exec(l, more[..i]), more[i], pause)
      ensures i < n ==> more[i].at <= a.at
    {
      assert i <= n && more[..i] == actions[..i];
      assert i == n ==> actions[..n] == actions;
    }
  }

  // A burst: n requests of a new address find its limiter at one time, and k of them have asked
  // it, at one time.
  function InBurst(s: State, ip: string, find: real, b: Bucket, k: nat, n: nat): State {
    var m := |s.limiters|;
    State(s.limiters + [Own(ip, b)], s.visitors[ip := Visitor(m, find)],
          map j | j in Span(k, n) :: Held(ip, m, find))
  }

  function Spent(l: Limits, find: real, ask: real, k: nat): Bucket
    requires k <= l.burst
  {
    if k == 0 then TB.Bucket(l.burst as real, find) else TB.Bucket((l.burst - k) as real, ask)
  }

  function Finds(ip: string, find: real, n: nat): seq<Action> {
    if n == 0 then [] else Finds(ip, find, n - 1) + [Find(n - 1, ip, find)]
  }

  function AskAll(ask: real, k: nat): seq<Action> {
    if k == 0 then [] else AskAll(ask, k - 1) + [Ask(k - 1, ask)]
  }

  lemma {:induction false} FindOnce(l: Limits, s: State, ip: string, find: real, n: nat)
    ensures n == 0 && ip !in s.visitors && s.held == map[] ==>
              Do(l, s, Find(0, ip, find)) == InBurst(s, ip, find, TB.Bucket(l.burst as real, find), 0, 1)
    ensures var b := TB.Bucket(l.burst as real, find);
            Do(l, InBurst(s, ip, find, b, 0, n), Find(n, ip, find)) == InBurst(s, ip, find, b, 0, n + 1)
  {
    assert Span(0, n + 1) == Span(0, n) + {n};
  }

  // Whether the run reached this state, and what it has decided for the address.
  ghost predicate Reached(l: Limits, before: seq<Action>, actions: seq<Action>, s: State, ip: string, ask: real, k: nat,
                          pause: real)
  {
    && Exec(l, actions) == s && Allowed(l, actions, pause)
    && Decisions(l, actions, ip) == Decisions(l, before, ip) + AllGranted(k)
    && Asks(l, actions, ip) == Asks(l, before, ip) + Requests(ip, ask, k)
  }

  lemma {:induction false} ReachMore(l: Limits, before: seq<Action>, actions: seq<Action>, s: State, a: Action, ip: string,
                                     ask: real, k: nat, pause: real)
    requires Reached(l, before, actions, s, ip, ask, k, pause)
    requires (actions != [] ==> Last(actions) <= a.at) && Prompt(s, a, pause)
    requires AsksFor(s, a, ip) ==> a.at == ask && Decision(l, s, a)
    ensures Reached(l, before, actions + [a], Do(l, s, a), ip, ask, if AsksFor(s, a, ip) then k + 1 else k, pause)
    ensures Last(actions + [a]) == a.at
  {
    OneMoreAction(l, actions, a, ip);
    OneMoreAllowed(l, actions, a, pause);
    if AsksFor(s, a, ip) {
      AllGrantedSnoc(k);
      RequestsSnoc(Asks(l, before, ip), ip, ask, k + 1);
    }
  }

  lemma {:induction false} AtFirst(l: Limits, before: seq<Action>, ip: string, ask: real, pause: real)
    requires Allowed(l, before, pause)
    ensures Reached(l, before, before, Exec(l, before), ip, ask, 0, pause)
  {
    assert AllGranted(0) == [] && Requests(ip, ask, 0) == [];
  }

  lemma {:induction false} AllFind(l: Limits, before: seq<Action>, ip: string, find: real, ask: real, n: nat, pause: real)
    requires n > 0 && Allowed(l, before, pause) && (before != [] ==> Last(before) <= find)
    requires ip !in Exec(l, before).visitors && Exec(l, before).held == map[]
    ensures Reached(l, before, before + Finds(ip, find, n),
                    InBurst(Exec(l, before), ip, find, Spent(l, find, ask, 0), 0, n), ip, ask, 0, pause)
    ensures Last(before + Finds(ip, find, n)) == find
  {
    hide Reached, Allowed, InBurst;
    var s, so, a := Exec(l, before), before + Finds(ip, find, n - 1), Find(n - 1, ip, find);
    FindOnce(l, s, ip, find, n - 1);
    if n > 1 {
      AllFind(l, before, ip, find, ask, n - 1, pause);
      ReachMore(l, before, so, InBurst(s, ip, find, Spent(l, find, ask, 0), 0, n - 1), a, ip, ask, 0, pause);
    } else {
      assert so == before;
      AtFirst(l, before, ip, ask, pause);
      ReachMore(l, before, so, s, a, ip, ask, 0, pause);
    }
    assert so + [a] == before + Finds(ip, find, n);
  }

  lemma {:induction false} SpendOnce(l: Limits, find: real, ask: real, k: nat)
    requires l.rate >= 0.0 && find <= ask && k < l.burst
    ensures Grants(l, Spent(l, find, ask, k), ask)
    ensures Take(l, Spent(l, find, ask, k), ask) == Spent(l, find, ask, k + 1)
  {
    ClockGrows(l, 0.0, ask - find);
    NoTime(l);
  }

  lemma {:induction false} AskOnce(l: Limits, s: State, ip: string, find: real, ask: real, k: nat, n: nat)
    requires l.rate >= 0.0 && find <= ask && k < n <= l.burst
    ensures var t := InBurst(s, ip, find, Spent(l, find, ask, k), k, n);
            && AsksFor(t, Ask(k, ask), ip) && Decision(l, t, Ask(k, ask))
            && Do(l, t, Ask(k, ask)) == InBurst(s, ip, find, Spent(l, find, ask, k + 1), k + 1, n)
            && t.held[k].since == find
  {
    SpendOnce(l, find, ask, k);
  }

  lemma {:induction false} AllAsk(l: Limits, before: seq<Action>, ip: string, find: real, ask: real, k: nat, n: nat, pause: real)
    requires l.rate >= 0.0 && k <= n <= l.burst && n > 0 && find <= ask <= find + pause
    requires Allowed(l, before, pause) && (before != [] ==> Last(before) <= find)
    requires ip !in Exec(l, before).visitors && Exec(l, before).held == map[]
    ensures Reached(l, before, before + Finds(ip, find, n) + AskAll(ask, k),
                    InBurst(Exec(l, before), ip, find, Spent(l, find, ask, k), k, n), ip, ask, k, pause)
    ensures Last(before + Finds(ip, find, n) + AskAll(ask, k)) <= ask
  {
    hide Reached, Allowed, InBurst;
    var s, finds := Exec(l, before), before + Finds(ip, find, n);
    if k == 0 {
      AllFind(l, before, ip, find, ask, n, pause);
      assert finds + AskAll(ask, 0) == finds;
    } else {
      var so, t, a := finds + AskAll(ask, k - 1), InBurst(s, ip, find, Spent(l, find, ask, k - 1), k - 1, n), Ask(k - 1, ask);
      AllAsk(l, before, ip, find, ask, k - 1, n, pause);
      AskOnce(l, s, ip, find, ask, k - 1, n);
      ReachMore(l, before, so, t, a, ip, ask, k - 1, pause);
      assert so + [a] == finds + AskAll(ask, k);
    }
  }

  // A time after the idle time at which a bucket emptied at the end of the pause is not full again.
  lemma {:induction false} PickLate(l: Limits, pause: real) returns (s: real)
    requires l.rate >= 0.0 && 0.0 <= pause <= IDLE && !PauseFills(l, pause)
    ensures s > IDLE && Earned(l, pause, s) < l.burst as real && l.burst > 0
  {
    ClockGrows(l, 0.0, IDLE - pause);
    NoTime(l);
    if l.rate == 0.0 {
      s := IDLE + 1.0;
    } else {
      var full := l.burst as real / l.rate;
      assert Clock(l, full) == l.burst as real;
      if full <= IDLE - pause {
        ClockGrows(l, full, IDLE - pause);
        assert false;
      }
      s := pause + (IDLE - pause + full) / 2.0;
      Halfway(l, IDLE - pause, full);
    }
  }

  lemma {:induction false} Halfway(l: Limits, a: real, b: real)
    ensures Clock(l, (a + b) / 2.0) == (Clock(l, a) + Clock(l, b)) / 2.0
  {
  }

  // Find the limiter in time for one burst and ask it as late as possible; stay away until the
  // address is evicted, and come back.
  function LateBurst(l: Limits, ip: string, pause: real): seq<Action> {
    [] + Finds(ip, 0.0, l.burst) + AskAll(pause, l.burst)
  }

  function LateComeback(l: Limits, ip: string, pause: real, s: real): seq<Action> {
    LateBurst(l, ip, pause) + [Clean(s)] + Finds(ip, s, l.burst) + AskAll(s, l.burst)
  }

  lemma {:induction false} Nothing(l: Limits, ip: string, pause: real)
    ensures Exec(l, []) == State([], map[], map[]) && Allowed(l, [], pause)
    ensures Decisions(l, [], ip) == [] && Asks(l, [], ip) == []
  {
  }

  lemma {:induction false} LateBurstIs(l: Limits, ip: string, pause: real, s: real)
    requires l.rate >= 0.0 && l.burst > 0 && 0.0 <= pause <= IDLE < s
    ensures var mid := LateBurst(l, ip, pause) + [Clean(s)];
            && Exec(l, mid).visitors == map[] && Exec(l, mid).held == map[] && Allowed(l, mid, pause) && Last(mid) == s
            && Decisions(l, mid, ip) == AllGranted(l.burst) && Asks(l, mid, ip) == Requests(ip, pause, l.burst)
  {
    var n, first := l.burst, LateBurst(l, ip, pause);
    var t := InBurst(State([], map[], map[]), ip, 0.0, Spent(l, 0.0, pause, n), n, n);
    assert Gone(t, s) == {ip} && t.held == map[];
    hide Exec, Decisions, Asks, Allowed, InBurst;
    Nothing(l, ip, pause);
    AllAsk(l, [], ip, 0.0, pause, n, n, pause);
    OneMoreAction(l, first, Clean(s), ip);
    OneMoreAllowed(l, first, Clean(s), pause);
  }

  lemma {:induction false} LateComebackIs(l: Limits, ip: string, pause: real, s: real)
    requires l.rate >= 0.0 && l.burst > 0 && 0.0 <= pause <= IDLE < s
    ensures var actions := LateComeback(l, ip, pause, s);
            && Allowed(l, actions, pause) && Decisions(l, actions, ip) == AllGranted(2 * l.burst)
            && Asks(l, actions, ip) == Requests(ip, pause, l.burst) + Requests(ip, s, l.burst)
  {
    hide Allowed, Exec, Decisions, Asks, LateBurst, InBurst;
    var n, mid := l.burst, LateBurst(l, ip, pause) + [Clean(s)];
    LateBurstIs(l, ip, pause, s);
    AllAsk(l, mid, ip, s, s, n, n, pause);
    assert AllGranted(n) + AllGranted(n) == AllGranted(2 * n);
  }

  lemma {:induction false} TwoBursts(l: Limits, ip: string, pause: real, s: real, n: nat)
    ensures Times(Requests(ip, pause, n) + Requests(ip, s, n), ip) == Copies(pause, n) + Copies(s, n)
  {
    assert [] + Requests(ip, pause, n) == Requests(ip, pause, n);
    BurstTimes(l, [], ip, pause, n);
    BurstTimes(l, Requests(ip, pause, n), ip, s, n);
  }

  lemma {:induction false} PausesObservable(l: Limits, ip: string, pause: real) returns (actions: seq<Action>)
    requires l.rate >= 0.0 && 0.0 <= pause <= IDLE && !PauseFills(l, pause)
    ensures Allowed(l, actions, pause) && Decisions(l, actions, ip) != Answers(l, Asks(l, actions, ip), ip)
  {
    var s := PickLate(l, pause);
    var n := 2 * l.burst;
    actions := LateComeback(l, ip, pause, s);
    LateComebackIs(l, ip, pause, s);
    TwoBursts(l, ip, pause, s, l.burst);
    var asks := Asks(l, actions, ip);
    AsksAreInOrder(l, actions, ip);
    WindowBound(l, asks, ip, 0, n);
    assert Answers(l, asks, ip)[0..n] == Answers(l, asks, ip);
    CountAll(n);
  }

  // In no run whose requests pause at most this long, and for no address, can evictions be seen.
  ghost predicate NeverSeen(l: Limits, pause: real) {
    forall actions, ip | Allowed(l, actions, pause) :: Decisions(l, actions, ip) == Answers(l, Asks(l, actions, ip), ip)
  }

  // With a burst of nothing, nobody gets through.
  lemma {:induction false} NobodyGranted(l: Limits, actions: seq<Action>, ip: string)
    requires l.burst == 0
    ensures Decisions(l, actions, ip) == Answers(l, Asks(l, actions, ip), ip)
  {
    hide Exec, Level;
    if actions != [] {
      var n := |actions| - 1;
      var s, asks := Exec(l, actions[..n]), Asks(l, actions[..n], ip);
      NobodyGranted(l, actions[..n], ip);
      if AsksFor(s, actions[n], ip) {
        Snoc(l, asks, Request(ip, actions[n].at), ip);
        Refused(l, s.limiters[s.held[actions[n].p].limiter].bucket, actions[n].at);
        Refused(l, Seen(l, After(l, asks), ip, actions[n].at), actions[n].at);
      }
    }
  }

  lemma {:induction false} Refused(l: Limits, b: Bucket, now: real)
    requires l.burst == 0
    ensures !Grants(l, b, now)
  {
  }

  lemma {:induction false} LongerPauses(l: Limits, pause: real)
    requires l.rate >= 0.0 && pause > IDLE
    ensures NeverSeen(l, pause) <==> l.burst == 0
  {
    if l.burst == 0 {
      forall actions, ip | Allowed(l, actions, pause)
        ensures Decisions(l, actions, ip) == Answers(l, Asks(l, actions, ip), ip)
      {
        NobodyGranted(l, actions, ip);
      }
    } else {
      NoTime(l);
      var actions := PausesObservable(l, "192.0.2.1", IDLE);
      assert forall i | 0 <= i < |actions| :: Prompt(Exec(l, actions[..i]), actions[i], IDLE);
      assert Allowed(l, actions, pause);
    }
  }

  /** Evictions are invisible to requests that pause exactly when the bucket fills in what the
      pause leaves of ten minutes. */
  lemma {:induction false} PausesUnobservableExactly(l: Limits, pause: real)
    requires l.rate >= 0.0 && pause >= 0.0
    ensures NeverSeen(l, pause) <==> PauseFills(l, pause)
  {
    if pause > IDLE {
      LongerPauses(l, pause);
      NoTime(l);
    } else if PauseFills(l, pause) {
      forall actions, ip | Allowed(l, actions, pause)
        ensures Decisions(l, actions, ip) == Answers(l, Asks(l, actions, ip), ip)
      {
        PausesUnobservable(l, actions, ip, pause);
      }
    } else {
      var actions := PausesObservable(l, "192.0.2.1", pause);
    }
  }

  /** With the limits main.go installs, a request may pause for 597 seconds, and no longer. */
  lemma {:induction false} InstalledPause(pause: real)
    requires pause >= 0.0
    ensures NeverSeen(INSTALLED, pause) <==> pause <= 597.0
  {
    PausesUnobservableExactly(INSTALLED, pause);
    assert Clock(INSTALLED, IDLE - pause) == 10.0 * (600.0 - pause);
    NoTime(INSTALLED);
  }
}
