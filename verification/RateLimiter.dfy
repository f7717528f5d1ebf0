/**
 The limiter as the code keeps it: a map from addresses to visitors on the heap, each with a
 limiter of its own, which requests ask after they gave the lock of the map back. Its methods
 are proved to be the steps of RateLimitPauses.dfy.
 */
module RateLimiter {
  import TB = TokenBucket
  import opened RateLimit
  import P = RateLimitPauses

  // ip, id: the address it was made for, and how many were made before it.
  class Limiter {
    const limits: Limits
    ghost const ip: string
    ghost const id: nat
    var tokens: real
    var last: real

    constructor (l: Limits, ghost ip: string, ghost id: nat, now: real)
      ensures limits == l && this.ip == ip && this.id == id && State() == TB.Bucket(l.burst as real, now)
    {
      limits := l;
      this.ip := ip;
      this.id := id;
      tokens := l.burst as real;
      last := now;
    }

    ghost function State(): Bucket
      reads this
    {
      TB.Bucket(tokens, last)
    }

    method Allow(now: real) returns (ok: bool)
      modifies this
      ensures ok == Grants(limits, old(State()), now)
      ensures State() == Take(limits, old(State()), now)
    {
      var elapsed := if now < last then 0.0 else now - last;
      var have := tokens + Clock(limits, elapsed);
      if have > limits.burst as real {
        have := limits.burst as real;
      }
      ok := have >= 1.0;
      if ok {
        tokens := have - 1.0;
        last := now;
      }
    }
  }

  class Visitor {
    const limiter: Limiter
    var lastSeen: real

    constructor (limiter: Limiter, now: real)
      ensures this.limiter == limiter && lastSeen == now
    {
      this.limiter := limiter;
      lastSeen := now;
    }
  }

  // made lists the limiters by number.
  ghost predicate Numbered(l: Limits, made: seq<Limiter>) {
    forall i | 0 <= i < |made| :: made[i].id == i && made[i].limits == l
  }

  ghost predicate IsMade(made: seq<Limiter>, limiter: Limiter) {
    limiter.id < |made| && made[limiter.id] == limiter
  }

  // No two addresses share a visitor, and each has a limiter of its own.
  ghost predicate Separate(made: seq<Limiter>, visitors: map<string, Visitor>) {
    && (forall ip | ip in visitors :: IsMade(made, visitors[ip].limiter) && visitors[ip].limiter.ip == ip)
    && (forall ip, other | ip in visitors && other in visitors && ip != other :: visitors[ip] != visitors[other])
  }

  ghost function Owned(made: seq<Limiter>): (r: seq<P.Own>)
    reads made
    ensures |r| == |made|
  {
    seq(|made|, i requires 0 <= i < |made| reads made => P.Own(made[i].ip, made[i].State()))
  }

  ghost function TableOf(visitors: map<string, Visitor>): map<string, P.Visitor>
    reads visitors.Values
  {
    map ip | ip in visitors :: P.Visitor(visitors[ip].limiter.id, visitors[ip].lastSeen)
  }

  class IPRateLimiter {
    const limits: Limits
    var visitors: map<string, Visitor>
    ghost var made: seq<Limiter>
    ghost var held: map<int, P.Held>

    ghost predicate Valid()
      reads this
    {
      && Numbered(limits, made) && Separate(made, visitors)
      && forall p | p in held :: held[p].limiter < |made|
    }

    ghost function View(): P.State
      reads this, made, visitors.Values
    {
      P.State(Owned(made), TableOf(visitors), held)
    }

    constructor (rate: real, burst: nat)
      ensures Valid() && limits == Limits(rate, burst) && View() == P.Exec(limits, [])
    {
      limits := Limits(rate, burst);
      visitors := map[];
      made, held := [], map[];
    }

    // Finds or makes the limiter of an address, and marks the address as seen. p: the request.
    method GetLimiter(ghost p: int, ip: string, now: real) returns (limiter: Limiter)
      requires Valid() && p !in held
      modifies this, visitors.Values
      ensures Valid() && fresh(visitors.Values - old(visitors.Values))
      ensures View() == P.Do(limits, old(View()), P.Find(p, ip, now))
      ensures p in held && IsMade(made, limiter) && held[p].limiter == limiter.id
    {
      hide Separate, Numbered, Owned, TableOf;
      EntryIs(visitors, ip);
      if ip !in visitors {
        MakeVisitor(ip, now);
        EntryIs(visitors, ip);
      }
      OwnVisitor(made, visitors, ip);
      MarkSeen(visitors, ip, now);
      limiter := visitors[ip].limiter;
      assert View() == P.Found(limits, old(View()), ip, now);
      held := held[p := P.Held(ip, limiter.id, now)];
    }

    method MakeVisitor(ip: string, now: real)
      requires Valid() && ip !in visitors
      modifies this`visitors, this`made
      ensures Valid() && ip in visitors && fresh(visitors[ip]) && visitors == old(visitors)[ip := visitors[ip]]
      ensures Owned(made) == old(Owned(made)) + [P.Own(ip, TB.Bucket(limits.burst as real, now))]
      ensures TableOf(visitors) == old(TableOf(visitors))[ip := P.Visitor(|old(made)|, now)]
    {
      hide Owned, TableOf;
      var limiter := new Limiter(limits, ip, |made|, now);
      var v := new Visitor(limiter, now);
      OneMoreMade(made, limiter);
      OneMoreVisitor(visitors, ip, v);
      visitors, made := visitors[ip := v], made + [limiter];
    }

    // The decision of Middleware on a request that has found its limiter.
    method Ask(ghost p: int, limiter: Limiter, now: real) returns (ok: bool)
      requires Valid() && p in held && IsMade(made, limiter) && held[p].limiter == limiter.id
      modifies this`held, limiter
      ensures Valid()
      ensures ok == P.Decision(limits, old(View()), P.Action.Ask(p, now))
      ensures View() == P.Do(limits, old(View()), P.Action.Ask(p, now))
    {
      ok := limiter.Allow(now);
      held := held - {p};
    }

    // One round of cleanupLoop.
    method Cleanup(now: real)
      requires Valid()
      modifies this`visitors
      ensures Valid()
      ensures visitors == old(visitors) - P.Gone(old(View()), now)
      ensures View() == P.Do(limits, old(View()), P.Clean(now))
    {
      hide Separate, Numbered, Owned, TableOf, P.Gone;
      ghost var gone := P.Gone(View(), now);
      GoneIs(View(), visitors, now);
      LeftAre(made, visitors, gone);
      visitors := DeleteStale(visitors, gone, now);
    }
  }

  method MarkSeen(visitors: map<string, Visitor>, ip: string, now: real)
    requires ip in visitors && forall other | other in visitors && other != ip :: visitors[other] != visitors[ip]
    modifies visitors[ip]
    ensures TableOf(visitors) == old(TableOf(visitors))[ip := P.Visitor(visitors[ip].limiter.id, now)]
  {
    visitors[ip].lastSeen := now;
  }

  lemma {:induction false} OneMoreMade(made: seq<Limiter>, limiter: Limiter)
    ensures Owned(made + [limiter]) == Owned(made) + [P.Own(limiter.ip, limiter.State())]
  {
  }

  lemma {:induction false} OneMoreVisitor(visitors: map<string, Visitor>, ip: string, v: Visitor)
    ensures TableOf(visitors[ip := v]) == TableOf(visitors)[ip := P.Visitor(v.limiter.id, v.lastSeen)]
  {
  }

  lemma {:induction false} EntryIs(visitors: map<string, Visitor>, ip: string)
    ensures ip in TableOf(visitors) <==> ip in visitors
    ensures ip in visitors ==> TableOf(visitors)[ip].limiter == visitors[ip].limiter.id
  {
  }

  lemma {:induction false} OwnVisitor(made: seq<Limiter>, visitors: map<string, Visitor>, ip: string)
    requires Separate(made, visitors) && ip in visitors
    ensures IsMade(made, visitors[ip].limiter)
    ensures forall other | other in visitors && other != ip :: visitors[other] != visitors[ip]
  {
  }

  lemma {:induction false} GoneIs(s: P.State, visitors: map<string, Visitor>, now: real)
    requires s.visitors == TableOf(visitors)
    ensures forall ip | ip in visitors :: Idle(visitors[ip].lastSeen, now) <==> ip in P.Gone(s, now)
  {
  }

  lemma {:induction false} LeftAre(made: seq<Limiter>, visitors: map<string, Visitor>, gone: set<string>)
    requires Separate(made, visitors)
    ensures Separate(made, visitors - gone)
    ensures TableOf(visitors - gone) == TableOf(visitors) - gone
  {
  }

  // Deletes the visitors not seen for ten minutes, one by one.
  method DeleteStale(visitors: map<string, Visitor>, ghost stale: set<string>, now: real)
    returns (kept: map<string, Visitor>)
    requires forall ip | ip in visitors :: Idle(visitors[ip].lastSeen, now) <==> ip in stale
    ensures kept == visitors - stale
  {
    kept := visitors;
    var left := visitors.Keys;
    while left != {}
      invariant left <= visitors.Keys
      invariant kept == visitors - (stale - left)
      decreases |left|
    {
      var ip :| ip in left;
      StillThere(visitors, stale, left, ip);
      left := left - {ip};
      if Idle(kept[ip].lastSeen, now) {
        kept := kept - {ip};
      }
    }
    assert stale - left == stale;
  }

  // What the entry that the loop comes to next does to the map.
  lemma {:induction false} StillThere<V>(visitors: map<string, V>, stale: set<string>, left: set<string>, ip: string)
    requires ip in left && ip in visitors
    ensures var kept := visitors - (stale - left);
            && ip in kept && kept[ip] == visitors[ip]
            && visitors - (stale - (left - {ip})) == if ip in stale then kept - {ip} else kept
  {
  }
}
