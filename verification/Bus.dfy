/**
 The notification bus (service/notificationBus.go) as a state machine, and what holds over
 every run of it. NotificationBus.dfy proves that the code's slices and channels step it.
 */
module Bus {
  import opened Common

  const CAPACITY := 32

  // One publication offered to a channel: what, and how much was buffered at the time.
  datatype Offer<N> = Offer(item: N, buffered: nat)

  // A channel: its owner, its buffer, what was received from it, and how often it was closed.
  // offers is its history.
  datatype Chan<N> = Chan(user: string, buf: seq<N>, got: seq<N>, closes: nat, offers: seq<Offer<N>>)

  // panicked: something was sent to a closed channel, or a closed channel closed again.
  datatype State<N> = State(subs: map<string, seq<int>>, chans: map<int, Chan<N>>, panicked: bool)

  datatype Action<N> =
    | Subscribe(ch: int, user: string)
    | Publish(user: string, item: N)
    | Receive(ch: int)
    | Cancel(user: string, ch: int)

  function Subs<N>(s: State<N>, user: string): seq<int> {
    if user in s.subs then s.subs[user] else []
  }

  // A select with a default: sends if there is room.
  function Sent<N>(c: Chan<N>, item: N): Chan<N> {
    c.(buf := if |c.buf| < CAPACITY then c.buf + [item] else c.buf,
       offers := c.offers + [Offer(item, |c.buf|)])
  }

  function SendAll<N>(s: State<N>, chs: seq<int>, item: N): State<N> {
    if chs == [] then s
    else
      var t, ch := SendAll(s, chs[..|chs| - 1], item), chs[|chs| - 1];
      if ch !in t.chans then t
      else if t.chans[ch].closes > 0 then t.(panicked := true)
      else t.(chans := t.chans[ch := Sent(t.chans[ch], item)])
  }

  // Where ch stands among the subscribers, or their number.
  function Find(chs: seq<int>, ch: int): (i: nat)
    ensures i <= |chs|
    ensures i < |chs| ==> chs[i] == ch
    ensures forall k | 0 <= k < i :: chs[k] != ch
  {
    if chs == [] then 0 else if chs[0] == ch then 0 else 1 + Find(chs[1..], ch)
  }

  function Removed(chs: seq<int>, i: int): seq<int> {
    if 0 <= i < |chs| then chs[..i] + chs[i + 1..] else chs
  }

  function Closed<N>(s: State<N>, ch: int): State<N> {
    if ch !in s.chans then s
    else
      s.(chans := s.chans[ch := s.chans[ch].(closes := s.chans[ch].closes + 1)],
         panicked := s.panicked || s.chans[ch].closes > 0)
  }

  function Do<N>(s: State<N>, a: Action<N>): State<N> {
    match a
    case Subscribe(ch, user) =>
      // make(chan) never returns a channel that exists
      if ch in s.chans then s
      else s.(chans := s.chans[ch := Chan(user, [], [], 0, [])], subs := s.subs[user := Subs(s, user) + [ch]])
    case Publish(user, item) => SendAll(s, Subs(s, user), item)
    case Receive(ch) =>
      if ch in s.chans && s.chans[ch].buf != [] then
        var c := s.chans[ch];
        s.(chans := s.chans[ch := c.(buf := c.buf[1..], got := c.got + [c.buf[0]])])
      else s
    case Cancel(user, ch) =>
      var subs := Subs(s, user);
      var i := Find(subs, ch);
      if i == |subs| then s
      else Closed(s.(subs := s.subs[user := Removed(subs, i)]), ch)
  }

  function Exec<N>(actions: seq<Action<N>>): State<N> {
    if actions == [] then State(map[], map[], false)
    else Do(Exec(actions[..|actions| - 1]), actions[|actions| - 1])
  }

  // ------------------------------------------------------------------ registered iff open

  // Every subscriber of a user is a channel of that user, open, and registered once.
  ghost predicate Registered<N>(s: State<N>, user: string) {
    && NoRepeats(Subs(s, user))
    && forall ch | ch in Subs(s, user) :: ch in s.chans && s.chans[ch].user == user
  }

  ghost predicate ChanOk<N>(s: State<N>, ch: int)
    requires ch in s.chans
  {
    var c := s.chans[ch];
    && c.closes <= 1
    && (c.closes == 0 <==> ch in Subs(s, c.user))
    && |c.buf| <= CAPACITY
    && c.got + c.buf == Kept(c.offers)
    && (forall i | 0 <= i < |c.offers| :: c.offers[i].buffered <= CAPACITY)
  }

  // What is kept of the offers: those made when fewer than 32 were buffered, in order.
  function Kept<N>(offers: seq<Offer<N>>): seq<N> {
    if offers == [] then []
    else
      var o := offers[|offers| - 1];
      Kept(offers[..|offers| - 1]) + if o.buffered < CAPACITY then [o.item] else []
  }

  ghost predicate Ok<N>(s: State<N>) {
    && !s.panicked
    && (forall user :: Registered(s, user))
    && (forall ch | ch in s.chans :: ChanOk(s, ch))
  }

  // ------------------------------------------------------------------ publishing

  lemma {:induction false} SendAllIs<N>(s: State<N>, chs: seq<int>, item: N)
    requires NoRepeats(chs) && forall ch | ch in chs :: ch in s.chans && s.chans[ch].closes == 0
    ensures var t := SendAll(s, chs, item);
            && t.subs == s.subs && t.panicked == s.panicked && t.chans.Keys == s.chans.Keys
            && forall ch | ch in s.chans :: t.chans[ch] == if ch in chs then Sent(s.chans[ch], item) else s.chans[ch]
  {
    if chs != [] {
      var n := |chs| - 1;
      SendAllIs(s, chs[..n], item);
      assert chs[n] !in chs[..n];
    }
  }

  lemma {:induction false} PublishKeepsOk<N>(s: State<N>, user: string, item: N)
    requires Ok(s)
    ensures Ok(SendAll(s, Subs(s, user), item))
  {
    var t := SendAll(s, Subs(s, user), item);
    assert Registered(s, user);
    forall ch | ch in Subs(s, user)
      ensures s.chans[ch].closes == 0
    {
      assert ChanOk(s, ch);
    }
    SendAllIs(s, Subs(s, user), item);
    forall u
      ensures Registered(t, u)
    {
      assert Registered(s, u);
    }
    forall ch | ch in t.chans
      ensures ChanOk(t, ch)
    {
      assert ChanOk(s, ch);
      if ch in Subs(s, user) {
        SentKeepsOk(s, t, ch, item);
      }
    }
  }

  lemma {:induction false} SentKeepsOk<N>(s: State<N>, t: State<N>, ch: int, item: N)
    requires ch in s.chans && ChanOk(s, ch)
    requires t.subs == s.subs && ch in t.chans && t.chans[ch] == Sent(s.chans[ch], item)
    ensures ChanOk(t, ch)
  {
    var offers := t.chans[ch].offers;
    assert offers[..|offers| - 1] == s.chans[ch].offers;
  }

  // ------------------------------------------------------------------ the other steps

  lemma {:induction false} SubscribeKeepsOk<N>(s: State<N>, ch: int, user: string)
    requires Ok(s)
    ensures Ok(Do(s, Subscribe(ch, user)))
  {
    var t := Do(s, Subscribe(ch, user));
    forall u
      ensures Registered(t, u)
    {
      assert Registered(s, u);
    }
    forall c | c in t.chans
      ensures ChanOk(t, c)
    {
      assert c in s.chans ==> ChanOk(s, c);
    }
  }

  lemma {:induction false} ReceiveKeepsOk<N>(s: State<N>, ch: int)
    requires Ok(s)
    ensures Ok(Do(s, Receive(ch)))
  {
    var t := Do(s, Receive(ch));
    forall u
      ensures Registered(t, u)
    {
      assert Registered(s, u);
    }
    forall c | c in t.chans
      ensures ChanOk(t, c)
    {
      assert ChanOk(s, c);
      if c == ch && s.chans[c].buf != [] {
        var got, buf := s.chans[c].got, s.chans[c].buf;
        assert got + [buf[0]] + buf[1..] == got + buf;
      }
    }
  }

  lemma {:induction false} Without(subs: seq<int>, i: nat)
    requires NoRepeats(subs) && i < |subs|
    ensures NoRepeats(subs[..i] + subs[i + 1..])
    ensures forall ch :: ch in subs[..i] + subs[i + 1..] <==> ch in subs && ch != subs[i]
  {
    var r := subs[..i] + subs[i + 1..];
    forall k | 0 <= k < |subs| && k != i
      ensures subs[k] in r
    {
      assert r[if k < i then k else k - 1] == subs[k];
    }
    forall k | 0 <= k < |r|
      ensures r[k] in subs && r[k] != subs[i]
    {
      assert r[k] == subs[if k < i then k else k + 1];
    }
  }

  lemma {:induction false} CancelKeepsOk<N>(s: State<N>, user: string, ch: int)
    requires Ok(s)
    ensures Ok(Do(s, Cancel(user, ch)))
  {
    var t, subs := Do(s, Cancel(user, ch)), Subs(s, user);
    var i := Find(subs, ch);
    assert Registered(s, user);
    if i < |subs| {
      Without(subs, i);
      assert ChanOk(s, ch);
      forall u
        ensures Registered(t, u)
      {
        assert Registered(s, u);
      }
      forall c | c in t.chans
        ensures ChanOk(t, c)
      {
        assert ChanOk(s, c);
      }
    }
  }

  /** Over every run: nothing is sent to a closed channel and no channel is closed twice; a
      channel is registered exactly while it is open; at most 32 items are buffered; and what a
      subscriber received, followed by what it has buffered, is what it was offered less the
      items offered when 32 were already buffered. */
  lemma {:induction false} RunsAreOk<N>(actions: seq<Action<N>>)
    ensures Ok(Exec(actions))
  {
    if actions != [] {
      var s, a := Exec(actions[..|actions| - 1]), actions[|actions| - 1];
      RunsAreOk(actions[..|actions| - 1]);
      match a
      case Subscribe(ch, user) => SubscribeKeepsOk(s, ch, user);
      case Publish(user, item) => PublishKeepsOk(s, user, item);
      case Receive(ch) => ReceiveKeepsOk(s, ch);
      case Cancel(user, ch) => CancelKeepsOk(s, user, ch);
    }
  }

  // ------------------------------------------------------------------ what a subscriber gets

  function Items<N>(offers: seq<Offer<N>>): seq<N> {
    if offers == [] then [] else Items(offers[..|offers| - 1]) + [offers[|offers| - 1].item]
  }

  // What was published to the owner of ch, after ch was subscribed and until it was cancelled.
  function PublishedSince<N>(actions: seq<Action<N>>, ch: int): seq<N> {
    if actions == [] then []
    else
      var before, a := actions[..|actions| - 1], actions[|actions| - 1];
      var s := Exec(before);
      if a.Publish? && ch in s.chans && s.chans[ch].user == a.user && s.chans[ch].closes == 0
      then PublishedSince(before, ch) + [a.item]
      else PublishedSince(before, ch)
  }

  ghost predicate Subsequence<N>(a: seq<N>, b: seq<N>) {
    a == [] || (b != [] && (Subsequence(a, b[..|b| - 1])
                            || (a[|a| - 1] == b[|b| - 1] && Subsequence(a[..|a| - 1], b[..|b| - 1]))))
  }

  lemma {:induction false} KeptIsSubsequence<N>(offers: seq<Offer<N>>)
    ensures Subsequence(Kept(offers), Items(offers))
  {
    if offers != [] {
      var n := |offers| - 1;
      KeptIsSubsequence(offers[..n]);
      var kept, items := Kept(offers), Items(offers);
      assert items[..|items| - 1] == Items(offers[..n]);
      if offers[n].buffered < CAPACITY {
        assert kept[..|kept| - 1] == Kept(offers[..n]);
        assert kept[|kept| - 1] == items[|items| - 1];
      } else {
        assert kept == Kept(offers[..n]);
      }
    }
  }

  // The step of one channel.
  lemma {:induction false} ChannelStep<N>(s: State<N>, a: Action<N>, ch: int)
    requires Ok(s) && ch in s.chans
    ensures var t, c := Do(s, a), s.chans[ch];
            && ch in t.chans
            && (if a.Publish? && a.user == c.user && c.closes == 0 then t.chans[ch] == Sent(c, a.item)
                else t.chans[ch].offers == c.offers && t.chans[ch].user == c.user)
            && (a.Publish? && a.user != c.user ==> t.chans[ch] == c)
            && t.chans[ch].closes >= c.closes
  {
    assert ChanOk(s, ch);
    if a.Publish? {
      assert Registered(s, a.user);
      forall other | other in Subs(s, a.user)
        ensures s.chans[other].closes == 0
      {
        assert ChanOk(s, other);
      }
      SendAllIs(s, Subs(s, a.user), a.item);
    }
  }

  /** A subscriber is offered exactly what is published to its user while it is subscribed, in
      order, and gets an ordered subsequence of it. */
  lemma {:induction false} OffersArePublications<N>(actions: seq<Action<N>>, ch: int)
    ensures var s := Exec(actions);
            if ch in s.chans
            then
              var c := s.chans[ch];
              Items(c.offers) == PublishedSince(actions, ch) && Subsequence(c.got + c.buf, PublishedSince(actions, ch))
            else PublishedSince(actions, ch) == []
  {
    if actions != [] {
      var before, a := actions[..|actions| - 1], actions[|actions| - 1];
      var s, t := Exec(before), Exec(actions);
      OffersArePublications(before, ch);
      RunsAreOk(before);
      RunsAreOk(actions);
      if ch in s.chans {
        ChannelStep(s, a, ch);
        var offers := t.chans[ch].offers;
        if offers != s.chans[ch].offers {
          assert offers[..|offers| - 1] == s.chans[ch].offers;
        }
      } else if a.Publish? {
        NoNewChannel(s, Subs(s, a.user), a.item, ch);
      }
      if ch in t.chans {
        assert ChanOk(t, ch);
        KeptIsSubsequence(t.chans[ch].offers);
      }
    }
  }

  lemma {:induction false} NoNewChannel<N>(s: State<N>, chs: seq<int>, item: N, ch: int)
    requires ch !in s.chans
    ensures ch !in SendAll(s, chs, item).chans
  {
    if chs != [] {
      NoNewChannel(s, chs[..|chs| - 1], item, ch);
    }
  }

  /** Publishing to one user leaves the channels of all other users as they are. */
  lemma {:induction false} OthersUntouched<N>(actions: seq<Action<N>>, user: string, item: N, ch: int)
    requires ch in Exec(actions).chans && Exec(actions).chans[ch].user != user
    ensures ch in Do(Exec(actions), Publish(user, item)).chans
    ensures Do(Exec(actions), Publish(user, item)).chans[ch] == Exec(actions).chans[ch]
  {
    RunsAreOk(actions);
    ChannelStep(Exec(actions), Publish(user, item), ch);
  }

  lemma {:induction false} ExecSnoc<N>(actions: seq<Action<N>>, a: Action<N>)
    ensures Exec(actions + [a]) == Do(Exec(actions), a)
  {
    assert (actions + [a])[..|actions|] == actions;
  }

  lemma {:induction false} StaysClosed<N>(before: seq<Action<N>>, after: seq<Action<N>>, ch: int)
    requires ch in Exec(before).chans && Exec(before).chans[ch].closes > 0
    ensures ch in Exec(before + after).chans && Exec(before + after).chans[ch].closes > 0
  {
    if after == [] {
      assert before + after == before;
    } else {
      var n := |after| - 1;
      var all := before + after;
      StaysClosed(before, after[..n], ch);
      ClosedStep(before + after[..n], after[n], ch);
      ExecSnoc(before + after[..n], after[n]);
      assert all == before + after[..n] + [after[n]];
    }
  }

  lemma {:induction false} ClosedStep<N>(actions: seq<Action<N>>, a: Action<N>, ch: int)
    requires ch in Exec(actions).chans && Exec(actions).chans[ch].closes > 0
    ensures ch in Do(Exec(actions), a).chans && Do(Exec(actions), a).chans[ch].closes > 0
  {
    RunsAreOk(actions);
    ChannelStep(Exec(actions), a, ch);
  }

  /** Cancelling again, at any later time, does nothing. */
  lemma {:induction false} CancelTwice<N>(before: seq<Action<N>>, after: seq<Action<N>>, user: string, ch: int)
    requires ch in Subs(Exec(before), user)
    ensures var s := Exec(before + [Cancel(user, ch)] + after); Do(s, Cancel(user, ch)) == s
  {
    var cancelled := before + [Cancel(user, ch)];
    var s := Exec(cancelled + after);
    assert cancelled[..|before|] == before;
    RunsAreOk(before);
    assert Registered(Exec(before), user);
    StaysClosed(cancelled, after, ch);
    RunsAreOk(cancelled + after);
    assert ChanOk(s, ch) && Registered(s, user);
  }
}
