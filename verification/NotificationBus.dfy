/**
 The bus as the code keeps it: a map from users to Go slices, which are arrays with spare
 room at the end, appended to and shifted in place. Channels are named by numbers.
 */
module NotificationBus {
  import opened Common
  import opened Bus

  // A Go slice that starts at the front of its backing array; its capacity is the array's length.
  datatype Slice = Slice(arr: array<int>, len: nat)

  ghost predicate Fits(subs: map<string, Slice>) {
    && (forall u | u in subs :: subs[u].len <= subs[u].arr.Length)
    // no two users share a backing array
    && (forall u, v | u in subs && v in subs && u != v :: subs[u].arr != subs[v].arr)
  }

  ghost function Arrays(subs: map<string, Slice>): set<object> {
    set u | u in subs :: subs[u].arr as object
  }

  ghost function Elems(s: Slice): seq<int>
    requires s.len <= s.arr.Length
    reads s.arr
  {
    s.arr[..s.len]
  }

  ghost function SubsOf(subs: map<string, Slice>): map<string, seq<int>>
    requires Fits(subs)
    reads Arrays(subs)
  {
    map u | u in subs :: Elems(subs[u])
  }

  // append(s, ch): in place when there is room, else in a new array of twice the capacity.
  method Append(s: Slice, ch: int) returns (r: Slice)
    requires s.len <= s.arr.Length
    modifies s.arr
    ensures r.len <= r.arr.Length && Elems(r) == old(Elems(s)) + [ch]
    ensures r.arr == s.arr || (fresh(r.arr) && unchanged(s.arr))
  {
    if s.len < s.arr.Length {
      s.arr[s.len] := ch;
      r := Slice(s.arr, s.len + 1);
    } else {
      var arr := new int[2 * s.arr.Length + 1];
      for i := 0 to s.len
        invariant arr[..i] == s.arr[..i]
        invariant unchanged(s.arr)
      {
        arr[i] := s.arr[i];
      }
      arr[s.len] := ch;
      r := Slice(arr, s.len + 1);
    }
  }

  // append(s[:i], s[i+1:]...): the elements after i move down one place in the same array.
  method RemoveAt(s: Slice, i: nat) returns (r: Slice)
    requires i < s.len <= s.arr.Length
    modifies s.arr
    ensures r.arr == s.arr && r.len == s.len - 1
    ensures Elems(r) == old(Elems(s))[..i] + old(Elems(s))[i + 1..]
  {
    for k := i to s.len - 1
      invariant forall j | 0 <= j < i :: s.arr[j] == old(s.arr[j])
      invariant forall j | i <= j < k :: s.arr[j] == old(s.arr[j + 1])
      invariant forall j | k <= j < s.arr.Length :: s.arr[j] == old(s.arr[j])
    {
      s.arr[k] := s.arr[k + 1];
    }
    r := Slice(s.arr, s.len - 1);
    ghost var left := old(Elems(s))[..i] + old(Elems(s))[i + 1..];
    assert |Elems(r)| == |left|;
    assert forall j | 0 <= j < |left| :: Elems(r)[j] == left[j];
  }

  // The search of unsubscribe.
  method IndexOf(s: Slice, ch: int) returns (i: nat)
    requires s.len <= s.arr.Length
    ensures i == Find(Elems(s), ch)
  {
    i := 0;
    while i < s.len && s.arr[i] != ch
      invariant i <= s.len && forall k | 0 <= k < i :: Elems(s)[k] != ch
    {
      i := i + 1;
    }
    assert i < s.len ==> Elems(s)[i] == ch;
  }

  // What Subscribe does to the map: the channel goes to the end of its user's slice.
  method AppendFor(subs: map<string, Slice>, user: string, ch: int) returns (r: map<string, Slice>)
    requires Fits(subs)
    modifies Arrays(subs)
    ensures Fits(r) && fresh(Arrays(r) - Arrays(subs))
    ensures SubsOf(r)
            == old(SubsOf(subs))[user := (if user in subs then old(SubsOf(subs))[user] else []) + [ch]]
  {
    var slice;
    if user in subs {
      slice := Append(subs[user], ch);
    } else {
      slice := Single(ch);
    }
    r := subs[user := slice];
    forall u | u in subs && u != user
      ensures Elems(subs[u]) == old(Elems(subs[u]))
    {
      assert user in subs ==> subs[u].arr != subs[user].arr;
    }
  }

  // An append to a nil slice.
  method Single(ch: int) returns (r: Slice)
    ensures r.len <= r.arr.Length && fresh(r.arr) && Elems(r) == [] + [ch]
  {
    var arr := new int[1][ch];
    r := Slice(arr, 1);
  }

  // What unsubscribe does to the map: entry i of the user's slice is shifted out in place.
  method RemoveFor(subs: map<string, Slice>, user: string, i: nat) returns (r: map<string, Slice>)
    requires Fits(subs) && user in subs && i < subs[user].len
    modifies subs[user].arr
    ensures Fits(r) && r.Keys == subs.Keys && forall u | u in subs :: r[u].arr == subs[u].arr
    ensures SubsOf(r) == old(SubsOf(subs))[user := Removed(old(SubsOf(subs))[user], i)]
  {
    var slice := RemoveAt(subs[user], i);
    r := subs[user := slice];
    forall u | u in subs && u != user
      ensures Elems(subs[u]) == old(Elems(subs[u]))
    {
    }
  }

  lemma {:induction false} SubscribeIs<N>(s: State<N>, user: string, ch: int)
    requires ch !in s.chans
    ensures Do(s, Action.Subscribe(ch, user))
            == s.(chans := s.chans[ch := Chan(user, [], [], 0, [])],
                  subs := s.subs[user := (if user in s.subs then s.subs[user] else []) + [ch]])
  {
  }

  lemma {:induction false} CancelIs<N>(s: State<N>, user: string, ch: int)
    ensures var i := Find(Subs(s, user), ch);
            Do(s, Cancel(user, ch))
            == if i == |Subs(s, user)| then s else Closed(s.(subs := s.subs[user := Removed(s.subs[user], i)]), ch)
  {
  }

  class NotificationBus<N> {
    var subscribers: map<string, Slice>
    var chans: map<int, Chan<N>>
    var panicked: bool

    ghost predicate Valid()
      reads this
    {
      Fits(subscribers)
    }

    ghost function View(): State<N>
      requires Valid()
      reads this, Arrays(subscribers)
    {
      State(SubsOf(subscribers), chans, panicked)
    }

    constructor ()
      ensures Valid() && View() == Exec<N>([])
    {
      subscribers := map[];
      chans := map[];
      panicked := false;
    }

    // ch is the channel that make returns: a new one.
    method Subscribe(user: string, ch: int)
      requires Valid() && ch !in chans
      modifies this, Arrays(subscribers)
      ensures Valid() && fresh(Arrays(subscribers) - old(Arrays(subscribers)))
      ensures View() == Do(old(View()), Action.Subscribe(ch, user))
    {
      hide Do;
      SubscribeIs(View(), user, ch);
      chans := chans[ch := Chan(user, [], [], 0, [])];
      subscribers := AppendFor(subscribers, user, ch);
    }

    method Publish(user: string, item: N)
      requires Valid()
      modifies this`chans, this`panicked
      ensures Valid() && View() == Do(old(View()), Action.Publish(user, item))
    {
      if user !in subscribers {
        return;
      }
      chans, panicked := SendToAll(View(), subscribers[user], item);
    }

    method Unsubscribe(user: string, ch: int)
      requires Valid()
      modifies this, Arrays(subscribers)
      ensures Valid() && subscribers.Keys == old(subscribers).Keys
      ensures forall u | u in subscribers :: subscribers[u].arr == old(subscribers)[u].arr
      ensures View() == Do(old(View()), Cancel(user, ch))
    {
      hide Closed, Removed;
      CancelIs(View(), user, ch);
      if user !in subscribers {
        return;
      }
      var slice := subscribers[user];
      var i := IndexOf(slice, ch);
      assert Elems(slice) == Subs(View(), user);
      hide Elems;
      if i < slice.len {
        Shift(user, i);
        Close(ch);
      }
    }

    method Shift(user: string, i: nat)
      requires Valid() && user in subscribers && i < subscribers[user].len
      modifies this`subscribers, Arrays(subscribers)
      ensures Valid() && subscribers.Keys == old(subscribers).Keys
      ensures forall u | u in subscribers :: subscribers[u].arr == old(subscribers)[u].arr
      ensures View() == old(View()).(subs := old(View()).subs[user := Removed(old(View()).subs[user], i)])
    {
      hide Elems, Removed;
      var shorter := RemoveFor(subscribers, user, i);
      ghost var left := SubsOf(shorter);
      subscribers := shorter;
      assert SubsOf(subscribers) == left;
    }

    // Closing a channel that is closed already panics.
    method Close(ch: int)
      requires Valid()
      modifies this`chans, this`panicked
      ensures Valid() && View() == Closed(old(View()), ch)
    {
      if ch in chans {
        panicked := panicked || chans[ch].closes > 0;
        chans := chans[ch := chans[ch].(closes := chans[ch].closes + 1)];
      }
    }

    // The loop of Publish: a non-blocking send to each subscriber in turn.
    method SendToAll(ghost s: State<N>, slice: Slice, item: N) returns (chans': map<int, Chan<N>>, panicked': bool)
      requires slice.len <= slice.arr.Length && s.chans == chans && s.panicked == panicked
      ensures State(s.subs, chans', panicked') == SendAll(s, Elems(slice), item)
    {
      chans', panicked' := chans, panicked;
      ghost var chs := Elems(slice);
      for i := 0 to slice.len
        invariant State(s.subs, chans', panicked') == SendAll(s, chs[..i], item)
      {
        assert chs[..i + 1][..i] == chs[..i];
        var ch := slice.arr[i];
        if ch in chans' {
          if chans'[ch].closes > 0 {
            panicked' := true;
          } else {
            chans' := chans'[ch := Sent(chans'[ch], item)];
          }
        }
      }
      assert chs[..slice.len] == chs;
    }
  }
}
