/** The WebSocket hub: shared pollers per subscription key, subscribers with
    bounded queues. Every method body runs under the locks the program takes,
    so the methods are the atomic steps; between the channel operations of one
    delivery only the subscriber's own writer can act, by receiving. */
module Hub {
  import opened Market

  type Message = string
  type Key = string

  // ---------- queues ----------

  /** a can be made from b by dropping elements. */
  ghost predicate Subsequence<T>(a: seq<T>, b: seq<T>)
    decreases |b|
  {
    || |a| == 0
    || (|b| > 0 && a[|a| - 1] == b[|b| - 1] && Subsequence(a[..|a| - 1], b[..|b| - 1]))
    || (|b| > 0 && Subsequence(a, b[..|b| - 1]))
  }

  lemma SubsequenceBoth<T>(a: seq<T>, b: seq<T>, x: T)
    requires Subsequence(a, b)
    ensures Subsequence(a + [x], b + [x])
  {
  }

  lemma {:induction false} SubsequenceDrop<T>(a: seq<T>, b: seq<T>, i: nat)
    requires Subsequence(a, b) && i < |a|
    ensures Subsequence(a[..i] + a[i + 1..], b)
    decreases |b|
  {
    var c, b' := a[..i] + a[i + 1..], b[..|b| - 1];
    if a[|a| - 1] == b[|b| - 1] && Subsequence(a[..|a| - 1], b') {
      if i == |a| - 1 {
        assert c == a[..|a| - 1];
      } else {
        SubsequenceDrop(a[..|a| - 1], b', i);
        assert c[..|c| - 1] == a[..|a| - 1][..i] + a[..|a| - 1][i + 1..];
      }
    } else {
      SubsequenceDrop(a, b', i);
    }
  }

  lemma SliceAgain<T>(q: seq<T>, i: nat, j: nat)
    requires i + j <= |q|
    ensures q[i..][j..] == q[i + j..]
  {
  }

  /** One connected client's outbound queue. sent, taken and lost record what the
      hub delivered, what the client's writer received and what was evicted. */
  class Subscriber {
    const id: nat
    const capacity: nat
    var queue: seq<Message>
    var dropped: nat
    var closed: bool
    ghost var sent: seq<Message>
    ghost var taken: seq<Message>
    ghost var lost: nat

    constructor (id: nat, capacity: nat)
      requires capacity > 0
      ensures this.id == id && this.capacity == capacity && queue == [] && !closed && dropped == 0 && sent == [] && Valid()
    {
      this.id, this.capacity := id, capacity;
      queue, dropped, closed, sent, taken, lost := [], 0, false, [], [], 0;
    }

    /** Nothing is duplicated or reordered; every message is received, queued or
        lost; the newest is last. */
    ghost predicate Balanced()
      reads this
    {
      && capacity > 0 && |queue| <= capacity
      && |sent| == |taken| + |queue| + lost
      && Subsequence(taken + queue, sent)
      && (queue != [] ==> queue[|queue| - 1] == sent[|sent| - 1])
    }

    /** Losses never exceed the counter. */
    ghost predicate Valid()
      reads this
    {
      Balanced() && lost <= dropped
    }

    /** The writer takes the oldest queued message, if there is one. */
    method Receive() returns (m: Option<Message>)
      requires Balanced()
      modifies this`queue, this`taken
      ensures Balanced()
      ensures old(queue) == [] ==> m == None && queue == [] && taken == old(taken)
      ensures old(queue) != [] ==> m == Some(old(queue)[0]) && queue == old(queue)[1..] && taken == old(taken) + [old(queue)[0]]
    {
      if |queue| == 0 { return None; }
      m := Some(queue[0]);
      assert taken + queue == (taken + [queue[0]]) + queue[1..];
      taken, queue := taken + [queue[0]], queue[1..];
    }

    method ReceiveSome(n: nat) returns (ghost k: nat)
      requires Balanced()
      modifies this`queue, this`taken
      ensures Balanced() && k <= old(|queue|) && queue == old(queue)[k..]
    {
      k := 0;
      for i := 0 to n
        invariant Balanced() && 0 <= k <= old(|queue|) && queue == old(queue)[k..]
      {
        if queue != [] { k := k + 1; }
        var _ := Receive();
      }
    }

    method Enqueue(m: Message)
      requires Balanced() && |queue| < capacity && !closed
      modifies this`queue, this`sent
      ensures Balanced() && queue == old(queue) + [m] && sent == old(sent) + [m]
    {
      SubsequenceBoth(taken + queue, sent, m);
      assert (taken + queue) + [m] == taken + (queue + [m]);
      queue, sent := queue + [m], sent + [m];
    }

    method Evict()
      requires Balanced() && queue != []
      modifies this`queue, this`lost
      ensures Balanced() && queue == old(queue)[1..] && lost == old(lost) + 1
    {
      SubsequenceDrop(taken + queue, sent, |taken|);
      assert (taken + queue)[..|taken|] + (taken + queue)[|taken| + 1..] == taken + queue[1..];
      queue, lost := queue[1..], lost + 1;
    }

    /** Makes room in a full queue while the writer may be taking messages. */
    method MakeRoom(between: nat, after: nat) returns (ghost k: nat)
      requires Balanced() && |queue| == capacity
      modifies this`queue, this`taken, this`lost
      ensures Balanced() && 0 < k <= old(|queue|) && queue == old(queue)[k..] && lost <= old(lost) + 1
    {
      hide Balanced, Subsequence;
      HasCapacity();
      ghost var q := queue;
      k := ReceiveSome(between);
      if |queue| > 0 {
        Evict();
        SliceAgain(q, k, 1);
        k := k + 1;
      }
      ghost var j := ReceiveSome(after);
      SliceAgain(q, k, j);
      k := k + j;
    }

    lemma HasCapacity()
      requires Balanced()
      ensures capacity > 0
    {
    }

    /** Non-blocking delivery to a live subscriber. However many messages the
        writer takes between the channel operations, the message always gets in
        behind what is left of the queue, and the counter goes up exactly when
        the queue was full. */
    method Deliver(m: Message, between: nat, after: nat) returns (ghost k: nat)
      requires Valid() && !closed
      modifies this`queue, this`dropped, this`sent, this`taken, this`lost
      ensures Valid() && sent == old(sent) + [m]
      ensures k <= old(|queue|) && queue == old(queue)[k..] + [m]
      ensures if old(|queue|) < capacity then k == 0 && dropped == old(dropped) && lost == old(lost)
              else dropped == old(dropped) + 1 && lost <= old(lost) + 1
    {
      k := 0;
      if |queue| < capacity {
        Enqueue(m);
      } else {
        k := MakeRoom(between, after);
        Enqueue(m);
        dropped := dropped + 1;
      }
    }
  }

  // ---------- who sits where ----------

  /** One shared poller: its key, its subscribers' ids and the last message, kept
      for late joiners. The poller runs until cancelled. */
  datatype Topic = Topic(key: Key, members: set<nat>, last: Option<Message>, cancelled: bool)

  /** pool holds every topic ever created, home the topic that each live
      subscriber's release function has captured. */
  datatype Seating = Seating(topics: map<Key, nat>, pool: map<nat, Topic>, home: map<nat, nat>)

  /** The registered topic of a key, created with its poller when there is none. */
  function Opened(s: Seating, key: Key, fresh_: nat): Seating {
    if key in s.topics then s
    else s.(topics := s.topics[key := fresh_], pool := s.pool[fresh_ := Topic(key, {}, None, false)])
  }

  function Joined(s: Seating, n: nat, id: nat): Seating
    requires n in s.pool
  {
    s.(pool := s.pool[n := s.pool[n].(members := s.pool[n].members + {id})], home := s.home[id := n])
  }

  /** The last one out cancels the poller and takes the topic off the register,
      unless the key has meanwhile gone to another topic. */
  function Left(s: Seating, id: nat): Seating
    requires id in s.home && s.home[id] in s.pool
  {
    var n := s.home[id];
    var t := s.pool[n].(members := s.pool[n].members - {id});
    var home := s.home - {id};
    if t.members == {} && t.key in s.topics && s.topics[t.key] == n
    then Seating(s.topics - {t.key}, s.pool[n := t.(cancelled := true)], home)
    else Seating(s.topics, s.pool[n := t], home)
  }

  function Kept(s: Seating, n: nat, m: Message): Seating
    requires n in s.pool
  {
    s.(pool := s.pool[n := s.pool[n].(last := Some(m))])
  }

  ghost predicate Registered(s: Seating) {
    && (forall k | k in s.topics :: s.topics[k] in s.pool && s.pool[s.topics[k]].key == k && !s.pool[s.topics[k]].cancelled)
    && (forall n | n in s.pool && !s.pool[n].cancelled :: s.pool[n].key in s.topics && s.topics[s.pool[n].key] == n)
    && (forall n | n in s.pool && s.pool[n].cancelled :: s.pool[n].members == {})
  }

  ghost predicate Housed(s: Seating) {
    && (forall n, i | n in s.pool && i in s.pool[n].members :: i in s.home && s.home[i] == n)
    && (forall i | i in s.home :: s.home[i] in s.pool && i in s.pool[s.home[i]].members)
  }

  ghost predicate Populated(s: Seating) {
    forall k | k in s.topics :: s.topics[k] in s.pool && s.pool[s.topics[k]].members != {}
  }

  /** Every registered topic has a subscriber and a running poller, no other
      poller runs, each live subscriber sits in exactly the topic it joined. */
  ghost predicate Orderly(s: Seating) {
    Registered(s) && Housed(s) && Populated(s)
  }

  lemma SubscribeOrderly(s: Seating, key: Key, fresh_: nat, id: nat)
    requires Orderly(s) && fresh_ !in s.pool && id !in s.home
    ensures var s1 := Opened(s, key, fresh_);
            && key in s1.topics && s1.topics[key] in s1.pool && s1.pool[s1.topics[key]].key == key
            && Orderly(Joined(s1, s1.topics[key], id))
  {
    OpenedSeats(s, key, fresh_);
    var s1 := Opened(s, key, fresh_);
    JoinedOrderly(s1, s1.topics[key], id);
  }

  lemma SeatNumbers(s: Seating, key: Key, fresh_: nat, id: nat)
    requires Orderly(s)
    ensures var s1 := Opened(s, key, fresh_);
            && s1.pool.Keys <= s.pool.Keys + {fresh_}
            && key in s1.topics && s1.topics[key] in s1.pool
            && Joined(s1, s1.topics[key], id).pool.Keys == s1.pool.Keys
            && Joined(s1, s1.topics[key], id).home.Keys == s.home.Keys + {id}
  {
  }

  /** All is orderly but for the opened topic, which may still be empty. */
  lemma OpenedSeats(s: Seating, key: Key, fresh_: nat)
    requires Orderly(s) && fresh_ !in s.pool
    ensures var s1 := Opened(s, key, fresh_);
            && Registered(s1) && Housed(s1)
            && key in s1.topics && s1.topics[key] in s1.pool && s1.pool[s1.topics[key]].key == key
            && s1.home == s.home
            && forall k | k in s1.topics && s1.topics[k] != s1.topics[key] :: s1.pool[s1.topics[k]].members != {}
  {
  }

  lemma JoinedOrderly(s: Seating, n: nat, id: nat)
    requires Registered(s) && Housed(s) && n in s.pool && !s.pool[n].cancelled && id !in s.home
    requires forall k | k in s.topics && s.topics[k] != n :: s.pool[s.topics[k]].members != {}
    ensures Orderly(Joined(s, n, id))
  {
    var s' := Joined(s, n, id);
    assert id in s'.pool[n].members;
  }

  lemma ReleaseOrderly(s: Seating, id: nat)
    requires Orderly(s) && id in s.home
    ensures s.home[id] in s.pool
    ensures Orderly(Left(s, id)) && id !in Left(s, id).home
    ensures forall n | n in Left(s, id).pool :: id !in Left(s, id).pool[n].members
  {
    LeftRegistered(s, id);
    LeftHoused(s, id);
    LeftPopulated(s, id);
    hide Registered, Populated, Left;
  }

  lemma LeftRegistered(s: Seating, id: nat)
    requires Registered(s) && Housed(s) && id in s.home
    ensures s.home[id] in s.pool && Registered(Left(s, id)) && id !in Left(s, id).home
  {
  }

  lemma LeftHoused(s: Seating, id: nat)
    requires Housed(s) && id in s.home
    ensures s.home[id] in s.pool && Housed(Left(s, id))
  {
    var s' := Left(s, id);
    forall j, i | j in s'.pool && i in s'.pool[j].members
      ensures i in s'.home && s'.home[i] == j
    {
      assert i in s.pool[j].members;
    }
  }

  lemma LeftPopulated(s: Seating, id: nat)
    requires Registered(s) && Populated(s) && id in s.home && s.home[id] in s.pool
    ensures Populated(Left(s, id))
  {
  }

  lemma KeptOrderly(s: Seating, n: nat, m: Message)
    requires Orderly(s) && n in s.pool
    ensures Orderly(Kept(s, n, m))
  {
  }

  /** The last leaver stops the poller; anyone else leaves it running. */
  lemma LastLeaverStops(s: Seating, id: nat)
    requires Orderly(s) && id in s.home
    ensures var key, s' := s.pool[s.home[id]].key, Left(s, id);
            && (key !in s'.topics <==> s.pool[s.home[id]].members == {id})
            && s'.pool[s.home[id]].cancelled == (key !in s'.topics)
  {
  }

  // ---------- what a late joiner is given ----------

  /** What can happen to the seating; ids and topic numbers are handed out once. */
  datatype Act = Subscribing(key: Key, topic: nat, id: nat) | Releasing(id: nat) | Pushing(topic: nat, message: Message)

  function Acted(s: Seating, a: Act): Seating {
    match a
    case Subscribing(key, topic, id) =>
      if topic in s.pool || id in s.home then s
      else
        var s1 := Opened(s, key, topic);
        if key in s1.topics && s1.topics[key] in s1.pool then Joined(s1, s1.topics[key], id) else s1
    case Releasing(id) => if id in s.home && s.home[id] in s.pool then Left(s, id) else s
    case Pushing(topic, m) => if topic in s.pool then Kept(s, topic, m) else s
  }

  function AllActed(s: Seating, acts: seq<Act>): Seating
    decreases |acts|
  {
    if |acts| == 0 then s else AllActed(Acted(s, acts[0]), acts[1..])
  }

  lemma {:induction false} LastStays(s: Seating, acts: seq<Act>, n: nat)
    requires n in s.pool && forall i | 0 <= i < |acts| :: !(acts[i].Pushing? && acts[i].topic == n)
    ensures n in AllActed(s, acts).pool && AllActed(s, acts).pool[n].last == s.pool[n].last
    decreases |acts|
  {
    if |acts| > 0 { LastStays(Acted(s, acts[0]), acts[1..], n); }
  }

  /** Whoever subscribes to a topic starts from the message pushed to it last,
      whoever came and went since; a topic that is new has none. */
  lemma LatestReplayed(s: Seating, n: nat, m: Message, acts: seq<Act>, key: Key, fresh_: nat)
    requires n in s.pool && forall i | 0 <= i < |acts| :: !(acts[i].Pushing? && acts[i].topic == n)
    ensures var s' := AllActed(Kept(s, n, m), acts);
            var s1 := Opened(s', key, fresh_);
            && (key in s'.topics && s'.topics[key] == n ==> n in s1.pool && s1.pool[s1.topics[key]].last == Some(m))
            && (key !in s'.topics ==> s1.pool[s1.topics[key]].last == None)
  {
    LastStays(Kept(s, n, m), acts, n);
  }

  lemma HasMember(s: set<nat>)
    ensures s == {} || exists i :: i in s
  {
  }

  /** Each client's own writer may take messages while the hub delivers to it:
      between and after count them, client by client. */
  method FeedAll(clients: map<nat, Subscriber>, members: set<nat>, m: Message, between: nat -> nat, after: nat -> nat)
    requires members <= clients.Keys
    requires forall i | i in members :: clients[i].id == i && clients[i].Valid() && !clients[i].closed
    modifies set i | i in members && i in clients :: clients[i]
    ensures forall i | i in members ::
              && clients[i].Valid() && !clients[i].closed
              && clients[i].sent == old(clients[i].sent) + [m]
              && clients[i].queue != [] && clients[i].queue[|clients[i].queue| - 1] == m
              && clients[i].lost - old(clients[i].lost) <= clients[i].dropped - old(clients[i].dropped) <= 1
  {
    hide Subscriber.Valid, Subscriber.Balanced;
    var rest := members;
    while rest != {}
      invariant rest <= members
      invariant forall i | i in rest :: unchanged(clients[i])
      invariant forall i | i in members && i !in rest ::
                  && clients[i].Valid() && !clients[i].closed
                  && clients[i].sent == old(clients[i].sent) + [m]
                  && clients[i].queue != [] && clients[i].queue[|clients[i].queue| - 1] == m
                  && clients[i].lost - old(clients[i].lost) <= clients[i].dropped - old(clients[i].dropped) <= 1
      decreases rest
    {
      HasMember(rest);
      var i :| i in rest;
      ghost var _ := clients[i].Deliver(m, between(i), after(i));
      rest := rest - {i};
    }
  }

  /** A late joiner starts from the topic's last message. */
  method NewQueue(id: nat, capacity: nat, last: Option<Message>) returns (sub: Subscriber)
    requires capacity > 0
    ensures fresh(sub) && sub.id == id && sub.Valid() && !sub.closed
    ensures sub.queue == match last { case Some(m) => [m] case None => [] }
  {
    hide Subsequence, Subscriber.Balanced;
    sub := new Subscriber(id, capacity);
    if last.Some? { ghost var _ := sub.Deliver(last.value, 0, 0); }
  }

  /** The registry of topics and the clients' queues. */
  class Registry {
    const sendBuf: nat
    var seating: Seating
    var clients: map<nat, Subscriber>
    var nextId: nat
    var nextTopic: nat

    constructor (sendBuf: int)
      ensures Valid() && seating == Seating(map[], map[], map[]) && clients == map[]
    {
      this.sendBuf := if sendBuf <= 0 then 32 else sendBuf;
      seating, clients, nextId, nextTopic := Seating(map[], map[], map[]), map[], 0, 0;
    }

    ghost function Queues(): set<Subscriber>
      reads this
    {
      set i | i in clients :: clients[i]
    }

    ghost predicate Numbered()
      reads this
    {
      && sendBuf > 0 && clients.Keys == seating.home.Keys
      && (forall i | i in clients :: clients[i].id == i && i <= nextId)
      && (forall n | n in seating.pool :: n < nextTopic)
    }

    /** Live queues are sound and open. */
    ghost predicate Open()
      reads this, Queues()
    {
      forall i | i in clients :: clients[i].Valid() && !clients[i].closed
    }

    ghost predicate Valid()
      reads this, Queues()
    {
      Numbered() && Orderly(seating) && Open()
    }

    method Subscribe(key: Key) returns (sub: Subscriber)
      requires Valid()
      modifies this`seating, this`clients, this`nextId, this`nextTopic
      ensures Valid() && fresh(sub) && sub.id !in old(clients) && clients == old(clients)[sub.id := sub]
      ensures var s1 := Opened(old(seating), key, old(nextTopic));
              && key in s1.topics && s1.topics[key] in s1.pool
              && seating == Joined(s1, s1.topics[key], sub.id)
              && sub.queue == match s1.pool[s1.topics[key]].last { case Some(m) => [m] case None => [] }
    {
      hide Subscriber.Valid, Subscriber.Balanced, Subsequence, Orderly, Opened, Joined;
      SubscribeOrderly(seating, key, nextTopic, nextId + 1);
      SeatNumbers(seating, key, nextTopic, nextId + 1);
      var s1 := Opened(seating, key, nextTopic);
      var n := s1.topics[key];
      sub := NewQueue(nextId + 1, sendBuf, s1.pool[n].last);
      seating, nextTopic := Joined(s1, n, sub.id), nextTopic + 1;
      clients, nextId := clients[sub.id := sub], nextId + 1;
      assert Numbered();
      assert Open();
    }

    /** The locked part of a release: the subscriber leaves its topic. Its queue
        is closed afterwards, once no topic can reach it. */
    method Release(sub: Subscriber)
      requires Valid() && sub.id in clients && clients[sub.id] == sub
      modifies this`seating, this`clients
      ensures Valid() && clients == old(clients) - {sub.id} && seating == Left(old(seating), sub.id)
      ensures sub !in Queues() && !sub.closed
    {
      hide Subscriber.Valid, Orderly;
      ReleaseOrderly(seating, sub.id);
      seating := Left(seating, sub.id);
      clients := clients - {sub.id};
    }

    method Close(sub: Subscriber)
      requires Valid() && sub !in Queues() && !sub.closed
      modifies sub`closed
      ensures Valid() && sub.closed
    {
      sub.closed := true;
    }

    /** A poll's result, from any topic's poller, cancelled ones included: it
        reaches exactly the topic's live subscribers, whose queues are open,
        however each one's writer interleaves with the delivery. */
    method Push(n: nat, m: Message, between: nat -> nat, after: nat -> nat)
      requires Valid() && n in seating.pool
      modifies this`seating, set i | i in seating.pool[n].members && i in clients :: clients[i]
      ensures Valid() && clients == old(clients) && seating == Kept(old(seating), n, m)
      ensures forall i | i in seating.pool[n].members ::
                && i in clients && clients[i].sent == old(clients[i].sent) + [m]
                && clients[i].queue != [] && clients[i].queue[|clients[i].queue| - 1] == m
                && clients[i].lost - old(clients[i].lost) <= clients[i].dropped - old(clients[i].dropped) <= 1
    {
      hide Subscriber.Valid, Orderly;
      KeptOrderly(seating, n, m);
      MembersLive(n);
      FeedAll(clients, seating.pool[n].members, m, between, after);
      seating := Kept(seating, n, m);
    }

    lemma MembersLive(n: nat)
      requires Valid() && n in seating.pool
      ensures seating.pool[n].members <= clients.Keys
    {
    }

    /** A live subscriber's topic is the registered one for its key and its
        poller runs: no connected client is left without a feed. */
    lemma LiveIsFed(id: nat)
      requires Valid() && id in clients
      ensures id in seating.home && seating.home[id] in seating.pool
      ensures var n := seating.home[id];
              var t := seating.pool[n];
              id in t.members && !t.cancelled && t.key in seating.topics && seating.topics[t.key] == n
    {
    }
  }
}
