/** Stores that remember trade submissions by client key for a while: one
    abstract expiring map, and the in-process and Redis stores that refine it. */
module Idempotency {
  import opened Market

  type Key = string

  /** The stored text of a result. It is a JSON document, so it is neither empty
      nor the in-flight marker. */
  type Payload = p: string | p != "" && p != IN_FLIGHT witness "{}"

  const IN_FLIGHT := "\0"

  /** No payload while the submission is in flight. */
  datatype Entry = Entry(payload: Option<Payload>, expires: int)

  type Entries = map<Key, Entry>

  datatype Call =
    | Load(key: Key)
    | Claim(key: Key, ttl: int)
    | Store(key: Key, payload: Payload, ttl: int)
    | Release(key: Key)

  datatype Reply = Found(payload: Payload) | Missing | Granted | Refused | Done

  /** What can still be seen: an entry lives through its expiry instant. */
  function Live(m: Entries, now: int): Entries {
    map k | k in m && now <= m[k].expires :: m[k]
  }

  function Lookup(m: Entries, key: Key, now: int): Option<Entry> {
    if key in m && now <= m[key].expires then Some(m[key]) else None
  }

  /** The store that never forgets what it need not: expired entries are simply
      not seen. */
  function Answer(m: Entries, c: Call, now: int): Reply {
    match c
    case Load(key) =>
      (match Lookup(m, key, now)
       case Some(Entry(Some(p), _)) => Found(p)
       case _ => Missing)
    case Claim(key, _) => if Lookup(m, key, now).Some? then Refused else Granted
    case _ => Done
  }

  function Update(m: Entries, c: Call, now: int): Entries {
    match c
    case Load(_) => m
    case Claim(key, ttl) => if Lookup(m, key, now).Some? then m else m[key := Entry(None, now + ttl)]
    case Store(key, payload, ttl) => m[key := Entry(Some(payload), now + ttl)]
    case Release(key) => if key in m && m[key].payload.None? then m - {key} else m
  }

  // ---------- forgetting is unobservable ----------

  /** Two stores nobody can tell apart from now on. */
  ghost predicate Alike(m: Entries, n: Entries, now: int) {
    Live(m, now) == Live(n, now)
  }

  lemma AlikeAt(m: Entries, n: Entries, now: int, later: int, key: Key)
    requires Alike(m, n, now) && now <= later
    ensures Lookup(m, key, later) == Lookup(n, key, later)
  {
    assert key in Live(m, now) <==> key in Live(n, now);
    assert key in Live(m, now) ==> Live(m, now)[key] == Live(n, now)[key];
  }

  lemma AlikeIf(m: Entries, n: Entries, now: int)
    requires forall key: Key :: Lookup(m, key, now) == Lookup(n, key, now)
    ensures Alike(m, n, now)
  {
    forall key: Key
      ensures key in Live(m, now) <==> key in Live(n, now)
      ensures key in Live(m, now) ==> Live(m, now)[key] == Live(n, now)[key]
    {
      assert Lookup(m, key, now) == Lookup(n, key, now);
    }
  }

  /** Alike stores answer alike and stay alike. */
  lemma AlikeStep(m: Entries, n: Entries, c: Call, now: int, later: int)
    requires Alike(m, n, now) && now <= later
    ensures Answer(m, c, later) == Answer(n, c, later)
    ensures Alike(Update(m, c, later), Update(n, c, later), later)
  {
    AlikeAt(m, n, now, later, c.key);
    var m', n' := Update(m, c, later), Update(n, c, later);
    forall key: Key
      ensures Lookup(m', key, later) == Lookup(n', key, later)
    {
      AlikeAt(m, n, now, later, key);
    }
    AlikeIf(m', n', later);
  }

  // ---------- what the calls mean for one another ----------

  /** A key can be claimed exactly while nothing live is under it: not under a
      claim or a result until it expires, and again at once when a claim is
      released. Releasing a result does nothing. */
  lemma ClaimsExclude(m: Entries, key: Key, p: Payload, ttl: int, now: int, later: int)
    requires now <= later
    ensures var claimed := Update(m, Claim(key, ttl), now);
            && (Answer(m, Claim(key, ttl), now) == Granted ==>
                  && (Answer(claimed, Claim(key, ttl), later) == Granted <==> later > now + ttl)
                  && Answer(claimed, Load(key), later) == Missing
                  && Answer(Update(claimed, Release(key), later), Claim(key, ttl), later) == Granted)
            && (Answer(m, Claim(key, ttl), now) != Granted ==> claimed == m)
    ensures var stored := Update(m, Store(key, p, ttl), now);
            && Answer(stored, Load(key), later) == (if later <= now + ttl then Found(p) else Missing)
            && (Answer(stored, Claim(key, ttl), later) == Granted <==> later > now + ttl)
            && Update(stored, Release(key), later) == stored
  {
  }

  /** And no call touches another key. */
  lemma OtherKeys(m: Entries, c: Call, now: int, key: Key)
    requires key != c.key
    ensures key in Update(m, c, now) <==> key in m
    ensures key in m ==> Update(m, c, now)[key] == m[key]
  {
  }

  /** Any set of expired entries may be dropped. */
  function Swept(m: Entries, keys: set<Key>, now: int): Entries {
    map k | k in m && !(k in keys && now > m[k].expires) :: m[k]
  }

  lemma SweptAlike(m: Entries, keys: set<Key>, now: int)
    ensures Alike(Swept(m, keys, now), m, now)
  {
  }

  datatype Timed = Timed(call: Call, now: int, swept: set<Key>)

  predicate Forward(calls: seq<Timed>, now: int) {
    (forall i | 0 <= i < |calls| :: now <= calls[i].now) && (forall i, j | 0 <= i < j < |calls| :: calls[i].now <= calls[j].now)
  }

  function Replies(m: Entries, calls: seq<Timed>, sweeping: bool): seq<Reply>
    decreases |calls|
  {
    if |calls| == 0 then []
    else
      var t := calls[0];
      var kept := if sweeping then Swept(m, t.swept, t.now) else m;
      [Answer(kept, t.call, t.now)] + Replies(Update(kept, t.call, t.now), calls[1..], sweeping)
  }

  /** Sweeping whatever has expired, whenever, never changes an answer. */
  lemma {:induction false} SweepUnobservable(m: Entries, n: Entries, now: int, calls: seq<Timed>)
    requires Alike(m, n, now) && Forward(calls, now)
    ensures Replies(m, calls, true) == Replies(n, calls, false)
    decreases |calls|
  {
    if |calls| > 0 {
      var t := calls[0];
      var kept := Swept(m, t.swept, t.now);
      SweptAlike(m, t.swept, t.now);
      forall key: Key
        ensures Lookup(kept, key, t.now) == Lookup(n, key, t.now)
      {
        AlikeAt(kept, m, t.now, t.now, key);
        AlikeAt(m, n, now, t.now, key);
      }
      AlikeIf(kept, n, t.now);
      AlikeStep(kept, n, t.call, t.now, t.now);
      SweepUnobservable(Update(kept, t.call, t.now), Update(n, t.call, t.now), t.now, calls[1..]);
    }
  }

  // ---------- the in-process store ----------

  const SWEEP_INTERVAL := 60000

  lemma MemberOf(s: set<Key>)
    ensures s == {} || exists k :: k in s
  {
  }

  class MemoryStore {
    var entries: Entries
    var nextSweep: Option<int>

    constructor ()
      ensures entries == map[] && nextSweep == None
    {
      entries, nextSweep := map[], None;
    }

    method Sweep(now: int)
      modifies this
      ensures exists keys :: entries == Swept(old(entries), keys, now)
      ensures Alike(entries, old(entries), now)
    {
      SweptAlike(entries, {}, now);
      assert Swept(entries, {}, now) == entries;
      if nextSweep.Some? && now < nextSweep.value { return; }
      nextSweep := Some(now + SWEEP_INTERVAL);
      var rest := entries.Keys;
      while rest != {}
        invariant rest <= old(entries).Keys
        invariant entries == Swept(old(entries), old(entries).Keys - rest, now)
        decreases rest
      {
        MemberOf(rest);
        var k :| k in rest;
        if now > entries[k].expires { entries := entries - {k}; }
        rest := rest - {k};
      }
      SweptAlike(old(entries), old(entries).Keys - rest, now);
    }

    method Load(key: Key, now: int) returns (payload: Option<Payload>)
      modifies this
      ensures Answer(old(entries), Call.Load(key), now) == match payload { case Some(p) => Found(p) case None => Missing }
      ensures Alike(entries, Update(old(entries), Call.Load(key), now), now)
    {
      Sweep(now);
      AlikeAt(entries, old(entries), now, now, key);
      if key in entries && now > entries[key].expires {
        ghost var before := entries;
        entries := entries - {key};
        SweptAlike(before, {key}, now);
        assert entries == Swept(before, {key}, now);
        return None;
      }
      if key !in entries || entries[key].payload.None? { return None; }
      payload := entries[key].payload;
    }

    method Claim(key: Key, ttl: int, now: int) returns (ok: bool)
      modifies this
      ensures Answer(old(entries), Call.Claim(key, ttl), now) == if ok then Granted else Refused
      ensures Alike(entries, Update(old(entries), Call.Claim(key, ttl), now), now)
    {
      Sweep(now);
      AlikeStep(entries, old(entries), Call.Claim(key, ttl), now, now);
      if key in entries {
        if now > entries[key].expires {
          entries := entries - {key};
        } else {
          return false;
        }
      }
      entries := entries[key := Entry(None, now + ttl)];
      AlikeIf(entries, Update(old(entries), Call.Claim(key, ttl), now), now);
      ok := true;
    }

    method Store(key: Key, payload: Payload, ttl: int, now: int)
      modifies this
      ensures Alike(entries, Update(old(entries), Call.Store(key, payload, ttl), now), now)
    {
      Sweep(now);
      AlikeStep(entries, old(entries), Call.Store(key, payload, ttl), now, now);
      entries := entries[key := Entry(Some(payload), now + ttl)];
    }

    method Release(key: Key, ghost now: int)
      modifies this`entries
      ensures Alike(entries, Update(old(entries), Call.Release(key), now), now)
    {
      if key in entries && entries[key].payload.None? {
        entries := entries - {key};
      }
    }
  }

  // ---------- the Redis store ----------

  /** A value with the time after which the server no longer returns it. */
  datatype Cell = Cell(value: string, expires: int)

  const PREFIX := "idem:trade:"

  predicate WellFormed(cells: map<string, Cell>) {
    forall k | k in cells :: cells[k].value != ""
  }

  function EntryOf(c: Cell): Entry
    requires c.value != ""
  {
    Entry(if c.value == IN_FLIGHT then None else Some(c.value), c.expires)
  }

  /** The entries that a server's keyspace stands for. */
  ghost predicate Represents(cells: map<string, Cell>, m: Entries) {
    && WellFormed(cells)
    && (forall k: Key :: PREFIX + k in cells <==> k in m)
    && (forall k: Key | PREFIX + k in cells :: m[k] == EntryOf(cells[PREFIX + k]))
  }

  lemma PrefixInjective(k: Key, j: Key)
    requires PREFIX + k == PREFIX + j
    ensures k == j
  {
    assert (PREFIX + k)[|PREFIX|..] == k && (PREFIX + j)[|PREFIX|..] == j;
  }

  class RedisStore {
    var cells: map<string, Cell>

    /** The server's GET, SET NX, SET and compare-and-delete, each atomic. */
    function Get(k: string, now: int): Option<string>
      reads this
    {
      if k in cells && now <= cells[k].expires then Some(cells[k].value) else None
    }

    method SetNX(k: string, value: string, ttl: int, now: int) returns (ok: bool)
      modifies this
      ensures ok <==> old(Get(k, now)).None?
      ensures cells == if ok then old(cells)[k := Cell(value, now + ttl)] else old(cells)
    {
      ok := Get(k, now).None?;
      if ok { cells := cells[k := Cell(value, now + ttl)]; }
    }

    method Load(key: Key, now: int, ghost m: Entries) returns (payload: Option<Payload>)
      requires Represents(cells, m)
      ensures Answer(m, Call.Load(key), now) == match payload { case Some(p) => Found(p) case None => Missing }
    {
      var val := Get(PREFIX + key, now);
      if val.None? { return None; }
      if val.value == IN_FLIGHT { return None; }
      payload := Some(val.value);
    }

    method Claim(key: Key, ttl: int, now: int, ghost m: Entries) returns (ok: bool)
      requires Represents(cells, m)
      modifies this
      ensures Answer(m, Call.Claim(key, ttl), now) == if ok then Granted else Refused
      ensures Represents(cells, Update(m, Call.Claim(key, ttl), now))
    {
      assert PREFIX + key in cells <==> key in m;
      ok := SetNX(PREFIX + key, IN_FLIGHT, ttl, now);
      if ok { RepresentsPut(old(cells), m, key, Cell(IN_FLIGHT, now + ttl)); }
    }

    method Store(key: Key, payload: Payload, ttl: int, now: int, ghost m: Entries)
      requires Represents(cells, m)
      modifies this
      ensures Represents(cells, Update(m, Call.Store(key, payload, ttl), now))
    {
      cells := cells[PREFIX + key := Cell(payload, now + ttl)];
      RepresentsPut(old(cells), m, key, Cell(payload, now + ttl));
    }

    /** Compare-and-delete; an expired key is already gone for the server. */
    method Release(key: Key, now: int, ghost m: Entries)
      requires Represents(cells, m)
      modifies this
      ensures exists m' :: Represents(cells, m') && Alike(m', Update(m, Call.Release(key), now), now)
    {
      if Get(PREFIX + key, now) == Some(IN_FLIGHT) {
        cells := cells - {PREFIX + key};
        RepresentsDrop(old(cells), m, key);
      } else {
        assert PREFIX + key in cells <==> key in m;
        AlikeIf(m, Update(m, Call.Release(key), now), now);
      }
    }
  }

  lemma RepresentsPut(cells: map<string, Cell>, m: Entries, key: Key, c: Cell)
    requires Represents(cells, m) && c.value != ""
    ensures Represents(cells[PREFIX + key := c], m[key := EntryOf(c)])
  {
    forall k: Key
      ensures PREFIX + k == PREFIX + key <==> k == key
    {
      if PREFIX + k == PREFIX + key { PrefixInjective(k, key); }
    }
  }

  lemma RepresentsDrop(cells: map<string, Cell>, m: Entries, key: Key)
    requires Represents(cells, m)
    ensures Represents(cells - {PREFIX + key}, m - {key})
  {
    forall k: Key
      ensures PREFIX + k == PREFIX + key <==> k == key
    {
      if PREFIX + k == PREFIX + key { PrefixInjective(k, key); }
    }
  }
}
