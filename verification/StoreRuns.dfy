/** The engine and its store together: requests and evaluation passes go on
    while copies of the book are saved, saves fail or commit unacknowledged,
    and the process restarts from what was stored. */
module StoreRuns {
  import opened Rounding
  import opened Market
  import opened Book
  import opened Runs
  import opened Rows
  import Store

  datatype Op =
    | Work(event: Event)
    | Copy(request: int)
    | Finish(outcome: Store.Outcome, walk: seq<int>)
    | Restart

  /** saved is the last snapshot whose commit took effect. */
  datatype System = System(
    world: World, copy: Option<Store.Snapshot>, tables: Store.Tables, persisted: map<int, Store.Counts>,
    saved: Option<Store.Snapshot>)

  /** The engine adopts a stored book; the user store follows its balances. */
  function Restored(s: Store.Snapshot, users: map<int, User>): World {
    World(s.accounts, if s.meta.next > FIRST_TICKET then s.meta.next else FIRST_TICKET,
          map l | l in users :: if l in s.accounts then users[l].(balance := s.accounts[l].balance) else users[l])
  }

  ghost function StepSystem(s: System, op: Op): System {
    match op
    case Work(e) => s.(world := Step(s.world, e))
    case Copy(request) =>
      if s.copy.Some? then s
      else s.(copy := Some(Store.Snapshot(Store.Meta(s.world.next, request), s.world.accounts)))
    case Finish(outcome, walk) =>
      if s.copy.None? || !Store.Walks(walk, s.copy.value.accounts.Keys) then s else FinishSave(s, outcome, walk)
    case Restart =>
      match Store.Loaded(s.tables)
      case None => s.(world := World(map[], FIRST_TICKET, s.world.users), copy := None, persisted := map[])
      case Some(b) => s.(world := Restored(b, s.world.users), copy := None, persisted := Store.CountsIn(b.accounts))
  }

  ghost function FinishSave(s: System, outcome: Store.Outcome, walk: seq<int>): System
    requires s.copy.Some? && Store.Walks(walk, s.copy.value.accounts.Keys)
  {
    var b := s.copy.value;
    var t := s.tables.(meta := Some(b.meta));
    if outcome == Store.Failed || Store.AnyClash(t, b.accounts, s.persisted, walk) then s.(copy := None)
    else System(s.world, None, Store.SaveAll(t, b.accounts, s.persisted, walk),
                if outcome == Store.Committed then s.persisted + Store.CountsIn(b.accounts) else s.persisted,
                Some(b))
  }

  ghost function RunSystem(s: System, ops: seq<Op>): System
    decreases |ops|
  {
    if |ops| == 0 then s else RunSystem(StepSystem(s, ops[0]), ops[1..])
  }

  // ---------- how a later book relates to an earlier one ----------

  /** An account grew out of its earlier state, or holds only tickets issued
      since: it is new or was reset. In a clean history nothing was reset. */
  ghost predicate Grown(v: World, w: World, l: int, clean: bool)
    requires l in w.accounts
  {
    || (l in v.accounts && Persists(v.accounts[l], v.next, w.accounts[l], w.next))
    || ((clean ==> l !in v.accounts) && forall t: int :: t in Tickets(w.accounts[l]) ==> v.next <= t)
  }

  ghost predicate Lineage(v: World, w: World, clean: bool) {
    && v.next <= w.next && v.accounts.Keys <= w.accounts.Keys
    && forall l | l in w.accounts :: Grown(v, w, l, clean)
  }

  lemma LineageRefl(v: World, clean: bool)
    requires Consistent(v)
    ensures Lineage(v, v, clean)
  {
    hide Sound, Persists;
    forall l | l in v.accounts
      ensures Grown(v, v, l, clean)
    {
      assert Sound(DeskOf(v, l));
      PersistsRefl(v.accounts[l], v.next, v.next);
    }
  }

  lemma GrownTrans(u: World, v: World, w: World, l: int, clean: bool)
    requires Consistent(v) && Consistent(w) && Lineage(u, v, clean) && Lineage(v, w, clean) && l in w.accounts
    ensures Grown(u, w, l, clean)
  {
    assert Grown(v, w, l, clean) && Sound(DeskOf(w, l));
    if l in v.accounts && Persists(v.accounts[l], v.next, w.accounts[l], w.next) {
      assert Grown(u, v, l, clean) && Sound(DeskOf(v, l));
      if l in u.accounts && Persists(u.accounts[l], u.next, v.accounts[l], v.next) {
        PersistsTrans(u.accounts[l], u.next, v.accounts[l], v.next, w.accounts[l], w.next);
      }
    }
  }

  lemma LineageTrans(u: World, v: World, w: World, clean: bool)
    requires Consistent(v) && Consistent(w) && Lineage(u, v, clean) && Lineage(v, w, clean)
    ensures Lineage(u, w, clean)
  {
    hide Consistent, Grown;
    forall l | l in w.accounts
      ensures Grown(u, w, l, clean)
    {
      GrownTrans(u, v, w, l, clean);
    }
  }

  lemma GrownStep(w: World, e: Event, l: int, clean: bool)
    requires Consistent(w) && l in Step(w, e).accounts && (clean ==> !e.Reset?)
    ensures Grown(w, Step(w, e), l, clean)
  {
    hide Sound, Persists, StepDesk, EvaluateFrom;
    StepSafe(w, e, l);
    NextGrows(w, e);
    if Resets(e, l) {
      ResetTickets(w, e);
    } else if l !in w.accounts {
      forall t: int | t in Tickets(Step(w, e).accounts[l])
        ensures w.next <= t
      {
        StepTickets(w, e, l, t);
      }
    }
  }

  lemma ResetTickets(w: World, e: Event)
    requires Consistent(w) && e.Reset? && e.login in Step(w, e).accounts
    ensures Tickets(Step(w, e).accounts[e.login]) == multiset{}
  {
  }

  lemma StepKeys(w: World, e: Event)
    ensures w.accounts.Keys <= Step(w, e).accounts.Keys
  {
    if e.EvaluatePass? { EvaluateKeys(w, e.feed, e.walk); }
  }

  lemma LineageStep(v: World, w: World, e: Event, clean: bool)
    requires Consistent(v) && Consistent(w) && Lineage(v, w, clean) && (clean ==> !e.Reset?)
    ensures Consistent(Step(w, e)) && Lineage(v, Step(w, e), clean)
  {
    hide Consistent, Grown, Step;
    StepSafe(w, e, 0);
    NextGrows(w, e);
    StepKeys(w, e);
    forall l | l in Step(w, e).accounts
      ensures Grown(w, Step(w, e), l, clean)
    {
      GrownStep(w, e, l, clean);
    }
    LineageTrans(v, w, Step(w, e), clean);
  }

  // ---------- a later book can be saved over an earlier one ----------

  lemma OwnsTicket(d: Desk, t: int)
    requires Sound(d) && Store.Owns(d.acct, t)
    ensures t in Tickets(d.acct) && t < d.next
  {
    var a := d.acct;
    if t in a.positions {
      assert HasFilled(a.history, t);
    }
    if i :| 0 <= i < |a.history| && a.history[i].ticket == t {
      assert OrderTickets(a.history)[i] == t;
    } else if i :| 0 <= i < |a.deals| && a.deals[i].ticket == t {
      assert DealTickets(a.deals)[i] == t;
    }
  }

  lemma SoundSingular(d: Desk)
    requires Sound(d)
    ensures Store.Singular(d.acct)
  {
    var a := d.acct;
    var order, deal := Store.OrderTicket(), Store.DealTicket();
    forall i, j | 0 <= i < j < |a.history|
      ensures order(a.history[i]) != order(a.history[j])
    {
      HistoricNotWorking(d, i);
    }
    forall i | 0 <= i < |a.history|
      ensures a.history[i].ticket !in a.orders
    {
      HistoricNotWorking(d, i);
    }
    forall i, j | 0 <= i < j < |a.deals|
      ensures deal(a.deals[i]) != deal(a.deals[j])
    {
      var ds := DealTickets(a.deals);
      assert ds[i] == a.deals[i].ticket && ds[j] == a.deals[j].ticket;
      assert Tickets(a)[ds[i]] <= 1;
      TwoPlaces(ds, i, j);
    }
  }

  /** No ticket changes hands: what an account owns now, no other account owned
      when the book was stored; and a reset account owns nothing it owned. */
  lemma OwnersApart(v: World, w: World, l: int, k: int, clean: bool)
    requires Consistent(v) && Consistent(w) && Lineage(v, w, clean) && l in w.accounts && k in v.accounts
    ensures l != k ==> Store.Disjoint(w.accounts[l], v.accounts[k])
    ensures l == k ==> Store.Descends(v.accounts[l], w.accounts[l])
  {
    hide Sound, Persists;
    assert Grown(v, w, l, clean);
    if l != k || !(l in v.accounts && Persists(v.accounts[l], v.next, w.accounts[l], w.next)) {
      forall t: int
        ensures !(Store.Owns(v.accounts[k], t) && Store.Owns(w.accounts[l], t))
      {
        if Store.Owns(v.accounts[k], t) && Store.Owns(w.accounts[l], t) {
          OwnsTicket(DeskOf(v, k), t);
          OwnsTicket(DeskOf(w, l), t);
          PersistsTicket(v, w, l, t, clean);
        }
      }
    } else {
      PersistsLists(v.accounts[l], v.next, w.accounts[l], w.next);
    }
  }

  lemma PersistsLists(a: Account, n: int, a': Account, n': int)
    requires Persists(a, n, a', n')
    ensures a.history <= a'.history && a.deals <= a'.deals
  {
  }

  lemma PersistsTicket(v: World, w: World, l: int, t: int, clean: bool)
    requires l in w.accounts && Grown(v, w, l, clean) && t in Tickets(w.accounts[l]) && t < v.next
    ensures l in v.accounts && t in Tickets(v.accounts[l]) && Persists(v.accounts[l], v.next, w.accounts[l], w.next)
  {
  }

  lemma LineageSucceeds(v: World, w: World, clean: bool)
    requires Consistent(v) && Consistent(w) && Lineage(v, w, clean)
    ensures Store.Succeeds(v.accounts, w.accounts)
  {
    forall l | l in w.accounts
      ensures w.accounts[l].login == l && Store.Singular(w.accounts[l])
      ensures Store.Descends(Store.Known(v.accounts, l), w.accounts[l])
    {
      SoundSingular(DeskOf(w, l));
      if l in v.accounts { OwnersApart(v, w, l, l, clean); }
    }
    forall l, k | l in w.accounts && k in v.accounts && l != k
      ensures Store.Disjoint(w.accounts[l], v.accounts[k])
    {
      OwnersApart(v, w, l, k, clean);
    }
    forall l, k | l in w.accounts && k in w.accounts && l != k
      ensures Store.Disjoint(w.accounts[l], w.accounts[k])
    {
      SameTimeApart(w, l, k);
    }
  }

  lemma SameTimeApart(w: World, l: int, k: int)
    requires Consistent(w) && l in w.accounts && k in w.accounts && l != k
    ensures Store.Disjoint(w.accounts[l], w.accounts[k])
  {
    hide Sound;
    assert Apart(w.accounts[l], w.accounts[k]);
    forall t: int
      ensures !(Store.Owns(w.accounts[l], t) && Store.Owns(w.accounts[k], t))
    {
      if Store.Owns(w.accounts[l], t) && Store.Owns(w.accounts[k], t) {
        OwnsTicket(DeskOf(w, l), t);
        OwnsTicket(DeskOf(w, k), t);
      }
    }
  }

  // ---------- the invariant of the whole system ----------

  /** The book of a snapshot, as a world of its own. */
  function WorldOf(b: Store.Snapshot): World {
    World(b.accounts, b.meta.next, map[])
  }

  /** What the tables stand for: the last saved book, or nothing. */
  function Held(saved: Option<Store.Snapshot>): World {
    match saved
    case None => World(map[], 1, map[])
    case Some(b) => WorldOf(b)
  }

  ghost predicate Exact(persisted: map<int, Store.Counts>, held: map<int, Account>) {
    forall l: int :: Store.Remembered(persisted, l) == Store.CountsOf(Store.Known(held, l))
  }

  ghost predicate Within(persisted: map<int, Store.Counts>, held: map<int, Account>) {
    forall l: int :: var was, a := Store.Remembered(persisted, l), Store.Known(held, l);
                     was.history <= |a.history| && was.deals <= |a.deals|
  }

  /** clean: nothing was reset since; acked: every commit was acknowledged. */
  ghost predicate Inv(s: System, clean: bool, acked: bool) {
    && Consistent(s.world) && Consistent(Held(s.saved))
    && Store.Holds(s.tables, Held(s.saved).accounts)
    && s.tables.meta == (match s.saved case None => None case Some(b) => Some(b.meta))
    && Lineage(Held(s.saved), s.world, clean)
    && (s.copy.Some? ==>
          && Consistent(WorldOf(s.copy.value))
          && Lineage(Held(s.saved), WorldOf(s.copy.value), clean)
          && Lineage(WorldOf(s.copy.value), s.world, clean))
    && (clean ==> Within(s.persisted, Held(s.saved).accounts))
    && (acked ==> Exact(s.persisted, Held(s.saved).accounts))
  }

  /** The tables always read back as the last book whose save took effect. */
  lemma InvLoads(s: System, clean: bool, acked: bool)
    requires Inv(s, clean, acked)
    ensures Store.Loaded(s.tables) == s.saved
  {
    if s.saved.Some? { Store.LoadExact(s.tables, s.saved.value); }
  }

  lemma Starts(users: map<int, User>)
    ensures Inv(System(World(map[], FIRST_TICKET, users), None,
                       Store.Tables(None, map[], map[], map[], map[]), map[], None), true, true)
  {
  }

  lemma CopyConsistent(w: World, v: World)
    requires Consistent(w) && v == w.(users := map[])
    ensures Consistent(v)
  {
  }

  lemma LineageUsers(v: World, w: World, v': World, w': World, clean: bool)
    requires Lineage(v, w, clean) && v' == v.(users := v'.users) && w' == w.(users := w'.users)
    ensures Lineage(v', w', clean)
  {
  }

  lemma CopyKeeps(s: System, request: int, clean: bool, acked: bool)
    requires Inv(s, clean, acked)
    ensures Inv(StepSystem(s, Copy(request)), clean, acked)
  {
    if s.copy.None? {
      var b := WorldOf(Store.Snapshot(Store.Meta(s.world.next, request), s.world.accounts));
      CopyConsistent(s.world, b);
      LineageRefl(s.world, clean);
      LineageUsers(s.world, s.world, b, s.world, clean);
      LineageUsers(Held(s.saved), s.world, Held(s.saved), b, clean);
    }
  }

  lemma WorkKeeps(s: System, e: Event, clean: bool, acked: bool)
    requires Inv(s, clean, acked) && (clean ==> !e.Reset?)
    ensures Inv(StepSystem(s, Work(e)), clean, acked)
  {
    hide Consistent, Lineage, Step, Store.Holds, Exact, Within;
    LineageStep(Held(s.saved), s.world, e, clean);
    if s.copy.Some? { LineageStep(WorldOf(s.copy.value), s.world, e, clean); }
  }

  lemma RestoredConsistent(b: Store.Snapshot, users: map<int, User>, clean: bool)
    requires Consistent(WorldOf(b))
    ensures Consistent(Restored(b, users)) && Lineage(WorldOf(b), Restored(b, users), clean)
  {
    hide Sound, Persists;
    var v, w := WorldOf(b), Restored(b, users);
    forall l | l in w.accounts
      ensures w.accounts[l].login == l && Sound(DeskOf(w, l)) && Grown(v, w, l, clean)
    {
      assert Sound(DeskOf(v, l));
      SoundLater(DeskOf(v, l), w.next);
      PersistsRefl(v.accounts[l], v.next, w.next);
    }
    forall l, k | l in w.accounts && k in w.accounts && l != k
      ensures Apart(w.accounts[l], w.accounts[k])
    {
      assert Apart(v.accounts[l], v.accounts[k]);
    }
  }

  lemma RestartKeeps(s: System, clean: bool, acked: bool)
    requires Inv(s, clean, acked)
    ensures Inv(StepSystem(s, Restart), clean, acked)
  {
    InvLoads(s, clean, acked);
    match s.saved
    case None =>
      StartsConsistent(s.world.users);
    case Some(b) =>
      hide Consistent, Lineage, Store.Holds, Store.Loaded;
      RestoredConsistent(b, s.world.users, clean);
      CountsExact(b.accounts);
  }

  lemma CountsExact(accounts: map<int, Account>)
    ensures Exact(Store.CountsIn(accounts), accounts) && Within(Store.CountsIn(accounts), accounts)
  {
  }

  // ---------- saves ----------

  /** What the store can check of the copy it is about to write: each list
      extends what is stored, at least up to its count, or is strictly shorter
      than that count. */
  ghost predicate AllWhole(s: System) {
    s.copy.Some? ==> Store.WholeBook(Held(s.saved).accounts, s.copy.value.accounts, s.persisted)
  }

  lemma CopySucceeds(s: System, clean: bool, acked: bool)
    requires Inv(s, clean, acked) && s.copy.Some?
    ensures Store.Succeeds(Held(s.saved).accounts, s.copy.value.accounts)
  {
    hide Consistent, Lineage, Store.Holds, Store.Succeeds;
    LineageSucceeds(Held(s.saved), WorldOf(s.copy.value), clean);
  }

  lemma CleanWhole(s: System, acked: bool)
    requires Inv(s, true, acked)
    ensures AllWhole(s)
  {
    if s.copy.Some? {
      CleanParts(s, acked);
      hide Inv, Lineage, Within, Store.WholeAccount, Held, WorldOf;
      CopyIsWorld(s.copy.value);
      forall l | l in s.copy.value.accounts
        ensures Store.WholeAccount(Store.Remembered(s.persisted, l), Store.Known(Held(s.saved).accounts, l),
                                   s.copy.value.accounts[l])
      {
        WholeAt(Held(s.saved), WorldOf(s.copy.value), s.persisted, l);
      }
    }
  }

  lemma CopyIsWorld(b: Store.Snapshot)
    ensures WorldOf(b).accounts == b.accounts
  {
  }

  lemma CleanParts(s: System, acked: bool)
    requires Inv(s, true, acked) && s.copy.Some?
    ensures Within(s.persisted, Held(s.saved).accounts) && Lineage(Held(s.saved), WorldOf(s.copy.value), true)
  {
  }

  lemma WholeAt(v: World, w: World, persisted: map<int, Store.Counts>, l: int)
    requires Within(persisted, v.accounts) && Lineage(v, w, true) && l in w.accounts
    ensures Store.WholeAccount(Store.Remembered(persisted, l), Store.Known(v.accounts, l), w.accounts[l])
  {
  }

  lemma GrownLists(v: World, w: World, l: int)
    requires l in w.accounts && Grown(v, w, l, true)
    ensures var held := Store.Known(v.accounts, l);
            held.history <= w.accounts[l].history && held.deals <= w.accounts[l].deals
  {
  }

  /** Whatever counts are remembered, no save is refused for a position that is
      already stored. */
  lemma NoClash(s: System, clean: bool, acked: bool, walk: seq<int>)
    requires Inv(s, clean, acked) && s.copy.Some? && Store.Walks(walk, s.copy.value.accounts.Keys)
    ensures !Store.AnyClash(s.tables.(meta := Some(s.copy.value.meta)), s.copy.value.accounts, s.persisted, walk)
  {
    var held, b := Held(s.saved).accounts, s.copy.value;
    CopySucceeds(s, clean, acked);
    Store.WalksDistinct(walk, b.accounts.Keys);
    hide Consistent, Lineage, Store.Holds, Store.Succeeds, Store.Walks, Store.AnyClash, Held;
    Store.HoldsMeta(s.tables, held, Some(b.meta));
    Store.SaveAllSettles(s.tables.(meta := Some(b.meta)), held, b.accounts, s.persisted, walk);
  }

  /** The book that a save writes reads back unchanged if and only if every
      account passes the check, also when earlier commits took effect without
      being acknowledged. */
  lemma SaveReadsBack(s: System, clean: bool, acked: bool, walk: seq<int>)
    requires Inv(s, clean, acked) && s.copy.Some? && Store.Walks(walk, s.copy.value.accounts.Keys)
    ensures Store.Loaded(FinishSave(s, Store.Committed, walk).tables) == s.copy <==> AllWhole(s)
  {
    NoClash(s, clean, acked, walk);
    CopySucceeds(s, clean, acked);
    hide Consistent, Lineage, Store.Holds, Store.Succeeds, Store.Walks, Store.Loaded, Store.WholeBook, Store.AnyClash, Held;
    Store.SaveLoadRoundTrip(s.tables, Held(s.saved).accounts, s.copy.value, s.persisted, walk);
  }

  /** While every commit is acknowledged, no insert of a save takes its conflict
      branch: each one finds its ticket free. */
  lemma SaveUnopposed(s: System, clean: bool, walk: seq<int>, k: nat)
    requires Inv(s, clean, true) && s.copy.Some? && Store.Walks(walk, s.copy.value.accounts.Keys) && k < |walk|
    ensures TurnUnopposed(s, walk, k)
  {
    var held, b := Held(s.saved).accounts, s.copy.value;
    CopySucceeds(s, clean, true);
    Store.WalksDistinct(walk, b.accounts.Keys);
    assert Store.ExactCounts(held, b.accounts, s.persisted);
    hide Consistent, Lineage, Store.Holds, Store.Succeeds, Store.ExactCounts, Store.Walks, Held;
    Store.HoldsMeta(s.tables, held, Some(b.meta));
    Store.SaveUnopposed(s.tables.(meta := Some(b.meta)), held, b.accounts, s.persisted, walk, k);
  }

  /** The k-th account of the walk is saved without meeting an existing row. */
  ghost predicate TurnUnopposed(s: System, walk: seq<int>, k: nat)
    requires s.copy.Some? && Store.Walks(walk, s.copy.value.accounts.Keys) && k < |walk|
  {
    var b, l := s.copy.value, walk[k];
    Store.Unopposed(Store.SaveAll(s.tables.(meta := Some(b.meta)), b.accounts, s.persisted, walk[..k]), l, b.accounts[l],
                    Store.Remembered(s.persisted, l))
  }

  lemma FinishKeeps(s: System, outcome: Store.Outcome, walk: seq<int>, clean: bool, acked: bool)
    requires Inv(s, clean, acked) && s.copy.Some? && Store.Walks(walk, s.copy.value.accounts.Keys)
    requires (outcome != Store.Failed ==> AllWhole(s)) && (acked ==> outcome != Store.Unacknowledged)
    ensures Inv(FinishSave(s, outcome, walk), clean, acked)
  {
    hide Consistent, Lineage;
    if outcome != Store.Failed {
      TablesAfter(s, walk, clean, acked);
      hide Store.Holds;
      FinishCounts(s, outcome, clean, acked);
    }
  }

  lemma TablesAfter(s: System, walk: seq<int>, clean: bool, acked: bool)
    requires Inv(s, clean, acked) && s.copy.Some? && Store.Walks(walk, s.copy.value.accounts.Keys) && AllWhole(s)
    ensures var b := s.copy.value;
            var t := s.tables.(meta := Some(b.meta));
            && !Store.AnyClash(t, b.accounts, s.persisted, walk)
            && Store.Holds(Store.SaveAll(t, b.accounts, s.persisted, walk), b.accounts)
            && Store.SaveAll(t, b.accounts, s.persisted, walk).meta == Some(b.meta)
  {
    var held, b := Held(s.saved).accounts, s.copy.value;
    CopySucceeds(s, clean, acked);
    Store.WalksDistinct(walk, b.accounts.Keys);
    hide Consistent, Lineage, Store.Holds, Store.Succeeds, Store.Walks, Store.WholeBook, Held;
    Store.HoldsMeta(s.tables, held, Some(b.meta));
    var t := s.tables.(meta := Some(b.meta));
    Store.SaveAllSettles(t, held, b.accounts, s.persisted, walk);
    Store.WholeHolds(Store.SaveAll(t, b.accounts, s.persisted, walk), held, b.accounts, s.persisted, walk);
  }

  lemma FinishCounts(s: System, outcome: Store.Outcome, clean: bool, acked: bool)
    requires Inv(s, clean, acked) && s.copy.Some? && outcome != Store.Failed && (acked ==> outcome == Store.Committed)
    ensures var b := s.copy.value;
            var after := if outcome == Store.Committed then s.persisted + Store.CountsIn(b.accounts) else s.persisted;
            && (clean ==> Within(after, b.accounts))
            && (acked ==> Exact(after, b.accounts))
  {
    hide Consistent, Store.Holds;
    var v, w := Held(s.saved), WorldOf(s.copy.value);
    var after := if outcome == Store.Committed then s.persisted + Store.CountsIn(w.accounts) else s.persisted;
    forall l: int
      ensures clean ==> var was, a := Store.Remembered(after, l), Store.Known(w.accounts, l);
                        was.history <= |a.history| && was.deals <= |a.deals|
      ensures acked ==> Store.Remembered(after, l) == Store.CountsOf(Store.Known(w.accounts, l))
    {
      var was := Store.Remembered(s.persisted, l);
      assert clean ==> was.history <= |Store.Known(v.accounts, l).history|;
      if clean && l in w.accounts { GrownLists(v, w, l); }
    }
  }

  // ---------- runs ----------

  /** A step the run theorem covers. */
  ghost predicate Covered(s: System, op: Op, clean: bool, acked: bool) {
    match op
    case Work(e) => clean ==> !e.Reset?
    case Finish(outcome, _) =>
      (outcome != Store.Failed ==> AllWhole(s)) && (acked ==> outcome != Store.Unacknowledged)
    case _ => true
  }

  ghost predicate AllCovered(s: System, ops: seq<Op>, clean: bool, acked: bool)
    decreases |ops|
  {
    |ops| > 0 ==> Covered(s, ops[0], clean, acked) && AllCovered(StepSystem(s, ops[0]), ops[1..], clean, acked)
  }

  lemma StepKeeps(s: System, op: Op, clean: bool, acked: bool)
    requires Inv(s, clean, acked) && Covered(s, op, clean, acked)
    ensures Inv(StepSystem(s, op), clean, acked)
  {
    hide Inv, FinishSave, AllWhole;
    match op
    case Work(e) => WorkKeeps(s, e, clean, acked);
    case Copy(request) => CopyKeeps(s, request, clean, acked);
    case Restart => RestartKeeps(s, clean, acked);
    case Finish(outcome, walk) =>
      if s.copy.Some? && Store.Walks(walk, s.copy.value.accounts.Keys) { FinishKeeps(s, outcome, walk, clean, acked); }
  }

  /** Over any run of requests, passes, resets, copies, saves that succeed, fail
      or commit without acknowledgement, and restarts: as long as each book that
      is written passes the check, the tables read back as the last book whose
      save took effect. */
  lemma {:induction false} RunLoads(s: System, ops: seq<Op>, clean: bool, acked: bool)
    requires Inv(s, clean, acked) && AllCovered(s, ops, clean, acked)
    ensures Inv(RunSystem(s, ops), clean, acked)
    ensures Store.Loaded(RunSystem(s, ops).tables) == RunSystem(s, ops).saved
    decreases |ops|
  {
    hide Inv, StepSystem, Covered;
    if |ops| > 0 {
      StepKeeps(s, ops[0], clean, acked);
      RunLoads(StepSystem(s, ops[0]), ops[1..], clean, acked);
    } else {
      InvLoads(s, clean, acked);
    }
  }

  /** While nobody resets an account no check is needed: whatever the outcomes
      of the saves, the tables read back as the last book that was written. */
  lemma {:induction false} RunWithoutResets(s: System, ops: seq<Op>)
    requires Inv(s, true, false) && forall i | 0 <= i < |ops| :: ops[i].Work? ==> !ops[i].event.Reset?
    ensures Store.Loaded(RunSystem(s, ops).tables) == RunSystem(s, ops).saved
    decreases |ops|
  {
    hide Inv, StepSystem, AllWhole;
    if |ops| > 0 {
      CleanWhole(s, false);
      StepKeeps(s, ops[0], true, false);
      RunWithoutResets(StepSystem(s, ops[0]), ops[1..]);
    } else {
      InvLoads(s, true, false);
    }
  }

  /** No save of the run meets an existing row, whether its commit then
      succeeds or fails. */
  ghost predicate NeverOpposed(s: System, ops: seq<Op>)
    decreases |ops|
  {
    |ops| > 0 ==>
      && (ops[0].Finish? && s.copy.Some? && Store.Walks(ops[0].walk, s.copy.value.accounts.Keys) ==>
            forall k | 0 <= k < |ops[0].walk| :: TurnUnopposed(s, ops[0].walk, k))
      && NeverOpposed(StepSystem(s, ops[0]), ops[1..])
  }

  /** The conflict branches of the inserts are only ever needed after a commit
      that was not acknowledged: in any other run none is taken. */
  lemma {:induction false} RunUnopposed(s: System, ops: seq<Op>, clean: bool)
    requires Inv(s, clean, true) && AllCovered(s, ops, clean, true)
    ensures NeverOpposed(s, ops)
    decreases |ops|
  {
    hide Inv, StepSystem, Covered, TurnUnopposed;
    if |ops| > 0 {
      if ops[0].Finish? && s.copy.Some? && Store.Walks(ops[0].walk, s.copy.value.accounts.Keys) {
        forall k: nat | k < |ops[0].walk|
          ensures TurnUnopposed(s, ops[0].walk, k)
        {
          SaveUnopposed(s, clean, ops[0].walk, k);
        }
      }
      StepKeeps(s, ops[0], clean, true);
      RunUnopposed(StepSystem(s, ops[0]), ops[1..], clean);
    }
  }

  // ---------- a deal that a save loses ----------

  function DepositDeal(ticket: int, now: int): Deal {
    Deal(ticket, 0, 7, "", BALANCE_ACTION, ENTRY_IN, 0.0, 0, now, 0, 0, 10000, 0, "")
  }

  function DepositOnly(ticket: int, now: int): Account {
    NewAccount(7, User(10000, "USD")).(deals := [DepositDeal(ticket, now)])
  }

  /** A broker with one empty account, before its first request and save. */
  function OneUser(): System {
    System(World(map[], FIRST_TICKET, map[7 := User(0, "USD")]), None, Store.Tables(None, map[], map[], map[], map[]),
           map[], None)
  }

  function Deposit(m: Feed): Op {
    Work(Move(m, 7, 10000.0, ""))
  }

  /** A deposit is saved; the account is reset, takes another deposit and is
      saved again. */
  function Regrowing(m: Feed, outcome: Store.Outcome): seq<Op> {
    [Deposit(m), Copy(1), Finish(outcome, [7]), Work(Reset(7, 0)), Deposit(m), Copy(2), Finish(Store.Committed, [7])]
  }

  lemma DepositStep(m: Feed, w: World)
    requires w.users == map[7 := User(0, "USD")]
    requires w.accounts == map[] || w.accounts == map[7 := NewAccount(7, User(0, "USD"))]
    ensures Step(w, Move(m, 7, 10000.0, ""))
            == World(map[7 := DepositOnly(w.next, m.now)], w.next + 1, map[7 := User(10000, "USD")])
  {
    var e := Move(m, 7, 10000.0, "");
    StepUnfold(w, e);
    var w1, a := Touched(w, 7), NewAccount(7, User(0, "USD"));
    assert w1 == World(map[7 := a], w.next, w.users);
    var d := StepDesk(DeskOf(w1, 7), e);
    assert d == Desk(DepositOnly(w.next, m.now), w.next + 1) by { RoundWhole(10000); }
    hide Step, StepDesk;
    assert Put(w1, 7, d) == World(map[7 := d.acct], d.next, map[7 := User(10000, "USD")]);
  }

  lemma ResetStep(w: World, ticket: int, now: int)
    requires w.users == map[7 := User(10000, "USD")] && w.accounts == map[7 := DepositOnly(ticket, now)]
    ensures Step(w, Reset(7, 0)) == World(map[7 := NewAccount(7, User(0, "USD"))], w.next, map[7 := User(0, "USD")])
  {
    StepUnfold(w, Reset(7, 0));
    var d := StepDesk(DeskOf(w, 7), Reset(7, 0));
    assert d == Desk(NewAccount(7, User(0, "USD")), w.next);
    hide Step, StepDesk;
    assert Put(w, 7, d) == World(map[7 := d.acct], d.next, map[7 := User(0, "USD")]);
  }

  /** The system once a deposit has been copied for its first save. */
  ghost predicate FirstCopied(s: System, m: Feed) {
    && Inv(s, false, false)
    && s.world == World(map[7 := DepositOnly(600001, m.now)], 600002, map[7 := User(10000, "USD")])
    && s.copy.Some? && s.copy.value.accounts == s.world.accounts
    && s.saved == None && s.persisted == map[]
  }

  /** The system once it has been saved, acknowledged or not. */
  ghost predicate FirstSaved(s: System, m: Feed, outcome: Store.Outcome) {
    && Inv(s, false, false)
    && s.world == World(map[7 := DepositOnly(600001, m.now)], 600002, map[7 := User(10000, "USD")])
    && s.copy.None? && s.saved.Some? && s.saved.value.accounts == s.world.accounts
    && Store.Remembered(s.persisted, 7) == Store.Counts(0, if outcome == Store.Committed then 1 else 0)
  }

  /** The system once the second deposit has been copied for saving. */
  ghost predicate SecondCopied(s: System, m: Feed, outcome: Store.Outcome) {
    && Inv(s, false, false)
    && s.copy.Some? && s.copy.value.accounts == map[7 := DepositOnly(600002, m.now)]
    && s.saved.Some? && s.saved.value.accounts == map[7 := DepositOnly(600001, m.now)]
    && Store.Remembered(s.persisted, 7) == Store.Counts(0, if outcome == Store.Committed then 1 else 0)
  }

  lemma CopiesFirst(m: Feed)
    ensures FirstCopied(StepSystem(StepSystem(OneUser(), Deposit(m)), Copy(1)), m)
  {
    var s := OneUser();
    DepositStep(m, s.world);
    Starts(s.world.users);
    InvWeaker(s);
    hide Inv, Step;
    WorkKeeps(s, Move(m, 7, 10000.0, ""), false, false);
    CopyKeeps(StepSystem(s, Deposit(m)), 1, false, false);
  }

  lemma InvWeaker(s: System)
    requires Inv(s, true, true)
    ensures Inv(s, false, false)
  {
  }

  lemma SavesFirst(s: System, m: Feed, outcome: Store.Outcome)
    requires FirstCopied(s, m) && outcome != Store.Failed
    ensures FirstSaved(StepSystem(s, Finish(outcome, [7])), m, outcome)
  {
    hide Inv, Store.AnyClash, Store.SaveAll, Store.Holds;
    assert Store.Walks([7], s.copy.value.accounts.Keys);
    FirstWhole(s, m);
    hide AllWhole, Store.Walks;
    FinishKeeps(s, outcome, [7], false, false);
    TablesAfter(s, [7], false, false);
  }

  lemma FirstWhole(s: System, m: Feed)
    requires FirstCopied(s, m)
    ensures AllWhole(s)
  {
    hide Inv;
  }

  lemma CopiesSecond(s: System, m: Feed, outcome: Store.Outcome)
    requires FirstSaved(s, m, outcome)
    ensures SecondCopied(StepSystem(StepSystem(StepSystem(s, Work(Reset(7, 0))), Deposit(m)), Copy(2)), m, outcome)
  {
    hide Inv, Step, Store.Remembered;
    var s1 := StepSystem(s, Work(Reset(7, 0)));
    ResetStep(s.world, 600001, m.now);
    DepositStep(m, s1.world);
    WorkKeeps(s, Reset(7, 0), false, false);
    WorkKeeps(s1, Move(m, 7, 10000.0, ""), false, false);
    CopyKeeps(StepSystem(s1, Deposit(m)), 2, false, false);
  }

  lemma RegrownRows(tbl: Table<Deal>, was: nat, d1: Deal, d2: Deal)
    requires ListHeld(tbl, 7, [d1], Store.DealTicket()) && d2.ticket !in tbl && was <= 1 && d1 != d2
    ensures var after := SaveList(tbl, 7, [d2], was, Store.DealTicket(), Store.KeepFirst());
            Reads(after, 7, d1) && (Reads(after, 7, d2) <==> was == 0)
  {
    var after, ticket := SaveList(tbl, 7, [d2], was, Store.DealTicket(), Store.KeepFirst()), Store.DealTicket();
    assert ticket([d1][0]) == d1.ticket && ticket([d2][0]) == d2.ticket;
    var more := tbl[d2.ticket := Row(7, false, 0, d2)];
    assert AppendRows(tbl, 7, [d2], 1, ticket, Store.KeepFirst()) == tbl;
    assert AppendRows(more, 7, [d2], 1, ticket, Store.KeepFirst()) == more;
    if was == 0 {
      assert after == more;
      assert IsListed(after, d2.ticket, 7);
    }
    assert IsListed(after, d1.ticket, 7) && after[d1.ticket].item == d1;
  }

  lemma SecondFails(s: System, m: Feed, outcome: Store.Outcome)
    requires SecondCopied(s, m, outcome)
    ensures Store.Walks([7], s.copy.value.accounts.Keys) && !AllWhole(s)
  {
    hide Inv;
    var held, b := Held(s.saved).accounts, s.copy.value.accounts;
    assert b[7].deals[0] != held[7].deals[0];
    assert !Store.WholeAccount(Store.Remembered(s.persisted, 7), Store.Known(held, 7), b[7]);
  }

  lemma FirstDealHeld(s: System, m: Feed, outcome: Store.Outcome)
    requires SecondCopied(s, m, outcome)
    ensures ListHeld(s.tables.deals, 7, [DepositDeal(600001, m.now)], Store.DealTicket())
    ensures DepositDeal(600002, m.now).ticket !in s.tables.deals
  {
    hide Consistent, Lineage, Store.Owns, Store.Remembered;
    DealRows(s.tables, Held(s.saved).accounts, DepositDeal(600001, m.now));
  }

  lemma DealRows(t: Store.Tables, held: map<int, Account>, d1: Deal)
    requires Store.Holds(t, held) && held.Keys == {7} && held[7].deals == [d1]
    ensures ListHeld(t.deals, 7, [d1], Store.DealTicket())
    ensures forall k | k in t.deals :: k == d1.ticket
  {
    assert 7 in held && Store.AccountHeld(t, 7, held[7]);
    forall k | k in t.deals
      ensures k == d1.ticket
    {
      assert t.deals[k].login in held.Keys;
      assert Store.DealTicket()([d1][0]) == d1.ticket;
    }
  }

  /** A second save is the save of one account. */
  lemma SecondTables(s: System, m: Feed, outcome: Store.Outcome)
    requires SecondCopied(s, m, outcome)
    ensures Store.Walks([7], s.copy.value.accounts.Keys)
    ensures var s' := StepSystem(s, Finish(Store.Committed, [7]));
            && s' == FinishSave(s, Store.Committed, [7]) && s'.saved == s.copy
            && s'.tables.deals == SaveList(s.tables.deals, 7, [DepositDeal(600002, m.now)],
                                           Store.Remembered(s.persisted, 7).deals, Store.DealTicket(), Store.KeepFirst())
  {
    hide Inv, AllWhole, SaveList, Store.AnyClash, Store.SaveAll, Store.Walks, Store.Remembered, StepSystem, FinishSave;
    SecondFails(s, m, outcome);
    NoClash(s, false, false, [7]);
    FinishesSave(s, [7]);
    OneTurn(s.tables.(meta := Some(s.copy.value.meta)), s.copy.value.accounts, s.persisted, 7);
  }

  lemma FinishesSave(s: System, walk: seq<int>)
    requires s.copy.Some? && Store.Walks(walk, s.copy.value.accounts.Keys)
    requires !Store.AnyClash(s.tables.(meta := Some(s.copy.value.meta)), s.copy.value.accounts, s.persisted, walk)
    ensures var s', b := StepSystem(s, Finish(Store.Committed, walk)), s.copy.value;
            && s' == FinishSave(s, Store.Committed, walk) && s'.saved == s.copy
            && s'.tables == Store.SaveAll(s.tables.(meta := Some(b.meta)), b.accounts, s.persisted, walk)
  {
    hide Store.AnyClash, Store.SaveAll, Store.Walks;
  }

  lemma OneTurn(t: Store.Tables, accounts: map<int, Account>, persisted: map<int, Store.Counts>, l: int)
    requires l in accounts
    ensures Store.SaveAll(t, accounts, persisted, [l]) == Store.SaveOne(t, l, accounts[l], Store.Remembered(persisted, l))
  {
    hide Store.SaveOne;
    Store.SaveAllNone(t, accounts, persisted);
    assert [l][..|[l]| - 1] == [];
  }

  /** What the second save does to the deal rows. */
  lemma SavesSecond(s: System, m: Feed, outcome: Store.Outcome)
    requires SecondCopied(s, m, outcome) && outcome != Store.Failed
    ensures var s' := StepSystem(s, Finish(Store.Committed, [7]));
            && s'.saved.Some? && s'.saved.value.accounts == map[7 := DepositOnly(600002, m.now)]
            && Store.Loaded(s'.tables) != s'.saved
            && Reads(s'.tables.deals, 7, DepositDeal(600001, m.now))
            && (Reads(s'.tables.deals, 7, DepositDeal(600002, m.now)) <==> outcome == Store.Unacknowledged)
  {
    SecondFails(s, m, outcome);
    FirstDealHeld(s, m, outcome);
    SecondTables(s, m, outcome);
    hide Inv, AllWhole, Store.Walks, StepSystem, FinishSave, Store.Loaded, SaveList, Reads, ListHeld;
    SaveReadsBack(s, false, false, [7]);
    RegrownRows(s.tables.deals, Store.Remembered(s.persisted, 7).deals, DepositDeal(600001, m.now),
                DepositDeal(600002, m.now));
  }

  lemma ThreeSteps(s: System, a: Op, b: Op, c: Op, rest: seq<Op>)
    ensures RunSystem(s, [a, b, c] + rest) == RunSystem(StepSystem(StepSystem(StepSystem(s, a), b), c), rest)
  {
    hide StepSystem;
    var s1 := StepSystem(s, a);
    var s2 := StepSystem(s1, b);
    assert ([a, b, c] + rest)[1..] == [b, c] + rest;
    assert RunSystem(s1, [b, c] + rest) == RunSystem(s2, [c] + rest) by { assert ([b, c] + rest)[1..] == [c] + rest; }
    assert RunSystem(s2, [c] + rest) == RunSystem(StepSystem(s2, c), rest) by { assert ([c] + rest)[1..] == rest; }
  }

  lemma RegrowingSteps(m: Feed, outcome: Store.Outcome)
    ensures var s3 := StepSystem(StepSystem(StepSystem(OneUser(), Deposit(m)), Copy(1)), Finish(outcome, [7]));
            var s6 := StepSystem(StepSystem(StepSystem(s3, Work(Reset(7, 0))), Deposit(m)), Copy(2));
            RunSystem(OneUser(), Regrowing(m, outcome)) == StepSystem(s6, Finish(Store.Committed, [7]))
  {
    hide StepSystem;
    var s3 := StepSystem(StepSystem(StepSystem(OneUser(), Deposit(m)), Copy(1)), Finish(outcome, [7]));
    var last := [Finish(Store.Committed, [7])];
    var rest := [Work(Reset(7, 0)), Deposit(m), Copy(2)] + last;
    assert Regrowing(m, outcome) == [Deposit(m), Copy(1), Finish(outcome, [7])] + rest;
    ThreeSteps(OneUser(), Deposit(m), Copy(1), Finish(outcome, [7]), rest);
    ThreeSteps(s3, Work(Reset(7, 0)), Deposit(m), Copy(2), last);
    assert last[1..] == [];
  }

  /** The second deposit's deal is not what loading returns. When the first save
      was acknowledged, the old deal stands in its place; when it took effect
      without being acknowledged, the old deal comes back beside it. */
  lemma RegrownDealLost(m: Feed, outcome: Store.Outcome)
    requires outcome != Store.Failed
    ensures var s := RunSystem(OneUser(), Regrowing(m, outcome));
            && s.saved.Some? && s.saved.value.accounts == map[7 := DepositOnly(600002, m.now)]
            && Store.Loaded(s.tables) != s.saved
            && Reads(s.tables.deals, 7, DepositDeal(600001, m.now))
            && (Reads(s.tables.deals, 7, DepositDeal(600002, m.now)) <==> outcome == Store.Unacknowledged)
  {
    hide *;
    var s3 := StepSystem(StepSystem(StepSystem(OneUser(), Deposit(m)), Copy(1)), Finish(outcome, [7]));
    var s6 := StepSystem(StepSystem(StepSystem(s3, Work(Reset(7, 0))), Deposit(m)), Copy(2));
    RegrowingSteps(m, outcome);
    CopiesFirst(m);
    SavesFirst(StepSystem(StepSystem(OneUser(), Deposit(m)), Copy(1)), m, outcome);
    CopiesSecond(s3, m, outcome);
    SavesSecond(s6, m, outcome);
  }
}
