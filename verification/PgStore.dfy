/** The database store as the program runs it: statements queued account by
    account, one transaction, a remembered count per login. Each method is
    proved to do what the functions of Store say. */
module PgStore {
  import opened Market
  import opened Book
  import opened Rows
  import opened Store

  /** Positions and working orders are filed under their own tickets. */
  predicate Filed(a: Account) {
    && (forall t | t in a.positions :: a.positions[t].ticket == t)
    && (forall t | t in a.orders :: a.orders[t].ticket == t)
  }

  lemma Member<T>(m: map<int, T>, s: set<int>)
    requires s <= m.Keys
    ensures s == {} || exists t :: t in s
  {
    if forall t: int :: t !in s { assert s == {}; }
  }

  method WriteOpen<T(!new)>(tbl: Table<T>, l: int, open: map<int, T>, merge: (Row<T>, Row<T>) -> Row<T>)
    returns (after: Table<T>, met: bool)
    ensures after == UpsertOpen(tbl, l, open, merge)
    ensures met <==> exists k | k in open :: k in tbl
  {
    after, met := tbl, false;
    ghost var goal := UpsertOpen(tbl, l, open, merge);
    var rest := open.Keys;
    while rest != {}
      invariant rest <= open.Keys
      invariant after.Keys == tbl.Keys + (open.Keys - rest)
      invariant forall t | t in after ::
                  after[t] == if t in open && t !in rest then goal[t] else tbl[t]
      invariant met <==> exists k | k in open && k !in rest :: k in tbl
      decreases rest
    {
      Member(open, rest);
      var t :| t in rest;
      if t in tbl { met := true; }
      after := Upsert(after, t, Row(l, true, 0, open[t]), merge);
      rest := rest - {t};
    }
    forall t | t in after
      ensures t in goal && after[t] == goal[t]
    {
    }
  }

  method WriteList<T(!new)>(tbl: Table<T>, l: int, list: seq<T>, was: nat, ticket: T -> int,
                            merge: (Row<T>, Row<T>) -> Row<T>)
    returns (after: Table<T>)
    ensures after == SaveList(tbl, l, list, was, ticket, merge)
  {
    after := tbl;
    var i := was;
    if |list| < was {
      after := DropRows(after, l, false);
      i := 0;
    }
    while i < |list|
      invariant AppendRows(after, l, list, i, ticket, merge) == SaveList(tbl, l, list, was, ticket, merge)
    {
      after := Upsert(after, ticket(list[i]), Row(l, false, i, list[i]), merge);
      i := i + 1;
    }
  }

  method WriteAccount(t: Tables, l: int, a: Account, was: Counts) returns (after: Tables, clash: bool)
    ensures after == SaveOne(t, l, a, was)
    ensures clash <==> Clashes(t, l, a)
  {
    var positions, orders, deals, met;
    positions, clash := WriteOpen(DropRows(t.positions, l, true), l, a.positions, KeepFirst());
    orders, met := WriteOpen(DropRows(t.orders, l, true), l, a.orders, MergeOrder());
    orders := WriteList(orders, l, a.history, was.history, OrderTicket(), MergeOrder());
    deals := WriteList(t.deals, l, a.deals, was.deals, DealTicket(), KeepFirst());
    after := Tables(t.meta, t.accounts[l := Header(a)], positions, orders, deals);
  }

  /** ORDER BY login, seq, ticket. */
  method Query<T(!new)>(tbl: Table<T>) returns (rows: seq<int>)
    ensures rows == Ordered(tbl)
  {
    rows := [];
    var rest := tbl;
    while rest.Keys != {}
      invariant Ordered(tbl) == rows + Ordered(rest)
      decreases |rest|
    {
      Member(rest, rest.Keys);
      ghost var some :| some in rest;
      FirstExists(rest, some);
      var f :| f in rest && First(rest, f);
      OrderedFirst(rest, f);
      rows := rows + [f];
      rest := rest - {f};
    }
    assert rest == map[];
  }

  lemma OrderedFirst<T(!new)>(tbl: Table<T>, f: int)
    requires First(tbl, f)
    ensures Ordered(tbl) == [f] + Ordered(tbl - {f})
  {
  }

  method LoadPositions(tbl: Table<Position>, book: map<int, Account>) returns (after: map<int, Account>)
    requires forall l | l in book :: book[l].positions == map[]
    requires forall t | t in tbl :: tbl[t].open
    ensures after == map l | l in book :: book[l].(positions := OpenItems(tbl, l))
  {
    after := book;
    var rest := tbl.Keys;
    while rest != {}
      invariant rest <= tbl.Keys && after.Keys == book.Keys
      invariant forall l | l in book :: after[l] == book[l].(positions := OpenItems(tbl - rest, l))
      decreases rest
    {
      Member(tbl, rest);
      var t :| t in rest;
      var l := tbl[t].login;
      ghost var later := tbl - (rest - {t});
      forall k | k in book
        ensures OpenItems(later, k) == if k == l then OpenItems(tbl - rest, k)[t := tbl[t].item] else OpenItems(tbl - rest, k)
      {
      }
      if l in after {
        after := after[l := after[l].(positions := after[l].positions[t := tbl[t].item])];
      }
      rest := rest - {t};
    }
    assert tbl - rest == tbl;
  }

  /** The open rows among some tickets. */
  function OpenAmong<T(!new)>(tbl: Table<T>, rows: seq<int>, l: int): map<int, T> {
    map t | t in tbl && t in rows && tbl[t].login == l && tbl[t].open :: tbl[t].item
  }

  method LoadOrders(tbl: Table<Order>, book: map<int, Account>) returns (after: map<int, Account>)
    requires forall l | l in book :: book[l].orders == map[] && book[l].history == []
    ensures after == map l | l in book :: book[l].(orders := OpenItems(tbl, l), history := ListItems(tbl, l))
  {
    OrderedInOrder(tbl);
    var rows := Query(tbl);
    RowsIn(tbl, rows);
    hide Ordered, InOrder, OrdersRead;
    after := book;
    OrdersReadNone(tbl, book);
    for i := 0 to |rows|
      invariant OrdersRead(tbl, rows[..i], book, after)
    {
      var t := rows[i];
      var row := tbl[t];
      OrdersReadStep(tbl, rows, i, book, after);
      after := PlaceOrder(after, t, row);
    }
    assert rows[..|rows|] == rows;
    OrdersReadAll(tbl, rows, book, after);
  }

  /** An order row goes to its account's working orders or history; a row of an
      unknown account is skipped. */
  function PlaceOrder(book: map<int, Account>, t: int, row: Row<Order>): map<int, Account> {
    if row.login !in book then book
    else
      var a := book[row.login];
      book[row.login := if row.open then a.(orders := a.orders[t := row.item]) else a.(history := a.history + [row.item])]
  }

  ghost predicate OrdersRead(tbl: Table<Order>, rows: seq<int>, book: map<int, Account>, after: map<int, Account>)
    requires forall t | t in rows :: t in tbl
  {
    && after.Keys == book.Keys
    && forall l | l in book :: after[l] == book[l].(orders := OpenAmong(tbl, rows, l), history := Listed(tbl, rows, l))
  }

  lemma OrdersReadNone(tbl: Table<Order>, book: map<int, Account>)
    requires forall l | l in book :: book[l].orders == map[] && book[l].history == []
    ensures OrdersRead(tbl, [], book, book)
  {
  }

  lemma OrdersReadStep(tbl: Table<Order>, rows: seq<int>, i: nat, book: map<int, Account>, after: map<int, Account>)
    requires (forall j | 0 <= j < |rows| :: rows[j] in tbl) && i < |rows|
    requires OrdersRead(tbl, rows[..i], book, after)
    ensures OrdersRead(tbl, rows[..i + 1], book, PlaceOrder(after, rows[i], tbl[rows[i]]))
  {
    hide OpenAmong, Listed;
    forall l | l in book
      ensures PlaceOrder(after, rows[i], tbl[rows[i]])[l]
              == book[l].(orders := OpenAmong(tbl, rows[..i + 1], l), history := Listed(tbl, rows[..i + 1], l))
    {
      AmongStep(tbl, rows, i, l);
    }
  }

  lemma OrdersReadAll(tbl: Table<Order>, rows: seq<int>, book: map<int, Account>, after: map<int, Account>)
    requires InOrder(tbl, rows) && rows == Ordered(tbl) && OrdersRead(tbl, rows, book, after)
    ensures after == map l | l in book :: book[l].(orders := OpenItems(tbl, l), history := ListItems(tbl, l))
  {
    hide InOrder, Ordered, Listed;
    forall l | l in book
      ensures OpenAmong(tbl, rows, l) == OpenItems(tbl, l)
    {
      AllAmong(tbl, rows, l);
    }
  }

  lemma AllAmong<T(!new)>(tbl: Table<T>, rows: seq<int>, l: int)
    requires InOrder(tbl, rows)
    ensures OpenAmong(tbl, rows, l) == OpenItems(tbl, l)
  {
    forall t | t in tbl
      ensures t in rows
    {
    }
  }

  lemma RowsIn<T(!new)>(tbl: Table<T>, rows: seq<int>)
    requires InOrder(tbl, rows)
    ensures (forall i | 0 <= i < |rows| :: rows[i] in tbl) && (forall t | t in tbl :: t in rows)
  {
  }

  /** One more row opens or extends only its own login's lists. */
  lemma AmongStep<T(!new)>(tbl: Table<T>, rows: seq<int>, i: nat, k: int)
    requires (forall j | 0 <= j < |rows| :: rows[j] in tbl) && i < |rows|
    ensures var row, among := tbl[rows[i]], OpenAmong(tbl, rows[..i], k);
            OpenAmong(tbl, rows[..i + 1], k) == if k == row.login && row.open then among[rows[i] := row.item] else among
    ensures var row, listed := tbl[rows[i]], Listed(tbl, rows[..i], k);
            Listed(tbl, rows[..i + 1], k) == if k == row.login && !row.open then listed + [row.item] else listed
  {
    assert rows[..i + 1][..i] == rows[..i];
    assert rows[..i + 1] == rows[..i] + [rows[i]];
  }

  method LoadDeals(tbl: Table<Deal>, book: map<int, Account>) returns (after: map<int, Account>)
    requires forall l | l in book :: book[l].deals == []
    requires forall t | t in tbl :: !tbl[t].open
    ensures after == map l | l in book :: book[l].(deals := ListItems(tbl, l))
  {
    OrderedInOrder(tbl);
    var rows := Query(tbl);
    RowsIn(tbl, rows);
    hide Ordered, InOrder, DealsRead;
    after := book;
    DealsReadEnds(tbl, rows, book);
    for i := 0 to |rows|
      invariant DealsRead(tbl, rows[..i], book, after)
    {
      DealsReadStep(tbl, rows, i, book, after);
      after := PlaceDeal(after, tbl[rows[i]]);
    }
    assert rows[..|rows|] == rows;
  }

  function PlaceDeal(book: map<int, Account>, row: Row<Deal>): map<int, Account> {
    if row.login !in book then book
    else
      var a := book[row.login];
      book[row.login := a.(deals := a.deals + [row.item])]
  }

  ghost predicate DealsRead(tbl: Table<Deal>, rows: seq<int>, book: map<int, Account>, after: map<int, Account>)
    requires forall t | t in rows :: t in tbl
  {
    && after.Keys == book.Keys
    && forall l | l in book :: after[l] == book[l].(deals := Listed(tbl, rows, l))
  }

  lemma DealsReadEnds(tbl: Table<Deal>, rows: seq<int>, book: map<int, Account>)
    requires (forall l | l in book :: book[l].deals == []) && InOrder(tbl, rows) && rows == Ordered(tbl)
    ensures DealsRead(tbl, [], book, book)
    ensures forall after | DealsRead(tbl, rows, book, after) :: after == map l | l in book :: book[l].(deals := ListItems(tbl, l))
  {
  }

  lemma DealsReadStep(tbl: Table<Deal>, rows: seq<int>, i: nat, book: map<int, Account>, after: map<int, Account>)
    requires (forall j | 0 <= j < |rows| :: rows[j] in tbl) && i < |rows|
    requires DealsRead(tbl, rows[..i], book, after) && forall t | t in tbl :: !tbl[t].open
    ensures DealsRead(tbl, rows[..i + 1], book, PlaceDeal(after, tbl[rows[i]]))
  {
    hide OpenAmong, Listed;
    var t := rows[i];
    assert t in tbl;
    assert !tbl[t].open;
    forall l | l in book
      ensures PlaceDeal(after, tbl[rows[i]])[l] == book[l].(deals := Listed(tbl, rows[..i + 1], l))
    {
      AmongStep(tbl, rows, i, l);
    }
  }

  method LoadHeaders(headers: map<int, AccountRow>) returns (accounts: map<int, Account>)
    ensures accounts == map l | l in headers :: Bare(l, headers[l])
  {
    accounts := map[];
    var rest := headers.Keys;
    while rest != {}
      invariant rest <= headers.Keys
      invariant accounts == map l | l in headers && l !in rest :: Bare(l, headers[l])
      decreases rest
    {
      Member(headers, rest);
      var l :| l in rest;
      accounts := accounts[l := Bare(l, headers[l])];
      rest := rest - {l};
    }
  }

  lemma WalkStep(walk: seq<int>, done: set<int>, l: int)
    requires Walks(walk, done) && l !in done
    ensures Walks(walk + [l], done + {l})
  {
  }

  function Bare(l: int, h: AccountRow): Account {
    Account(l, h.balance, h.credit, h.leverage, h.currency, map[], map[], [], [])
  }

  lemma NothingLoaded(t: Tables)
    requires t.meta.None?
    ensures Loaded(t) == None
  {
  }

  lemma AssembledAt(t: Tables, l: int, header: Account, placed: Account, ordered: Account, a: Account)
    requires l in t.accounts && header == Bare(l, t.accounts[l])
    requires placed == header.(positions := OpenItems(t.positions, l))
    requires ordered == placed.(orders := OpenItems(t.orders, l), history := ListItems(t.orders, l))
    requires a == ordered.(deals := ListItems(t.deals, l))
    ensures a == LoadedAccount(t, l)
  {
    hide OpenItems, ListItems;
  }

  lemma Assembled(t: Tables, headers: map<int, Account>, placed: map<int, Account>, ordered: map<int, Account>,
                  accounts: map<int, Account>)
    requires t.meta.Some? && headers == map l | l in t.accounts :: Bare(l, t.accounts[l])
    requires placed == map l | l in headers :: headers[l].(positions := OpenItems(t.positions, l))
    requires ordered == map l | l in placed :: placed[l].(orders := OpenItems(t.orders, l), history := ListItems(t.orders, l))
    requires accounts == map l | l in ordered :: ordered[l].(deals := ListItems(t.deals, l))
    ensures Loaded(t) == Some(Snapshot(t.meta.value, accounts))
  {
    assert headers.Keys == placed.Keys == ordered.Keys == accounts.Keys == t.accounts.Keys;
    hide OpenItems, ListItems, LoadedAccount, Bare;
    forall l | l in t.accounts
      ensures accounts[l] == LoadedAccount(t, l)
    {
      AssembledAt(t, l, headers[l], placed[l], ordered[l], accounts[l]);
    }
    assert accounts == map l | l in t.accounts :: LoadedAccount(t, l);
  }

  class PgBrokerStore {
    var tables: Tables
    var persisted: map<int, Counts>

    constructor (tables: Tables)
      ensures this.tables == tables && persisted == map[]
    {
      this.tables := tables;
      persisted := map[];
    }

    method Save(s: Snapshot, outcome: Outcome) returns (ok: bool, ghost walk: seq<int>)
      requires forall l | l in s.accounts :: Filed(s.accounts[l])
      modifies this
      ensures Walks(walk, s.accounts.Keys)
      ensures var t := old(tables).(meta := Some(s.meta));
              var through := outcome != Failed && !AnyClash(t, s.accounts, old(persisted), walk);
              && (ok <==> outcome == Committed && through)
              && tables == (if through then SaveAll(t, s.accounts, old(persisted), walk) else old(tables))
      ensures persisted == if ok then old(persisted) + CountsIn(s.accounts) else old(persisted)
    {
      var work := tables.(meta := Some(s.meta));
      ghost var start := work;
      var clash := false;
      var next: map<int, Counts> := map[];
      walk := [];
      var rest := s.accounts.Keys;
      SaveAllNone(start, s.accounts, persisted);
      hide SaveAll, AnyClash, SaveOne, Clashes, CountsOf, Remembered, Filed;
      while rest != {}
        invariant tables == old(tables) && persisted == old(persisted)
        invariant rest <= s.accounts.Keys && Walks(walk, s.accounts.Keys - rest)
        invariant work == SaveAll(start, s.accounts, persisted, walk)
        invariant clash <==> AnyClash(start, s.accounts, persisted, walk)
        invariant next == map l | l in s.accounts && l !in rest :: CountsOf(s.accounts[l])
        decreases rest
      {
        Member(s.accounts, rest);
        var l :| l in rest;
        var met;
        work, met := WriteAccount(work, l, s.accounts[l], Remembered(persisted, l));
        SaveAllLast(start, s.accounts, persisted, walk, l);
        WalkStep(walk, s.accounts.Keys - rest, l);
        assert s.accounts.Keys - rest + {l} == s.accounts.Keys - (rest - {l});
        clash, next := clash || met, next[l := CountsOf(s.accounts[l])];
        walk := walk + [l];
        rest := rest - {l};
      }
      assert s.accounts.Keys - rest == s.accounts.Keys;
      assert next == CountsIn(s.accounts);
      ok := false;
      if !clash && outcome != Failed {
        tables := work;
        if outcome == Committed {
          persisted := persisted + next;
          ok := true;
        }
      }
    }

    method Load() returns (s: Option<Snapshot>)
      requires OneSort(tables)
      modifies this`persisted
      ensures s == Loaded(tables)
      ensures persisted == if s.None? then old(persisted)
                           else old(persisted) + CountsIn(s.value.accounts)
    {
      hide Loaded, OpenItems, ListItems;
      if tables.meta.None? {
        NothingLoaded(tables);
        return None;
      }
      var headers := LoadHeaders(tables.accounts);
      var placed := LoadPositions(tables.positions, headers);
      var ordered := LoadOrders(tables.orders, placed);
      var accounts := LoadDeals(tables.deals, ordered);
      Assembled(tables, headers, placed, ordered, accounts);
      persisted := persisted + CountsIn(accounts);
      s := Some(Snapshot(tables.meta.value, accounts));
    }
  }
}
