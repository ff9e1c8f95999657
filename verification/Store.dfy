/** Saving the book incrementally: only history and deals past a remembered
    count are written; positions and working orders are rewritten. */
module Store {
  import opened Market
  import opened Book
  import opened Rows

  datatype AccountRow = AccountRow(balance: int, credit: int, leverage: int, currency: string)

  /** How many history and deal rows of a login are believed to be stored. */
  datatype Counts = Counts(history: nat, deals: nat)

  /** The next ticket and the next request number, once saved. */
  datatype Meta = Meta(next: int, request: int)

  datatype Tables = Tables(
    meta: Option<Meta>, accounts: map<int, AccountRow>,
    positions: Table<Position>, orders: Table<Order>, deals: Table<Deal>)

  /** A copy of the book taken under the engine's lock. */
  datatype Snapshot = Snapshot(meta: Meta, accounts: map<int, Account>)

  /** A commit can also take effect and still report an error. */
  datatype Outcome = Committed | Failed | Unacknowledged

  function OrderTicket(): Order -> int {
    (o: Order) => o.ticket
  }

  function DealTicket(): Deal -> int {
    (d: Deal) => d.ticket
  }

  function PositionTicket(): Position -> int {
    (p: Position) => p.ticket
  }

  /** The conflict branch for orders keeps what an order cannot change. */
  function MergeOrder(): (Row<Order>, Row<Order>) -> Row<Order> {
    (old_: Row<Order>, new_: Row<Order>) =>
      var o := old_.item;
      Row(old_.login, new_.open, new_.place,
          new_.item.(ticket := o.ticket, login := o.login, symbol := o.symbol, kind := o.kind,
                     timeSetup := o.timeSetup, volumeInitial := o.volumeInitial))
  }

  /** DO NOTHING. */
  function KeepFirst<T>(): (Row<T>, Row<T>) -> Row<T> {
    (old_: Row<T>, new_: Row<T>) => old_
  }

  function CountsOf(a: Account): Counts {
    Counts(|a.history|, |a.deals|)
  }

  function CountsIn(accounts: map<int, Account>): map<int, Counts> {
    map l | l in accounts :: CountsOf(accounts[l])
  }

  function Remembered(persisted: map<int, Counts>, l: int): Counts {
    if l in persisted then persisted[l] else Counts(0, 0)
  }

  function Header(a: Account): AccountRow {
    AccountRow(a.balance, a.credit, a.leverage, a.currency)
  }

  function SaveOrders(tbl: Table<Order>, l: int, a: Account, was: nat): Table<Order> {
    SaveList(SaveOpen(tbl, l, a.orders, MergeOrder()), l, a.history, was, OrderTicket(), MergeOrder())
  }

  function SaveOne(t: Tables, l: int, a: Account, was: Counts): Tables {
    Tables(t.meta, t.accounts[l := Header(a)],
           SaveOpen(t.positions, l, a.positions, KeepFirst()),
           SaveOrders(t.orders, l, a, was.history),
           SaveList(t.deals, l, a.deals, was.deals, DealTicket(), KeepFirst()))
  }

  /** A position row has no conflict branch: an existing ticket is an error. */
  predicate Clashes(t: Tables, l: int, a: Account) {
    exists k | k in a.positions :: k in DropRows(t.positions, l, true)
  }

  function SaveAll(t: Tables, accounts: map<int, Account>, persisted: map<int, Counts>, walk: seq<int>): Tables
    requires forall l | l in walk :: l in accounts
    decreases |walk|
  {
    if |walk| == 0 then t
    else
      var before := SaveAll(t, accounts, persisted, walk[..|walk| - 1]);
      var l := walk[|walk| - 1];
      SaveOne(before, l, accounts[l], Remembered(persisted, l))
  }

  predicate AnyClash(t: Tables, accounts: map<int, Account>, persisted: map<int, Counts>, walk: seq<int>)
    requires forall l | l in walk :: l in accounts
    decreases |walk|
  {
    |walk| > 0
    && var rest := walk[..|walk| - 1];
       var l := walk[|walk| - 1];
       AnyClash(t, accounts, persisted, rest) || Clashes(SaveAll(t, accounts, persisted, rest), l, accounts[l])
  }

  // ---------- reading ----------

  function OpenItems<T(!new)>(tbl: Table<T>, l: int): map<int, T> {
    map t | t in tbl && tbl[t].login == l && tbl[t].open :: tbl[t].item
  }

  ghost function ListItems<T(!new)>(tbl: Table<T>, l: int): seq<T> {
    OrderedInOrder(tbl);
    Listed(tbl, Ordered(tbl), l)
  }

  ghost function LoadedAccount(t: Tables, l: int): Account
    requires l in t.accounts
  {
    var h := t.accounts[l];
    Account(l, h.balance, h.credit, h.leverage, h.currency, OpenItems(t.positions, l), OpenItems(t.orders, l),
            ListItems(t.orders, l), ListItems(t.deals, l))
  }

  ghost function Loaded(t: Tables): Option<Snapshot> {
    match t.meta
    case None => None
    case Some(meta) => Some(Snapshot(meta, map l | l in t.accounts :: LoadedAccount(t, l)))
  }

  // ---------- what the tables hold ----------

  ghost predicate AccountHeld(t: Tables, l: int, a: Account) {
    && OpenHeld(t.positions, l, a.positions) && ListHeld(t.positions, l, [], PositionTicket())
    && OpenHeld(t.orders, l, a.orders) && ListHeld(t.orders, l, a.history, OrderTicket())
    && OpenHeld(t.deals, l, map[]) && ListHeld(t.deals, l, a.deals, DealTicket())
  }

  /** The tables are exactly the book. */
  ghost predicate Holds(t: Tables, book: map<int, Account>) {
    && t.accounts.Keys == book.Keys
    && (forall l | l in book :: t.accounts[l] == Header(book[l]) && book[l].login == l && AccountHeld(t, l, book[l]))
    && (forall k | k in t.positions :: t.positions[k].login in book)
    && (forall k | k in t.orders :: t.orders[k].login in book)
    && (forall k | k in t.deals :: t.deals[k].login in book)
  }

  /** The position and deal tables have no working flag: their rows are all of
      one sort. */
  predicate OneSort(t: Tables) {
    (forall k | k in t.positions :: t.positions[k].open) && (forall k | k in t.deals :: !t.deals[k].open)
  }

  /** Tables that hold a book read back as that book, every list in order. */
  lemma LoadExact(t: Tables, s: Snapshot)
    requires Holds(t, s.accounts) && t.meta == Some(s.meta)
    ensures Loaded(t) == Some(s)
  {
    var got := map l | l in t.accounts :: LoadedAccount(t, l);
    forall l | l in s.accounts
      ensures LoadedAccount(t, l) == s.accounts[l]
    {
      LoadAccountExact(t, l, s.accounts[l]);
    }
    assert got == s.accounts;
  }

  lemma LoadAccountExact(t: Tables, l: int, a: Account)
    requires l in t.accounts && t.accounts[l] == Header(a) && a.login == l && AccountHeld(t, l, a)
    ensures LoadedAccount(t, l) == a
  {
    OpenItemsExact(t.positions, l, a.positions);
    OpenItemsExact(t.orders, l, a.orders);
    ListItemsExact(t.orders, l, a.history, OrderTicket());
    ListItemsExact(t.deals, l, a.deals, DealTicket());
  }

  lemma OpenItemsExact<T(!new)>(tbl: Table<T>, l: int, open: map<int, T>)
    requires OpenHeld(tbl, l, open)
    ensures OpenItems(tbl, l) == open
  {
    var got := OpenItems(tbl, l);
    forall t | t in open
      ensures t in got && got[t] == open[t]
    {
      assert tbl[t] == Row(l, true, 0, open[t]);
    }
    forall t | t in got
      ensures t in open
    {
      assert t in tbl && tbl[t].login == l && tbl[t].open;
    }
  }

  lemma ListItemsExact<T(!new)>(tbl: Table<T>, l: int, list: seq<T>, ticket: T -> int)
    requires ListHeld(tbl, l, list, ticket)
    ensures ListItems(tbl, l) == list
  {
    OrderedInOrder(tbl);
    ListedExact(tbl, Ordered(tbl), l, list, ticket);
  }

  // ---------- what a saved account must satisfy ----------

  ghost predicate HistoryHas(h: seq<Order>, t: int) {
    exists i :: 0 <= i < |h| && h[i].ticket == t
  }

  ghost predicate DealsHave(ds: seq<Deal>, t: int) {
    exists i :: 0 <= i < |ds| && ds[i].ticket == t
  }

  /** The tickets under which the account has rows. */
  ghost predicate Owns(a: Account, t: int) {
    t in a.positions || t in a.orders || HistoryHas(a.history, t) || DealsHave(a.deals, t)
  }

  ghost predicate Disjoint(a: Account, b: Account) {
    forall t: int :: !(Owns(a, t) && Owns(b, t))
  }

  /** Within one account no order ticket and no deal ticket appears twice. */
  ghost predicate Singular(a: Account) {
    && TicketsDiffer(a.history, 0, OrderTicket())
    && TicketsDiffer(a.deals, 0, DealTicket())
    && (forall i | 0 <= i < |a.history| :: a.history[i].ticket !in a.orders)
  }

  function Blank(l: int): Account {
    Account(l, 0, 0, 0, "", map[], map[], [], [])
  }

  function Known(book: map<int, Account>, l: int): Account {
    if l in book then book[l] else Blank(l)
  }

  /** How an account relates to its last stored state: it grew, or it was
      emptied and holds nothing of before. */
  ghost predicate Descends(held: Account, a: Account) {
    || (held.history <= a.history && held.deals <= a.deals)
    || Disjoint(held, a)
  }

  ghost predicate CountsFit(was: Counts, held: Account, a: Account) {
    Fits(was.history, held.history, a.history) && Fits(was.deals, held.deals, a.deals)
  }

  function StoredAccount(was: Counts, held: Account, a: Account): Account {
    a.(history := Stored(was.history, held.history, a.history), deals := Stored(was.deals, held.deals, a.deals))
  }

  /** A ticket of the account carries no other login's row. */
  ghost predicate OwnRows(t: Tables, l: int, a: Account) {
    forall k: int | Owns(a, k) :: Unclaimed(t.positions, l, k) && Unclaimed(t.orders, l, k) && Unclaimed(t.deals, l, k)
  }

  /** What saving one account may assume, whatever counts are remembered: the
      tables hold its earlier state, it descends from that, and its tickets are
      its own. */
  ghost predicate Ready(t: Tables, l: int, held: Account, a: Account) {
    && AccountHeld(t, l, held) && a.login == l && Singular(a) && Descends(held, a) && OwnRows(t, l, a)
  }

  ghost predicate Savable(book: map<int, Account>, l: int, a: Account, was: Counts) {
    && a.login == l && Singular(a) && Descends(Known(book, l), a) && CountsFit(was, Known(book, l), a)
    && forall k | k in book && k != l :: Disjoint(a, book[k])
  }

  lemma HeldOrBlank(t: Tables, held: map<int, Account>, l: int)
    requires Holds(t, held)
    ensures AccountHeld(t, l, Known(held, l))
  {
  }

  /** Every row of an account is under a ticket that it owns. */
  lemma RowsOwned(t: Tables, l: int, a: Account)
    requires AccountHeld(t, l, a)
    ensures forall k | k in t.positions && t.positions[k].login == l :: Owns(a, k)
    ensures forall k | k in t.orders && t.orders[k].login == l :: Owns(a, k)
    ensures forall k | k in t.deals && t.deals[k].login == l :: Owns(a, k)
  {
    forall k | k in t.orders && t.orders[k].login == l
      ensures Owns(a, k)
    {
      if !t.orders[k].open { assert HistoryHas(a.history, k); }
    }
    forall k | k in t.deals && t.deals[k].login == l
      ensures Owns(a, k)
    {
      assert a.deals[t.deals[k].place].ticket == k;
      assert DealsHave(a.deals, k);
    }
  }

  lemma SavableReady(t: Tables, book: map<int, Account>, l: int, a: Account, was: Counts)
    requires Holds(t, book) && Savable(book, l, a, was)
    ensures Ready(t, l, Known(book, l), a) && CountsFit(was, Known(book, l), a)
  {
    HeldOrBlank(t, book, l);
    Unowned(t, book, l, a);
    hide AccountHeld, OwnRows, Singular, Descends, Known;
  }

  lemma Unowned(t: Tables, book: map<int, Account>, l: int, a: Account)
    requires Holds(t, book) && forall j | j in book && j != l :: Disjoint(a, book[j])
    ensures OwnRows(t, l, a)
  {
    hide AccountHeld, Owns;
    forall j | j in book
      ensures forall k | k in t.positions && t.positions[k].login == j :: Owns(book[j], k)
      ensures forall k | k in t.orders && t.orders[k].login == j :: Owns(book[j], k)
      ensures forall k | k in t.deals && t.deals[k].login == j :: Owns(book[j], k)
    {
      RowsOwned(t, j, book[j]);
    }
  }

  // ---------- saving one account ----------

  lemma PositionsSaved(t: Tables, l: int, held: Account, a: Account, was: Counts)
    requires Ready(t, l, held, a)
    ensures !Clashes(t, l, a)
    ensures var after := SaveOne(t, l, a, was).positions;
            OpenHeld(after, l, a.positions) && ListHeld(after, l, [], PositionTicket()) && OthersKept(t.positions, after, l)
  {
    forall k | k in a.positions
      ensures Unclaimed(t.positions, l, k)
    {
      assert Owns(a, k);
    }
    SaveOpenExact(t.positions, l, a.positions, [], PositionTicket(), KeepFirst());
  }

  lemma DealsUnclaimed(t: Tables, l: int, a: Account)
    requires OwnRows(t, l, a)
    ensures forall i | 0 <= i < |a.deals| :: Unclaimed(t.deals, l, DealTicket()(a.deals[i]))
  {
    forall i | 0 <= i < |a.deals|
      ensures Unclaimed(t.deals, l, DealTicket()(a.deals[i]))
    {
      assert DealsHave(a.deals, a.deals[i].ticket) && Owns(a, a.deals[i].ticket);
    }
  }

  lemma DealsRelated(held: Account, a: Account)
    requires Descends(held, a)
    ensures held.deals <= a.deals || Unrelated(held.deals, a.deals, DealTicket())
  {
    if !(held.deals <= a.deals) {
      forall i, j | 0 <= i < |held.deals| && 0 <= j < |a.deals|
        ensures DealTicket()(held.deals[i]) != DealTicket()(a.deals[j])
      {
        assert DealsHave(held.deals, held.deals[i].ticket) && DealsHave(a.deals, a.deals[j].ticket);
        assert Owns(held, held.deals[i].ticket) && Owns(a, a.deals[j].ticket);
      }
    }
  }

  lemma DealsAppendable(t: Tables, l: int, held: Account, a: Account)
    requires Ready(t, l, held, a)
    ensures Appendable(t.deals, l, map[], held.deals, a.deals, DealTicket())
  {
    hide Owns, Descends, OwnRows;
    DealsUnclaimed(t, l, a);
    DealsRelated(held, a);
  }

  lemma DealsSaved(t: Tables, l: int, held: Account, a: Account, was: Counts)
    requires Ready(t, l, held, a) && Fits(was.deals, held.deals, a.deals)
    ensures var after := SaveOne(t, l, a, was).deals;
            OpenHeld(after, l, map[]) && ListHeld(after, l, Stored(was.deals, held.deals, a.deals), DealTicket())
  {
    DealsAppendable(t, l, held, a);
    hide Ready, Stored, Fits;
    SaveListExact(t.deals, l, map[], held.deals, a.deals, was.deals, DealTicket(), KeepFirst());
  }

  lemma DealsElsewhere(t: Tables, l: int, held: Account, a: Account, was: Counts)
    requires Ready(t, l, held, a)
    ensures var after := SaveOne(t, l, a, was).deals;
            && OthersKept(t.deals, after, l)
            && (forall k | k in after && after[k].login == l :: Owns(held, k) || Owns(a, k))
  {
    DealsUnclaimed(t, l, a);
    SaveListOthers(t.deals, l, a.deals, was.deals, DealTicket(), KeepFirst());
    var after := SaveOne(t, l, a, was).deals;
    forall k | k in after && after[k].login == l
      ensures Owns(held, k) || Owns(a, k)
    {
      if k !in t.deals { assert DealsHave(a.deals, k); }
    }
  }

  lemma HeldHistoryNotWorking(held: Account, a: Account)
    requires Singular(a) && Descends(held, a)
    ensures forall i | 0 <= i < |held.history| :: OrderTicket()(held.history[i]) !in a.orders
    ensures held.history <= a.history || Unrelated(held.history, a.history, OrderTicket())
  {
    var h, ticket := held.history, OrderTicket();
    if h <= a.history {
      assert forall i | 0 <= i < |h| :: h[i] == a.history[i];
    } else {
      forall i | 0 <= i < |h|
        ensures ticket(h[i]) !in a.orders
        ensures forall j | 0 <= j < |a.history| :: ticket(h[i]) != ticket(a.history[j])
      {
        assert HistoryHas(h, h[i].ticket) && Owns(held, h[i].ticket);
        assert !Owns(a, h[i].ticket);
      }
    }
  }

  lemma OrdersUnclaimed(t: Tables, l: int, a: Account)
    requires OwnRows(t, l, a)
    ensures forall k | k in a.orders :: Unclaimed(t.orders, l, k)
    ensures forall i | 0 <= i < |a.history| :: Unclaimed(t.orders, l, OrderTicket()(a.history[i]))
  {
    forall k | k in a.orders
      ensures Unclaimed(t.orders, l, k)
    {
      assert Owns(a, k);
    }
    forall i | 0 <= i < |a.history|
      ensures Unclaimed(t.orders, l, OrderTicket()(a.history[i]))
    {
      assert HistoryHas(a.history, a.history[i].ticket) && Owns(a, a.history[i].ticket);
    }
  }

  /** The order table once the working orders are rewritten. */
  function Midway(t: Tables, l: int, a: Account): Table<Order> {
    SaveOpen(t.orders, l, a.orders, MergeOrder())
  }

  lemma OrdersAppendable(t: Tables, l: int, held: Account, a: Account)
    requires Ready(t, l, held, a)
    ensures forall k | k in a.orders :: k !in DropRows(t.orders, l, true)
    ensures OthersKept(t.orders, Midway(t, l, a), l)
    ensures Appendable(Midway(t, l, a), l, a.orders, held.history, a.history, OrderTicket())
  {
    HeldHistoryNotWorking(held, a);
    OrdersUnclaimed(t, l, a);
    hide Owns, Descends, OwnRows;
    SaveOpenExact(t.orders, l, a.orders, held.history, OrderTicket(), MergeOrder());
    UnclaimedKept(t.orders, Midway(t, l, a), l, a.history, OrderTicket());
  }

  lemma OrdersSaved(t: Tables, l: int, held: Account, a: Account, was: Counts)
    requires Ready(t, l, held, a) && Fits(was.history, held.history, a.history)
    ensures var after := SaveOne(t, l, a, was).orders;
            OpenHeld(after, l, a.orders) && ListHeld(after, l, Stored(was.history, held.history, a.history), OrderTicket())
  {
    OrdersAppendable(t, l, held, a);
    hide Ready, Stored, Fits;
    SaveListExact(Midway(t, l, a), l, a.orders, held.history, a.history, was.history, OrderTicket(), MergeOrder());
  }

  lemma OrdersElsewhere(t: Tables, l: int, held: Account, a: Account, was: Counts)
    requires Ready(t, l, held, a)
    ensures var after := SaveOne(t, l, a, was).orders;
            && OthersKept(t.orders, after, l)
            && (forall k | k in after && after[k].login == l :: Owns(held, k) || Owns(a, k))
  {
    OrdersAppendable(t, l, held, a);
    var mid, after := Midway(t, l, a), SaveOne(t, l, a, was).orders;
    MidwayOwned(t, l, held, a);
    hide Ready, Midway, SaveList;
    SaveListOthers(mid, l, a.history, was.history, OrderTicket(), MergeOrder());
    OthersTrans(t.orders, mid, after, l);
    hide OthersKept;
    forall k | k in after && after[k].login == l
      ensures Owns(held, k) || Owns(a, k)
    {
      if k !in mid { assert HistoryHas(a.history, k); }
    }
  }

  lemma MidwayOwned(t: Tables, l: int, held: Account, a: Account)
    requires Ready(t, l, held, a)
    ensures var mid := Midway(t, l, a); forall k | k in mid && mid[k].login == l :: Owns(held, k) || Owns(a, k)
  {
    OrdersAppendable(t, l, held, a);
    var mid := Midway(t, l, a);
    forall k | k in mid && mid[k].login == l
      ensures Owns(held, k) || Owns(a, k)
    {
      if !mid[k].open { assert HistoryHas(held.history, k); }
    }
  }

  /** The save of one account meets no existing row: no insert takes its
      conflict branch, and no position is refused. */
  ghost predicate Unopposed(t: Tables, l: int, a: Account, was: Counts) {
    && !Clashes(t, l, a)
    && (forall k | k in a.orders :: k !in DropRows(t.orders, l, true))
    && ListUnopposed(Midway(t, l, a), l, a.history, was.history, OrderTicket(), MergeOrder())
    && ListUnopposed(t.deals, l, a.deals, was.deals, DealTicket(), KeepFirst())
  }

  /** With exact counts no insert of the save, of a position, order or deal,
      meets an existing row: the conflict branches are never taken. */
  lemma NoConflict(t: Tables, book: map<int, Account>, l: int, a: Account)
    requires Holds(t, book) && Savable(book, l, a, CountsOf(Known(book, l)))
    ensures Unopposed(t, l, a, CountsOf(Known(book, l)))
  {
    var was, held := CountsOf(Known(book, l)), Known(book, l);
    SavableReady(t, book, l, a, was);
    PositionsSaved(t, l, held, a, was);
    OrdersAppendable(t, l, held, a);
    DealsAppendable(t, l, held, a);
    hide Ready, Appendable, Holds, Savable, Clashes;
    SaveListFresh(Midway(t, l, a), l, a.orders, held.history, a.history, was.history, OrderTicket(), MergeOrder());
    SaveListFresh(t.deals, l, map[], held.deals, a.deals, was.deals, DealTicket(), KeepFirst());
  }

  lemma UnclaimedKept<T(!new)>(tbl: Table<T>, mid: Table<T>, l: int, list: seq<T>, ticket: T -> int)
    requires OthersKept(tbl, mid, l) && forall i | 0 <= i < |list| :: Unclaimed(tbl, l, ticket(list[i]))
    ensures forall i | 0 <= i < |list| :: Unclaimed(mid, l, ticket(list[i]))
  {
  }

  lemma OthersTrans<T(!new)>(tbl: Table<T>, mid: Table<T>, after: Table<T>, l: int)
    requires OthersKept(tbl, mid, l) && OthersKept(mid, after, l)
    ensures OthersKept(tbl, after, l)
  {
  }

  lemma OthersHeld<T(!new)>(tbl: Table<T>, after: Table<T>, l: int, k: int, open: map<int, T>, list: seq<T>,
                            ticket: T -> int)
    requires OthersKept(tbl, after, l) && k != l && OpenHeld(tbl, k, open) && ListHeld(tbl, k, list, ticket)
    ensures OpenHeld(after, k, open) && ListHeld(after, k, list, ticket)
  {
    forall i | 0 <= i < |list|
      ensures ticket(list[i]) in after && after[ticket(list[i])] == tbl[ticket(list[i])]
    {
      var t := ticket(list[i]);
      assert t in tbl && tbl[t].login == k;
    }
  }

  /** No row of any other login changes. */
  ghost predicate ElsewhereKept(t: Tables, t': Tables, l: int) {
    OthersKept(t.positions, t'.positions, l) && OthersKept(t.orders, t'.orders, l) && OthersKept(t.deals, t'.deals, l)
  }

  lemma HeldKept(t: Tables, t': Tables, l: int, k: int, a: Account)
    requires ElsewhereKept(t, t', l) && k != l && AccountHeld(t, k, a)
    ensures AccountHeld(t', k, a)
  {
    hide OthersKept, OpenHeld, ListHeld;
    OthersHeld(t.positions, t'.positions, l, k, a.positions, [], PositionTicket());
    OthersHeld(t.orders, t'.orders, l, k, a.orders, a.history, OrderTicket());
    OthersHeld(t.deals, t'.deals, l, k, map[], a.deals, DealTicket());
  }

  lemma SaveOneElsewhere(t: Tables, l: int, held: Account, a: Account, was: Counts)
    requires Ready(t, l, held, a)
    ensures ElsewhereKept(t, SaveOne(t, l, a, was), l)
  {
    PositionsSaved(t, l, held, a, was);
    OrdersElsewhere(t, l, held, a, was);
    DealsElsewhere(t, l, held, a, was);
  }

  lemma SaveOneHeader(t: Tables, l: int, a: Account, was: Counts)
    ensures SaveOne(t, l, a, was).accounts == t.accounts[l := Header(a)] && SaveOne(t, l, a, was).meta == t.meta
  {
  }

  /** Saving an account that descends from its stored state leaves tables that
      hold the book with that account stored and every other untouched. */
  lemma SaveOneExact(t: Tables, book: map<int, Account>, l: int, a: Account, was: Counts)
    requires Holds(t, book) && Savable(book, l, a, was)
    ensures !Clashes(t, l, a)
    ensures Holds(SaveOne(t, l, a, was), book[l := StoredAccount(was, Known(book, l), a)])
  {
    var t', held := SaveOne(t, l, a, was), Known(book, l);
    SavableReady(t, book, l, a, was);
    PositionsSaved(t, l, held, a, was);
    OrdersSaved(t, l, held, a, was);
    DealsSaved(t, l, held, a, was);
    SaveOneElsewhere(t, l, held, a, was);
    SaveOneHeader(t, l, a, was);
    hide Ready, Savable, Known, SaveOne, Clashes, OpenHeld, ListHeld, ElsewhereKept;
    ElsewhereHeld(t, t', book, l);
    HoldsPut(t, t', book, l, StoredAccount(was, held, a));
  }

  lemma HoldsPut(t: Tables, t': Tables, book: map<int, Account>, l: int, a: Account)
    requires t'.accounts == t.accounts[l := Header(a)] && t.accounts.Keys == book.Keys && a.login == l
    requires forall k | k in book && k != l :: t.accounts[k] == Header(book[k]) && book[k].login == k
    requires AccountHeld(t', l, a)
    requires forall k | k in book && k != l :: AccountHeld(t', k, book[k])
    requires forall k | k in t'.positions :: t'.positions[k].login == l || t'.positions[k].login in book
    requires forall k | k in t'.orders :: t'.orders[k].login == l || t'.orders[k].login in book
    requires forall k | k in t'.deals :: t'.deals[k].login == l || t'.deals[k].login in book
    ensures Holds(t', book[l := a])
  {
  }

  lemma ElsewhereHeld(t: Tables, t': Tables, book: map<int, Account>, l: int)
    requires Holds(t, book) && ElsewhereKept(t, t', l)
    ensures forall k | k in book && k != l :: AccountHeld(t', k, book[k])
    ensures forall k | k in t'.positions :: t'.positions[k].login == l || t'.positions[k].login in book
    ensures forall k | k in t'.orders :: t'.orders[k].login == l || t'.orders[k].login in book
    ensures forall k | k in t'.deals :: t'.deals[k].login == l || t'.deals[k].login in book
  {
    hide AccountHeld;
    forall k | k in book && k != l
      ensures AccountHeld(t', k, book[k])
    {
      HeldKept(t, t', l, k, book[k]);
    }
  }

  // ---------- saving a book ----------

  ghost predicate Walks(walk: seq<int>, s: set<int>) {
    && (forall l :: l in walk <==> l in s)
    && (forall i, j | 0 <= i < j < |walk| :: walk[i] != walk[j])
  }

  ghost predicate Distinct(walk: seq<int>) {
    forall i, j | 0 <= i < j < |walk| :: walk[i] != walk[j]
  }

  lemma WalksDistinct(walk: seq<int>, s: set<int>)
    requires Walks(walk, s)
    ensures Distinct(walk) && forall l | l in walk :: l in s
  {
  }

  /** The book after storing some accounts over what was held. */
  ghost function StoredBook(held: map<int, Account>, accounts: map<int, Account>, persisted: map<int, Counts>,
                            walk: seq<int>): map<int, Account>
    requires forall l | l in walk :: l in accounts
  {
    map l | l in held.Keys + (set k | k in walk) ::
      if l in walk then StoredAccount(Remembered(persisted, l), Known(held, l), accounts[l]) else held[l]
  }

  /** How the book relates to the stored one: accounts never vanish, each one
      descends from its stored state, and no ticket changes hands. */
  ghost predicate Succeeds(held: map<int, Account>, accounts: map<int, Account>) {
    && held.Keys <= accounts.Keys
    && (forall l | l in accounts :: accounts[l].login == l && Singular(accounts[l]) && Descends(Known(held, l), accounts[l]))
    && (forall l, k | l in accounts && k in held && l != k :: Disjoint(accounts[l], held[k]))
    && (forall l, k | l in accounts && k in accounts && l != k :: Disjoint(accounts[l], accounts[k]))
  }

  ghost predicate AllFit(held: map<int, Account>, accounts: map<int, Account>, persisted: map<int, Counts>) {
    forall l | l in accounts :: CountsFit(Remembered(persisted, l), Known(held, l), accounts[l])
  }

  lemma StoredOwns(was: Counts, held: Account, a: Account, t: int)
    requires Owns(StoredAccount(was, held, a), t)
    ensures Owns(a, t) || Owns(held, t)
  {
  }

  lemma SavableStep(held: map<int, Account>, accounts: map<int, Account>, persisted: map<int, Counts>, walk: seq<int>,
                    l: int)
    requires Succeeds(held, accounts) && AllFit(held, accounts, persisted)
    requires (forall k | k in walk :: k in accounts) && l in accounts && l !in walk
    ensures Savable(StoredBook(held, accounts, persisted, walk), l, accounts[l], Remembered(persisted, l))
  {
    var book, a := StoredBook(held, accounts, persisted, walk), accounts[l];
    assert Known(book, l) == Known(held, l);
    forall k | k in book && k != l
      ensures Disjoint(a, book[k])
    {
      forall t: int
        ensures !(Owns(a, t) && Owns(book[k], t))
      {
        if Owns(book[k], t) {
          if k in walk { StoredOwns(Remembered(persisted, k), Known(held, k), accounts[k], t); }
          assert Disjoint(a, accounts[k]);
          if k in held { assert Disjoint(a, held[k]); }
        }
      }
    }
  }

  /** A save of a book that succeeds the stored one runs into no conflicting
      position and leaves tables holding the stored book, in whatever order the
      accounts are walked. */
  lemma {:induction false} SaveAllExact(t: Tables, held: map<int, Account>, accounts: map<int, Account>,
                                        persisted: map<int, Counts>, walk: seq<int>)
    requires Holds(t, held) && Succeeds(held, accounts) && AllFit(held, accounts, persisted)
    requires (forall l | l in walk :: l in accounts) && Distinct(walk)
    ensures !AnyClash(t, accounts, persisted, walk)
    ensures Holds(SaveAll(t, accounts, persisted, walk), StoredBook(held, accounts, persisted, walk))
    ensures SaveAll(t, accounts, persisted, walk).meta == t.meta
    decreases |walk|
  {
    hide *;
    if |walk| > 0 {
      var rest, l := walk[..|walk| - 1], walk[|walk| - 1];
      DistinctRest(walk);
      SaveAllExact(t, held, accounts, persisted, rest);
      SaveStep(t, held, accounts, persisted, rest, l);
      assert walk == rest + [l];
    } else {
      SaveAllNone(t, accounts, persisted);
      StoredNone(held, accounts, persisted);
    }
  }

  lemma DistinctRest(walk: seq<int>)
    requires |walk| > 0 && Distinct(walk)
    ensures Distinct(walk[..|walk| - 1]) && walk[|walk| - 1] !in walk[..|walk| - 1]
  {
  }

  lemma StoredNone(held: map<int, Account>, accounts: map<int, Account>, persisted: map<int, Counts>)
    ensures StoredBook(held, accounts, persisted, []) == held
  {
  }

  lemma SaveStep(t: Tables, held: map<int, Account>, accounts: map<int, Account>, persisted: map<int, Counts>,
                 rest: seq<int>, l: int)
    requires Succeeds(held, accounts) && AllFit(held, accounts, persisted)
    requires (forall k | k in rest :: k in accounts) && l in accounts && l !in rest
    requires !AnyClash(t, accounts, persisted, rest)
    requires Holds(SaveAll(t, accounts, persisted, rest), StoredBook(held, accounts, persisted, rest))
    requires SaveAll(t, accounts, persisted, rest).meta == t.meta
    ensures var walk := rest + [l];
            && !AnyClash(t, accounts, persisted, walk)
            && Holds(SaveAll(t, accounts, persisted, walk), StoredBook(held, accounts, persisted, walk))
            && SaveAll(t, accounts, persisted, walk).meta == t.meta
  {
    hide *;
    var walk, before, book := rest + [l], SaveAll(t, accounts, persisted, rest), StoredBook(held, accounts, persisted, rest);
    SavableStep(held, accounts, persisted, rest, l);
    SaveOneExact(before, book, l, accounts[l], Remembered(persisted, l));
    SaveOneHeader(before, l, accounts[l], Remembered(persisted, l));
    StoredBookStep(held, accounts, persisted, rest, l);
    SaveAllLast(t, accounts, persisted, rest, l);
  }

  lemma SaveAllLast(t: Tables, accounts: map<int, Account>, persisted: map<int, Counts>, rest: seq<int>, l: int)
    requires (forall k | k in rest :: k in accounts) && l in accounts
    ensures var before := SaveAll(t, accounts, persisted, rest);
            && SaveAll(t, accounts, persisted, rest + [l]) == SaveOne(before, l, accounts[l], Remembered(persisted, l))
            && (AnyClash(t, accounts, persisted, rest + [l])
                <==> AnyClash(t, accounts, persisted, rest) || Clashes(before, l, accounts[l]))
  {
  }

  lemma SaveAllNone(t: Tables, accounts: map<int, Account>, persisted: map<int, Counts>)
    ensures SaveAll(t, accounts, persisted, []) == t && !AnyClash(t, accounts, persisted, [])
  {
  }

  lemma StoredBookStep(held: map<int, Account>, accounts: map<int, Account>, persisted: map<int, Counts>,
                       rest: seq<int>, l: int)
    requires (forall k | k in rest :: k in accounts) && l in accounts && l !in rest
    ensures var book := StoredBook(held, accounts, persisted, rest);
            StoredBook(held, accounts, persisted, rest + [l])
              == book[l := StoredAccount(Remembered(persisted, l), Known(book, l), accounts[l])]
  {
    hide StoredAccount;
    var book := StoredBook(held, accounts, persisted, rest);
    assert Known(book, l) == Known(held, l);
  }

  ghost predicate ExactCounts(held: map<int, Account>, accounts: map<int, Account>, persisted: map<int, Counts>) {
    forall l | l in accounts :: Remembered(persisted, l) == CountsOf(Known(held, l))
  }

  /** With exact counts a whole save meets no existing row, whatever the order
      of the accounts: no insert of any of them takes its conflict branch. */
  lemma SaveUnopposed(t: Tables, held: map<int, Account>, accounts: map<int, Account>, persisted: map<int, Counts>,
                      walk: seq<int>, k: nat)
    requires Holds(t, held) && Succeeds(held, accounts) && ExactCounts(held, accounts, persisted)
    requires (forall l | l in walk :: l in accounts) && Distinct(walk) && k < |walk|
    ensures Unopposed(SaveAll(t, accounts, persisted, walk[..k]), walk[k], accounts[walk[k]], Remembered(persisted, walk[k]))
  {
    var done, l := walk[..k], walk[k];
    ExactFit(held, accounts, persisted);
    hide Holds, Succeeds, AllFit, Unopposed, Savable, SaveAll, AnyClash, Remembered, StoredAccount;
    SaveAllExact(t, held, accounts, persisted, done);
    SavableStep(held, accounts, persisted, done, l);
    var book := StoredBook(held, accounts, persisted, done);
    assert Known(book, l) == Known(held, l);
    NoConflict(SaveAll(t, accounts, persisted, done), book, l, accounts[l]);
  }

  lemma ExactFit(held: map<int, Account>, accounts: map<int, Account>, persisted: map<int, Counts>)
    requires ExactCounts(held, accounts, persisted)
    ensures AllFit(held, accounts, persisted)
  {
  }

  // ---------- when the saved book is what was saved ----------

  predicate WholeAccount(was: Counts, held: Account, a: Account) {
    Whole(was.history, held.history, a.history) && Whole(was.deals, held.deals, a.deals)
  }

  /** An account after its turn in a save: stored as it is if it passes the
      check, and otherwise with some row too many or missing. */
  ghost predicate Settled(t: Tables, l: int, was: Counts, held: Account, a: Account) {
    if WholeAccount(was, held, a) then AccountHeld(t, l, a)
    else Spoiled(t.orders, l, a.history) || Spoiled(t.deals, l, a.deals)
  }

  lemma SaveOneSettles(t: Tables, l: int, held: Account, a: Account, was: Counts)
    requires Ready(t, l, held, a)
    ensures Settled(SaveOne(t, l, a, was), l, was, held, a)
  {
    OrdersAppendable(t, l, held, a);
    DealsAppendable(t, l, held, a);
    hide Ready, Appendable;
    if !Whole(was.history, held.history, a.history) {
      SaveListSpoils(Midway(t, l, a), l, a.orders, held.history, a.history, was.history, OrderTicket(), MergeOrder());
    } else if !Whole(was.deals, held.deals, a.deals) {
      SaveListSpoils(t.deals, l, map[], held.deals, a.deals, was.deals, DealTicket(), KeepFirst());
    } else {
      PositionsSaved(t, l, held, a, was);
      OrdersSaved(t, l, held, a, was);
      DealsSaved(t, l, held, a, was);
    }
  }

  lemma SettledKept(t: Tables, t': Tables, l: int, k: int, was: Counts, held: Account, a: Account)
    requires ElsewhereKept(t, t', l) && k != l && Settled(t, k, was, held, a)
    ensures Settled(t', k, was, held, a)
  {
    hide OthersKept, Spoiled, OpenHeld, ListHeld, WholeAccount;
    if WholeAccount(was, held, a) {
      HeldKept(t, t', l, k, a);
    } else if Spoiled(t.orders, k, a.history) {
      SpoiledKept(t.orders, t'.orders, l, k, a.history);
    } else {
      SpoiledKept(t.deals, t'.deals, l, k, a.deals);
    }
  }

  ghost predicate OwnedBy(held: map<int, Account>, accounts: map<int, Account>, j: int, k: int) {
    (j in held && Owns(held[j], k)) || (j in accounts && Owns(accounts[j], k))
  }

  ghost predicate TableTraced<T(!new)>(tbl: Table<T>, held: map<int, Account>, accounts: map<int, Account>) {
    forall k | k in tbl :: OwnedBy(held, accounts, tbl[k].login, k)
  }

  /** Every row's ticket is one that its login owned or owns. */
  ghost predicate Traced(t: Tables, held: map<int, Account>, accounts: map<int, Account>) {
    && TableTraced(t.positions, held, accounts) && TableTraced(t.orders, held, accounts)
    && TableTraced(t.deals, held, accounts)
  }

  /** In the middle of a save: the accounts that had their turn are settled, the
      others are stored as before. */
  ghost predicate Partly(t: Tables, held: map<int, Account>, accounts: map<int, Account>, persisted: map<int, Counts>,
                         walk: seq<int>)
    requires forall l | l in walk :: l in accounts
  {
    && (forall l: int :: l in t.accounts <==> l in held || l in walk)
    && (forall l | l in accounts && l !in walk :: AccountHeld(t, l, Known(held, l)))
    && (forall l | l in walk ::
          t.accounts[l] == Header(accounts[l]) && Settled(t, l, Remembered(persisted, l), Known(held, l), accounts[l]))
    && Traced(t, held, accounts)
  }

  lemma PartlyStarts(t: Tables, held: map<int, Account>, accounts: map<int, Account>, persisted: map<int, Counts>)
    requires Holds(t, held)
    ensures Partly(t, held, accounts, persisted, [])
  {
    TracedStarts(t, held, accounts);
    hide AccountHeld, Traced, Known;
    forall l | l in accounts
      ensures AccountHeld(t, l, Known(held, l))
    {
      HeldOrBlank(t, held, l);
    }
  }

  lemma TracedStarts(t: Tables, held: map<int, Account>, accounts: map<int, Account>)
    requires Holds(t, held)
    ensures Traced(t, held, accounts)
  {
    hide Owns, AccountHeld;
    forall l | l in held
      ensures forall k | k in t.positions && t.positions[k].login == l :: Owns(held[l], k)
      ensures forall k | k in t.orders && t.orders[k].login == l :: Owns(held[l], k)
      ensures forall k | k in t.deals && t.deals[k].login == l :: Owns(held[l], k)
    {
      RowsOwned(t, l, held[l]);
    }
  }

  lemma PartlyReady(t: Tables, held: map<int, Account>, accounts: map<int, Account>, persisted: map<int, Counts>,
                    walk: seq<int>, l: int)
    requires Succeeds(held, accounts) && (forall k | k in walk :: k in accounts) && l in accounts && l !in walk
    requires Partly(t, held, accounts, persisted, walk)
    ensures Ready(t, l, Known(held, l), accounts[l])
  {
    forall k: int | Owns(accounts[l], k)
      ensures Unclaimed(t.positions, l, k) && Unclaimed(t.orders, l, k) && Unclaimed(t.deals, l, k)
    {
      forall j: int | j != l
        ensures !OwnedBy(held, accounts, j, k)
      {
      }
    }
  }

  lemma TableStaysTraced<T(!new)>(tbl: Table<T>, after: Table<T>, held: map<int, Account>, accounts: map<int, Account>,
                                  l: int)
    requires TableTraced(tbl, held, accounts) && OthersKept(tbl, after, l) && l in accounts
    requires forall k | k in after && after[k].login == l :: Owns(Known(held, l), k) || Owns(accounts[l], k)
    ensures TableTraced(after, held, accounts)
  {
    KnownOwns(held, l);
    hide Owns, Known;
  }

  lemma PositionsElsewhere(t: Tables, l: int, held: Account, a: Account, was: Counts)
    requires Ready(t, l, held, a)
    ensures var after := SaveOne(t, l, a, was).positions;
            && OthersKept(t.positions, after, l)
            && (forall k | k in after && after[k].login == l :: Owns(held, k) || Owns(a, k))
  {
    PositionsSaved(t, l, held, a, was);
  }

  lemma PartlyTraced(t: Tables, t': Tables, held: map<int, Account>, accounts: map<int, Account>, l: int, was: Counts)
    requires Traced(t, held, accounts) && l in accounts && Ready(t, l, Known(held, l), accounts[l])
    requires t' == SaveOne(t, l, accounts[l], was)
    ensures Traced(t', held, accounts)
  {
    var a, h := accounts[l], Known(held, l);
    PositionsElsewhere(t, l, h, a, was);
    OrdersElsewhere(t, l, h, a, was);
    DealsElsewhere(t, l, h, a, was);
    hide SaveOne, Ready, Owns, Known, OthersKept, TableTraced;
    TableStaysTraced(t.positions, t'.positions, held, accounts, l);
    TableStaysTraced(t.orders, t'.orders, held, accounts, l);
    TableStaysTraced(t.deals, t'.deals, held, accounts, l);
  }

  lemma KnownOwns(held: map<int, Account>, l: int)
    ensures forall k: int | Owns(Known(held, l), k) :: l in held && Owns(held[l], k)
  {
  }

  lemma PartlyStep(t: Tables, held: map<int, Account>, accounts: map<int, Account>, persisted: map<int, Counts>,
                   walk: seq<int>, l: int)
    requires Succeeds(held, accounts) && (forall k | k in walk :: k in accounts) && l in accounts && l !in walk
    requires Partly(t, held, accounts, persisted, walk)
    ensures !Clashes(t, l, accounts[l])
    ensures Partly(SaveOne(t, l, accounts[l], Remembered(persisted, l)), held, accounts, persisted, walk + [l])
  {
    hide *;
    var a, h, was := accounts[l], Known(held, l), Remembered(persisted, l);
    var t' := SaveOne(t, l, a, was);
    PartlyReady(t, held, accounts, persisted, walk, l);
    PartlyParts(t, held, accounts, persisted, walk);
    PartlyTraced(t, t', held, accounts, l, was);
    PositionsSaved(t, l, h, a, was);
    SaveOneSettles(t, l, h, a, was);
    SaveOneElsewhere(t, l, h, a, was);
    SaveOneHeader(t, l, a, was);
    PartlyNext(t, t', held, accounts, persisted, walk, l);
  }

  lemma PartlyParts(t: Tables, held: map<int, Account>, accounts: map<int, Account>, persisted: map<int, Counts>,
                    walk: seq<int>)
    requires (forall k | k in walk :: k in accounts) && Partly(t, held, accounts, persisted, walk)
    ensures Traced(t, held, accounts)
  {
  }

  lemma PartlyNext(t: Tables, t': Tables, held: map<int, Account>, accounts: map<int, Account>,
                   persisted: map<int, Counts>, walk: seq<int>, l: int)
    requires (forall k | k in walk :: k in accounts) && l in accounts && l !in walk
    requires Partly(t, held, accounts, persisted, walk) && Traced(t', held, accounts) && ElsewhereKept(t, t', l)
    requires t'.accounts == t.accounts[l := Header(accounts[l])]
    requires Settled(t', l, Remembered(persisted, l), Known(held, l), accounts[l])
    ensures Partly(t', held, accounts, persisted, walk + [l])
  {
    hide Settled, AccountHeld, Traced, ElsewhereKept, Known, Remembered, Header;
    forall k | k in accounts && k !in walk + [l]
      ensures AccountHeld(t', k, Known(held, k))
    {
      HeldKept(t, t', l, k, Known(held, k));
    }
    forall k | k in walk
      ensures Settled(t', k, Remembered(persisted, k), Known(held, k), accounts[k])
    {
      SettledKept(t, t', l, k, Remembered(persisted, k), Known(held, k), accounts[k]);
    }
  }

  /** Whatever counts are remembered, a save of a book that succeeds the stored
      one runs into no conflicting position and settles each account it walks. */
  lemma {:induction false} SaveAllSettles(t: Tables, held: map<int, Account>, accounts: map<int, Account>,
                                          persisted: map<int, Counts>, walk: seq<int>)
    requires Holds(t, held) && Succeeds(held, accounts)
    requires (forall l | l in walk :: l in accounts) && Distinct(walk)
    ensures !AnyClash(t, accounts, persisted, walk)
    ensures Partly(SaveAll(t, accounts, persisted, walk), held, accounts, persisted, walk)
    ensures SaveAll(t, accounts, persisted, walk).meta == t.meta
    decreases |walk|
  {
    hide *;
    if |walk| > 0 {
      var rest, l := walk[..|walk| - 1], walk[|walk| - 1];
      DistinctRest(walk);
      SaveAllSettles(t, held, accounts, persisted, rest);
      var before := SaveAll(t, accounts, persisted, rest);
      PartlyStep(before, held, accounts, persisted, rest, l);
      SaveOneHeader(before, l, accounts[l], Remembered(persisted, l));
      SaveAllLast(t, accounts, persisted, rest, l);
      assert walk == rest + [l];
    } else {
      SaveAllNone(t, accounts, persisted);
      PartlyStarts(t, held, accounts, persisted);
    }
  }

  ghost predicate WholeBook(held: map<int, Account>, accounts: map<int, Account>, persisted: map<int, Counts>) {
    forall l | l in accounts :: WholeAccount(Remembered(persisted, l), Known(held, l), accounts[l])
  }

  lemma WholeHolds(t: Tables, held: map<int, Account>, accounts: map<int, Account>, persisted: map<int, Counts>,
                   walk: seq<int>)
    requires Walks(walk, accounts.Keys) && Succeeds(held, accounts) && Partly(t, held, accounts, persisted, walk)
    requires WholeBook(held, accounts, persisted)
    ensures Holds(t, accounts)
  {
    SucceedsParts(held, accounts);
    PartlyParts(t, held, accounts, persisted, walk);
    PartlyKeys(t, held, accounts, persisted, walk);
    hide Partly, WholeBook, AccountHeld, Succeeds, Traced, Header;
    TracedLogins(t, held, accounts);
    forall l | l in accounts
      ensures t.accounts[l] == Header(accounts[l]) && AccountHeld(t, l, accounts[l])
    {
      PartlyWhole(t, held, accounts, persisted, walk, l);
    }
  }

  lemma PartlyKeys(t: Tables, held: map<int, Account>, accounts: map<int, Account>, persisted: map<int, Counts>,
                   walk: seq<int>)
    requires Walks(walk, accounts.Keys) && held.Keys <= accounts.Keys && Partly(t, held, accounts, persisted, walk)
    ensures t.accounts.Keys == accounts.Keys
  {
    hide Settled, AccountHeld, Traced;
    forall l: int
      ensures l in t.accounts <==> l in accounts
    {
      assert l in walk <==> l in accounts.Keys;
      assert l in held.Keys ==> l in accounts.Keys;
    }
  }

  lemma PartlyWhole(t: Tables, held: map<int, Account>, accounts: map<int, Account>, persisted: map<int, Counts>,
                    walk: seq<int>, l: int)
    requires Walks(walk, accounts.Keys) && Partly(t, held, accounts, persisted, walk)
    requires WholeBook(held, accounts, persisted) && l in accounts
    ensures l in t.accounts && t.accounts[l] == Header(accounts[l]) && AccountHeld(t, l, accounts[l])
  {
    hide AccountHeld, Traced, WholeAccount, Settled, Known, Remembered;
    assert l in accounts.Keys && l in walk;
    assert WholeAccount(Remembered(persisted, l), Known(held, l), accounts[l]);
    SettledWhole(t, l, Remembered(persisted, l), Known(held, l), accounts[l]);
  }

  lemma SucceedsParts(held: map<int, Account>, accounts: map<int, Account>)
    requires Succeeds(held, accounts)
    ensures held.Keys <= accounts.Keys && forall l | l in accounts :: accounts[l].login == l
  {
  }

  lemma SettledWhole(t: Tables, l: int, was: Counts, held: Account, a: Account)
    requires Settled(t, l, was, held, a) && WholeAccount(was, held, a)
    ensures AccountHeld(t, l, a)
  {
  }

  lemma TracedLogins(t: Tables, held: map<int, Account>, accounts: map<int, Account>)
    requires Traced(t, held, accounts) && held.Keys <= accounts.Keys
    ensures forall k | k in t.positions :: t.positions[k].login in accounts
    ensures forall k | k in t.orders :: t.orders[k].login in accounts
    ensures forall k | k in t.deals :: t.deals[k].login in accounts
  {
    hide Owns;
  }

  lemma SpoiledLoads(t: Tables, l: int, was: Counts, held: Account, a: Account)
    requires l in t.accounts && Settled(t, l, was, held, a) && !WholeAccount(was, held, a)
    ensures LoadedAccount(t, l) != a
  {
    hide Spoiled, WholeAccount;
    OrderedInOrder(t.orders);
    OrderedInOrder(t.deals);
    if Spoiled(t.orders, l, a.history) {
      SpoiledDiffers(t.orders, Ordered(t.orders), l, a.history);
    } else {
      SpoiledDiffers(t.deals, Ordered(t.deals), l, a.deals);
    }
  }

  /** After a committed save, loading gives back exactly the saved book if and
      only if every account's history and deals extend what was stored, at least
      up to the remembered count, or are strictly shorter than that count. An
      account reset and regrown to at least the count between two saves keeps
      its old rows and loses the new ones under them. This holds for any counts,
      also ones that a commit without acknowledgement left behind. */
  lemma SaveLoadRoundTrip(t: Tables, held: map<int, Account>, s: Snapshot, persisted: map<int, Counts>, walk: seq<int>)
    requires Holds(t, held) && Succeeds(held, s.accounts) && Walks(walk, s.accounts.Keys)
    ensures var after := SaveAll(t.(meta := Some(s.meta)), s.accounts, persisted, walk);
            Loaded(after) == Some(s) <==> WholeBook(held, s.accounts, persisted)
  {
    hide *;
    var t0 := t.(meta := Some(s.meta));
    HoldsMeta(t, held, Some(s.meta));
    WalksDistinct(walk, s.accounts.Keys);
    SaveAllSettles(t0, held, s.accounts, persisted, walk);
    var after := SaveAll(t0, s.accounts, persisted, walk);
    if WholeBook(held, s.accounts, persisted) {
      WholeHolds(after, held, s.accounts, persisted, walk);
      LoadExact(after, s);
    } else {
      UnwholeLoads(after, held, s, persisted, walk);
    }
  }

  lemma UnwholeLoads(t: Tables, held: map<int, Account>, s: Snapshot, persisted: map<int, Counts>, walk: seq<int>)
    requires Walks(walk, s.accounts.Keys) && Partly(t, held, s.accounts, persisted, walk)
    requires !WholeBook(held, s.accounts, persisted)
    ensures Loaded(t) != Some(s)
  {
    hide Settled, WholeAccount, LoadedAccount, AccountHeld, Traced;
    var l :| l in s.accounts && !WholeAccount(Remembered(persisted, l), Known(held, l), s.accounts[l]);
    assert l in walk;
    SpoiledLoads(t, l, Remembered(persisted, l), Known(held, l), s.accounts[l]);
  }

  lemma HoldsMeta(t: Tables, book: map<int, Account>, meta: Option<Meta>)
    requires Holds(t, book)
    ensures Holds(t.(meta := meta), book)
  {
  }

  /** For an account that was emptied since it was stored, the check comes down
      to lengths: nothing was stored, or the new list is still shorter. */
  lemma WholeAfterReset(held: Account, a: Account)
    requires Disjoint(held, a)
    ensures WholeAccount(CountsOf(held), held, a)
            <==> (held.history == [] || |a.history| < |held.history|) && (held.deals == [] || |a.deals| < |held.deals|)
  {
    if held.history != [] && held.history <= a.history {
      var t := held.history[0].ticket;
      assert a.history[0].ticket == t && HistoryHas(held.history, t) && HistoryHas(a.history, t);
      assert Owns(held, t) && Owns(a, t);
    }
    if held.deals != [] && held.deals <= a.deals {
      var t := held.deals[0].ticket;
      assert a.deals[0].ticket == t && DealsHave(held.deals, t) && DealsHave(a.deals, t);
      assert Owns(held, t) && Owns(a, t);
    }
  }

  /** Tables that hold a book have position rows and deal rows of one sort. */
  lemma HoldsOneSort(t: Tables, book: map<int, Account>)
    requires Holds(t, book)
    ensures OneSort(t)
  {
  }
}
