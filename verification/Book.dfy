/** The demo broker's book: accounts with open positions, working orders and
    append-only history and deals, and the sums taken over them. */
module Book {
  import opened Rounding
  import opened Market

  datatype OrderState = Placed | Canceled | Filled | Rejected | Expired

  // Order kinds, numbered as on the wire: market kinds are BUY and SELL.
  const BUY_LIMIT := 2
  const SELL_LIMIT := 3
  const BUY_STOP := 4
  const SELL_STOP := 5
  const BUY_STOP_LIMIT := 6
  const SELL_STOP_LIMIT := 7

  const BALANCE_ACTION := 2
  const ENTRY_IN := 0
  const ENTRY_OUT := 1

  datatype Position = Position(
    ticket: int, login: int, symbol: string, action: int, timeCreate: int, priceOpen: real,
    priceSL: real, priceTP: real, volume: int, storage: int, commission: int, comment: string)

  datatype Order = Order(
    ticket: int, login: int, symbol: string, kind: int, state: OrderState, timeSetup: int, timeDone: int,
    priceOrder: real, priceTrigger: real, priceSL: real, priceTP: real, volumeInitial: int, volumeCurrent: int,
    typeTime: int, timeExpiration: int, positionId: int, comment: string)

  datatype Deal = Deal(
    ticket: int, order: int, login: int, symbol: string, action: int, entry: int, price: real, volume: int,
    time: int, commission: int, storage: int, profit: int, positionId: int, comment: string)

  /** Balance and credit in cents; history and deals oldest first. */
  datatype Account = Account(
    login: int, balance: int, credit: int, leverage: int, currency: string,
    positions: map<int, Position>, orders: map<int, Order>, history: seq<Order>, deals: seq<Deal>)

  /** An account together with the broker's next unused ticket. */
  datatype Desk = Desk(acct: Account, next: int)

  // ---------- sums ----------

  ghost function SumBy<T>(s: seq<T>, f: T -> int): int {
    if |s| == 0 then 0 else SumBy(s[..|s| - 1], f) + f(s[|s| - 1])
  }

  lemma SumByAppend<T>(s: seq<T>, x: T, f: T -> int)
    ensures SumBy(s + [x], f) == SumBy(s, f) + f(x)
  {
  }

  ghost function SumOver(ps: map<int, Position>, f: Position -> int): int {
    if exists t :: t in ps then
      var t :| t in ps; f(ps[t]) + SumOver(ps - {t}, f)
    else 0
  }

  /** The sum does not depend on the order in which the map is walked. */
  lemma {:induction false} SumOverRemove(ps: map<int, Position>, t: int, f: Position -> int)
    requires t in ps
    ensures SumOver(ps, f) == f(ps[t]) + SumOver(ps - {t}, f)
    decreases |ps|
  {
    var u :| u in ps && SumOver(ps, f) == f(ps[u]) + SumOver(ps - {u}, f);
    if u != t {
      SumOverRemove(ps - {u}, t, f);
      SumOverRemove(ps - {t}, u, f);
      assert ps - {u} - {t} == ps - {t} - {u};
    }
  }

  lemma SumOverInsert(ps: map<int, Position>, t: int, p: Position, f: Position -> int)
    requires t !in ps
    ensures SumOver(ps[t := p], f) == SumOver(ps, f) + f(p)
  {
    SumOverRemove(ps[t := p], t, f);
    assert ps[t := p] - {t} == ps;
  }

  lemma SumOverReplace(ps: map<int, Position>, t: int, p: Position, f: Position -> int)
    requires t in ps
    ensures SumOver(ps[t := p], f) == SumOver(ps, f) - f(ps[t]) + f(p)
  {
    SumOverRemove(ps, t, f);
    SumOverRemove(ps[t := p], t, f);
    assert ps[t := p] - {t} == ps - {t};
  }

  // ---------- account summary ----------

  /** What a position adds to the account's floating profit; nothing while its
      instrument has no quote. */
  function ProfitIn(m: Feed): Position -> int {
    (p: Position) =>
      match Quote(m, p.symbol)
      case Some(t) => FloatingProfit(m, p.symbol, p.action, p.priceOpen, p.volume, t) + p.storage + p.commission
      case None => 0
  }

  function MarginIn(m: Feed, leverage: int): Position -> int {
    (p: Position) =>
      match Quote(m, p.symbol)
      case Some(t) => MarginFor(m, leverage, m.listed[p.symbol], p.volume, p.priceOpen)
      case None => 0
  }

  /** Live figures in cents; marginLevel in hundredths of a percent. */
  datatype Summary = Summary(
    balance: int, credit: int, profit: int, equity: int, margin: int, marginFree: int, marginLevel: int)

  function MarginLevel(equity: int, margin: int): int {
    if margin > 0 then Round(equity as real / margin as real * 10000.0) else 0
  }

  function SummaryOf(balance: int, credit: int, profit: int, margin: int): Summary {
    var equity := balance + credit + profit;
    Summary(balance, credit, profit, equity, margin, equity - margin, MarginLevel(equity, margin))
  }

  ghost function ProfitOf(m: Feed, a: Account): int {
    SumOver(a.positions, ProfitIn(m))
  }

  ghost function MarginOf(m: Feed, a: Account): int {
    SumOver(a.positions, MarginIn(m, a.leverage))
  }

  ghost function EquityOf(m: Feed, a: Account): int {
    a.balance + a.credit + ProfitOf(m, a)
  }

  ghost function FreeOf(m: Feed, a: Account): int {
    EquityOf(m, a) - MarginOf(m, a)
  }

  ghost function LevelOf(m: Feed, a: Account): int {
    MarginLevel(EquityOf(m, a), MarginOf(m, a))
  }

  ghost function Summarize(m: Feed, a: Account): Summary {
    SummaryOf(a.balance, a.credit, ProfitOf(m, a), MarginOf(m, a))
  }

  // ---------- tickets ----------

  ghost function OrderTickets(h: seq<Order>): seq<int> {
    seq(|h|, i requires 0 <= i < |h| => h[i].ticket)
  }

  ghost function DealTickets(ds: seq<Deal>): seq<int> {
    seq(|ds|, i requires 0 <= i < |ds| => ds[i].ticket)
  }

  /** Every ticket the account holds: working orders, history and deals. */
  ghost function Tickets(a: Account): multiset<int> {
    multiset(a.orders.Keys) + multiset(OrderTickets(a.history)) + multiset(DealTickets(a.deals))
  }

  predicate Between(from: int, t: int, to: int) {
    from <= t < to
  }

  ghost function TicketRange(from: int, to: int): (s: set<int>)
    ensures forall t: int :: t in s <==> from <= t < to
  {
    set t: int {:trigger Between(from, t, to)} | from <= t < to && Between(from, t, to)
  }

  /** The tickets handed out while the counter goes from one value to another. */
  ghost function Issued(from: int, to: int): multiset<int> {
    multiset(TicketRange(from, to))
  }

  // ---------- money and volume ----------

  function CashOf(): Deal -> int {
    (d: Deal) => d.profit + d.storage + d.commission
  }

  /** The balance less everything the deals have booked: what the account
      started from. */
  ghost function Base(a: Account): int {
    a.balance - SumBy(a.deals, CashOf())
  }

  function VolumeInto(pid: int): Deal -> int {
    (d: Deal) => if d.positionId != pid then 0 else if d.entry == ENTRY_IN then d.volume else -d.volume
  }

  ghost function NetVolume(ds: seq<Deal>, pid: int): int {
    SumBy(ds, VolumeInto(pid))
  }

  function OpenVolume(a: Account, pid: int): int {
    if pid in a.positions then a.positions[pid].volume else 0
  }

  function StorageInto(pid: int): Deal -> int {
    (d: Deal) => if d.positionId == pid then d.storage else 0
  }

  function CommissionInto(pid: int): Deal -> int {
    (d: Deal) => if d.positionId == pid then d.commission else 0
  }

  /** Storage a position has booked so far plus what it still carries. */
  ghost function StorageOf(a: Account, pid: int): int {
    SumBy(a.deals, StorageInto(pid)) + if pid in a.positions then a.positions[pid].storage else 0
  }

  ghost function CommissionOf(a: Account, pid: int): int {
    SumBy(a.deals, CommissionInto(pid)) + if pid in a.positions then a.positions[pid].commission else 0
  }

  // ---------- what every reachable account satisfies ----------

  ghost predicate Distinct(a: Account, next: int) {
    && (forall t: int :: Tickets(a)[t] <= 1)
    && (forall t: int :: t in Tickets(a) ==> 0 < t < next)
  }

  /** The position was opened by a filled order with its own ticket. */
  ghost predicate HasFilled(h: seq<Order>, ticket: int) {
    exists i :: 0 <= i < |h| && h[i].ticket == ticket && h[i].state == Filled && h[i].positionId == ticket
  }

  predicate PositionSound(a: Account, t: int)
    requires t in a.positions
  {
    var p := a.positions[t];
    p.ticket == t && p.login == a.login && p.action in {BUY, SELL} && p.priceOpen > 0.0 && ValidVolume(p.volume)
  }

  predicate OrderSound(a: Account, t: int)
    requires t in a.orders
  {
    var o := a.orders[t];
    && o.ticket == t && o.login == a.login && o.state == Placed && BUY_LIMIT <= o.kind <= SELL_STOP_LIMIT
    && ValidVolume(o.volumeCurrent) && o.volumeInitial == o.volumeCurrent
  }

  predicate FinalSound(o: Order, login: int) {
    o.login == login && o.state != Placed && o.volumeInitial > 0 && (o.volumeCurrent == 0 <==> o.state == Filled)
  }

  /** The order explains the deal: filled, same volume, side and position, and
      a limit was filled at its price or better. */
  predicate Explains(o: Order, d: Deal) {
    && o.ticket == d.order && o.state == Filled && o.volumeInitial == d.volume
    && o.symbol == d.symbol && o.positionId == d.positionId && o.kind % 2 == d.action
    && (o.kind == BUY_LIMIT ==> d.price <= o.priceOrder)
    && (o.kind == SELL_LIMIT ==> d.price >= o.priceOrder)
  }

  ghost predicate Backed(h: seq<Order>, d: Deal) {
    || (d.action == BALANCE_ACTION && d.order == 0 && d.volume == 0)
    || exists i :: 0 <= i < |h| && Explains(h[i], d)
  }

  ghost predicate PositionsSound(a: Account) {
    forall t | t in a.positions :: PositionSound(a, t) && HasFilled(a.history, t)
  }

  ghost predicate OrdersSound(a: Account) {
    forall t | t in a.orders :: OrderSound(a, t)
  }

  ghost predicate HistorySound(a: Account) {
    forall i | 0 <= i < |a.history| :: FinalSound(a.history[i], a.login)
  }

  ghost predicate DealsSound(a: Account) {
    forall i | 0 <= i < |a.deals| :: a.deals[i].login == a.login && Backed(a.history, a.deals[i])
  }

  ghost predicate VolumesMatch(a: Account) {
    forall pid: int :: NetVolume(a.deals, pid) == OpenVolume(a, pid)
  }

  ghost predicate Sound(d: Desk) {
    && d.next > 0
    && Distinct(d.acct, d.next)
    && PositionsSound(d.acct)
    && OrdersSound(d.acct)
    && HistorySound(d.acct)
    && DealsSound(d.acct)
    && VolumesMatch(d.acct)
  }

  // ---------- what every step keeps between two states ----------

  /** A working order's kind changes only from stop-limit to limit. */
  predicate KindEvolves(before: int, after: int) {
    || before == after
    || (before == BUY_STOP_LIMIT && after == BUY_LIMIT)
    || (before == SELL_STOP_LIMIT && after == SELL_LIMIT)
  }

  predicate SameOrder(o: Order, o': Order) {
    o'.ticket == o.ticket && o'.symbol == o.symbol && o'.timeSetup == o.timeSetup && KindEvolves(o.kind, o'.kind)
  }

  /** A working order is still working, or it is in history past a mark. */
  ghost predicate Fate(o: Order, a: Account, mark: nat) {
    if o.ticket in a.orders then SameOrder(o, a.orders[o.ticket])
    else exists i :: mark <= i < |a.history| && SameOrder(o, a.history[i])
  }

  ghost predicate FatesKept(a: Account, a': Account) {
    forall t | t in a.orders :: Fate(a.orders[t], a', |a.history|)
  }

  /** Storage and commission are neither created nor lost by a position. */
  ghost predicate CostsKept(a: Account, a': Account) {
    && (forall pid: int :: StorageOf(a', pid) == StorageOf(a, pid))
    && (forall pid: int :: CommissionOf(a', pid) == CommissionOf(a, pid))
  }

  ghost predicate Advances(d: Desk, d': Desk) {
    var a, a' := d.acct, d'.acct;
    && d.next <= d'.next
    && a'.login == a.login && a'.currency == a.currency && a'.credit == a.credit
    && Tickets(a') == Tickets(a) + Issued(d.next, d'.next)
    && a.history <= a'.history
    && a.deals <= a'.deals
    && FatesKept(a, a')
    && CostsKept(a, a')
  }

  /** A step that keeps the account sound, issues each new ticket exactly once,
      only appends to history and deals, and settles money into the balance. */
  ghost predicate Proper(d: Desk, d': Desk) {
    Sound(d') && Advances(d, d') && Base(d'.acct) == Base(d.acct)
  }

  lemma IssuedSplit(a: int, b: int, c: int)
    requires a <= b <= c
    ensures Issued(a, c) == Issued(a, b) + Issued(b, c)
  {
  }

  lemma FateLater(o: Order, d: Desk, d': Desk, mark: nat)
    requires Sound(d) && Advances(d, d') && mark <= |d.acct.history| && Fate(o, d.acct, mark)
    ensures Fate(o, d'.acct, mark)
  {
    var a, a' := d.acct, d'.acct;
    if o.ticket in a.orders {
      var o1 := a.orders[o.ticket];
      assert Fate(o1, a', |a.history|);
      if o.ticket !in a'.orders {
        var i :| |a.history| <= i < |a'.history| && SameOrder(o1, a'.history[i]);
        assert SameOrder(o, a'.history[i]);
      }
    } else {
      var i :| mark <= i < |a.history| && SameOrder(o, a.history[i]);
      assert a'.history[i] == a.history[i];
      if o.ticket in a'.orders {
        HistoryTicketOnce(d, d', i);
        assert false;
      }
    }
  }

  /** A ticket found in history is not a working ticket now or later. */
  lemma HistoryTicketOnce(d: Desk, d': Desk, i: nat)
    requires Sound(d) && Advances(d, d') && i < |d.acct.history|
    ensures d.acct.history[i].ticket !in d'.acct.orders
  {
    var a, a' := d.acct, d'.acct;
    var t := a.history[i].ticket;
    assert OrderTickets(a.history)[i] == t && OrderTickets(a'.history)[i] == t;
    assert t in multiset(OrderTickets(a'.history));
    assert t in Tickets(a) && t < d.next;
    assert Issued(d.next, d'.next)[t] == 0;
    assert Tickets(a')[t] <= 1;
  }

  lemma AdvancesTrans(d: Desk, d': Desk, d'': Desk)
    requires Sound(d') && Advances(d, d') && Advances(d', d'')
    ensures Advances(d, d'')
  {
    IssuedSplit(d.next, d'.next, d''.next);
    forall t | t in d.acct.orders
      ensures Fate(d.acct.orders[t], d''.acct, |d.acct.history|)
    {
      FateLater(d.acct.orders[t], d', d'', |d.acct.history|);
    }
  }

  lemma ProperTrans(d: Desk, d': Desk, d'': Desk)
    requires Proper(d, d') && Proper(d', d'')
    ensures Proper(d, d'')
  {
    AdvancesTrans(d, d', d'');
  }

  lemma ProperRefl(d: Desk)
    requires Sound(d)
    ensures Proper(d, d)
  {
  }
}
