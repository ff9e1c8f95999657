/** The broker's dealer requests and evaluation passes, each as a function from
    one state of an account's desk to the next. */
module Engine {
  import opened Rounding
  import opened Market
  import opened Book

  const STOP_OUT_LEVEL := 5000 // hundredths of a percent
  const STOP_OUT_ROUNDS := 64

  const TIME_GTC := 0
  const TIME_DAY := 1
  const TIME_SPECIFIED := 2
  const TIME_SPECIFIED_DAY := 3

  /** The order at market; rest, modify or remove. The wire accepts two codes
      for each action. */
  datatype Action = Execute | Pending | ModifyPosition | ModifyOrder | RemoveOrder | Unknown

  datatype Request = Request(
    action: Action, symbol: string, kind: int, volume: int, priceOrder: real, priceTrigger: real,
    priceSL: real, priceTP: real, position: int, order: int, typeTime: int, timeExpiration: int, comment: string)

  datatype Retcode =
    | RcPlaced | RcDone | RcInvalid | RcInvalidVolume | RcInvalidPrice | RcInvalidStops | RcInvalidExpiration
    | RcMarketClosed | RcNoMoney | RcNoQuotes | RcNoChanges | RcInvalidType | RcPositionClosed

  datatype Answer = Answer(retcode: Retcode, order: int, price: real, volume: int)

  datatype Reply = Reply(desk: Desk, answer: Answer)

  function Refused(d: Desk, rc: Retcode): Reply {
    Reply(d, Answer(rc, 0, 0.0, 0))
  }

  // ---------- checks ----------

  datatype Access = Open(ins: Instrument, tick: Tick) | Shut(reason: Retcode)

  function MarketOf(m: Feed, symbol: string): Access {
    if symbol !in m.listed then Shut(RcInvalid)
    else if !TradesAt(m.listed[symbol], m.sessionClock) then Shut(RcMarketClosed)
    else
      match Quote(m, symbol)
      case Some(t) => Open(m.listed[symbol], t)
      case None => Shut(RcNoQuotes)
  }

  /** Stop and target on the right side of the price; zero means no level. */
  predicate StopsValid(buy: bool, price: real, sl: real, tp: real) {
    if buy then (sl == 0.0 || sl < price) && (tp == 0.0 || tp > price)
    else (sl == 0.0 || sl > price) && (tp == 0.0 || tp < price)
  }

  /** A limit improves on the market; a stop waits beyond it. */
  predicate RightSide(kind: int, price: real, t: Tick) {
    if kind == BUY_LIMIT then price < t.ask
    else if kind == SELL_LIMIT then price > t.bid
    else if kind == BUY_STOP || kind == BUY_STOP_LIMIT then price > t.ask
    else if kind == SELL_STOP || kind == SELL_STOP_LIMIT then price < t.bid
    else false
  }

  predicate PendingPriceValid(kind: int, price: real, t: Tick) {
    price > 0.0 && RightSide(kind, price, t)
  }

  predicate IsStopLimit(kind: int) {
    kind == BUY_STOP_LIMIT || kind == SELL_STOP_LIMIT
  }

  predicate IsBuy(kind: int) {
    kind % 2 == 0
  }

  predicate Expiring(o: Order, now: int) {
    if o.typeTime == TIME_SPECIFIED || o.typeTime == TIME_SPECIFIED_DAY then
      o.timeExpiration > 0 && now >= o.timeExpiration
    else if o.typeTime == TIME_DAY then now / 86400 != o.timeSetup / 86400
    else false
  }

  // ---------- the primitives every step is made of ----------

  function ClosePrice(action: int, t: Tick): real {
    if action == SELL then t.ask else t.bid
  }

  function CloseKind(action: int): int {
    if action == SELL then BUY else SELL
  }

  function SettledOrder(a: Account, p: Position, vol: int, t: Tick, comment: string, ticket: int, now: int): Order {
    Order(ticket, a.login, p.symbol, CloseKind(p.action), Filled, now, now, ClosePrice(p.action, t), 0.0, 0.0, 0.0,
          vol, 0, TIME_GTC, 0, p.ticket, comment)
  }

  /** The share of the position that a close takes; a sound position is never
      empty. */
  function Share(p: Position, vol: int): real {
    if p.volume == 0 then 1.0 else vol as real / p.volume as real
  }

  function SettledDeal(m: Feed, a: Account, p: Position, vol: int, t: Tick, comment: string, ticket: int): Deal {
    var share := Share(p, vol);
    Deal(ticket + 1, ticket, a.login, p.symbol, CloseKind(p.action), ENTRY_OUT, ClosePrice(p.action, t), vol, m.now,
         Round(p.commission as real * share), Round(p.storage as real * share),
         FloatingProfit(m, p.symbol, p.action, p.priceOpen, vol, t), p.ticket, comment)
  }

  /** Closes part or all of a position at a quote: closing order, closing deal,
      money to the balance, position shrunk or gone. */
  function Settle(m: Feed, d: Desk, p: Position, vol: int, t: Tick, comment: string): Desk {
    var a := d.acct;
    var deal := SettledDeal(m, a, p, vol, t, comment, d.next);
    var rest := p.(volume := p.volume - vol, storage := p.storage - deal.storage,
                   commission := p.commission - deal.commission);
    Desk(a.(balance := a.balance + deal.profit + deal.storage + deal.commission,
            positions := if vol >= p.volume then a.positions - {p.ticket} else a.positions[p.ticket := rest],
            history := a.history + [SettledOrder(a, p, vol, t, comment, d.next, m.now)],
            deals := a.deals + [deal]),
         d.next + 2)
  }

  function Finish(d: Desk, o: Order, state: OrderState, now: int): Desk {
    var done := o.(state := state, timeDone := now,
                   volumeCurrent := if state != Filled then o.volumeInitial else o.volumeCurrent);
    d.(acct := d.acct.(orders := d.acct.orders - {o.ticket}, history := d.acct.history + [done]))
  }

  function EntryDeal(a: Account, o: Order, action: int, price: real, ticket: int, now: int): Deal {
    Deal(ticket, o.ticket, a.login, o.symbol, action, ENTRY_IN, price, o.volumeInitial, now, 0, 0, 0, o.positionId, o.comment)
  }

  // ---------- dealer requests ----------

  function OpenedPosition(a: Account, r: Request, price: real, ticket: int, now: int): Position {
    Position(ticket, a.login, r.symbol, r.kind, now, price, r.priceSL, r.priceTP, r.volume, 0, 0, r.comment)
  }

  function OpenedOrder(a: Account, r: Request, price: real, ticket: int, now: int): Order {
    Order(ticket, a.login, r.symbol, r.kind, Filled, now, now, price, 0.0, r.priceSL, r.priceTP, r.volume, 0,
          TIME_GTC, 0, ticket, r.comment)
  }

  function Opened(m: Feed, d: Desk, r: Request, price: real): Desk {
    var a, ticket := d.acct, d.next;
    var o := OpenedOrder(a, r, price, ticket, m.now);
    Desk(a.(positions := a.positions[ticket := OpenedPosition(a, r, price, ticket, m.now)],
            history := a.history + [o],
            deals := a.deals + [EntryDeal(a, o, r.kind, price, ticket + 1, m.now)]),
         ticket + 2)
  }

  ghost function OpenPosition(m: Feed, d: Desk, r: Request): Reply {
    if r.kind != BUY && r.kind != SELL then Refused(d, RcInvalidType)
    else if !ValidVolume(r.volume) then Refused(d, RcInvalidVolume)
    else
      match MarketOf(m, r.symbol)
      case Shut(rc) => Refused(d, rc)
      case Open(ins, t) =>
        var price := if r.kind == BUY then t.ask else t.bid;
        if !StopsValid(r.kind == BUY, price, r.priceSL, r.priceTP) then Refused(d, RcInvalidStops)
        else if FreeOf(m, d.acct) < MarginFor(m, d.acct.leverage, ins, r.volume, price) then
          Refused(d, RcNoMoney)
        else Reply(Opened(m, d, r, price), Answer(RcDone, d.next, price, r.volume))
  }

  function ClosePosition(m: Feed, d: Desk, r: Request): Reply {
    if r.position !in d.acct.positions then Refused(d, RcPositionClosed)
    else
      var p := d.acct.positions[r.position];
      var vol := if r.volume <= 0 || r.volume > p.volume then p.volume else r.volume;
      if r.kind != 1 - p.action then Refused(d, RcInvalidType)
      else if vol != p.volume && !ValidVolume(vol) then Refused(d, RcInvalidVolume)
      else
        match MarketOf(m, p.symbol)
        case Shut(rc) => Refused(d, rc)
        case Open(_, t) => Reply(Settle(m, d, p, vol, t, r.comment), Answer(RcDone, d.next, ClosePrice(p.action, t), vol))
  }

  function PlacedOrder(m: Feed, a: Account, r: Request, ins: Instrument, trigger: real, ticket: int): Order {
    Order(ticket, a.login, r.symbol, r.kind, Placed, m.now, 0, RoundPrice(ins, r.priceOrder), RoundPrice(ins, trigger),
          r.priceSL, r.priceTP, r.volume, r.volume, r.typeTime,
          if r.typeTime == TIME_GTC then 0 else r.timeExpiration, 0, r.comment)
  }

  function PlacePending(m: Feed, d: Desk, r: Request): Reply {
    if r.kind < BUY_LIMIT || r.kind > SELL_STOP_LIMIT then Refused(d, RcInvalidType)
    else if !ValidVolume(r.volume) then Refused(d, RcInvalidVolume)
    else
      match MarketOf(m, r.symbol)
      case Shut(rc) => Refused(d, rc)
      case Open(ins, t) =>
        var trigger := if IsStopLimit(r.kind) && r.priceTrigger > 0.0 then r.priceTrigger else r.priceOrder;
        if !PendingPriceValid(r.kind, trigger, t) then Refused(d, RcInvalidPrice)
        else if !StopsValid(IsBuy(r.kind), r.priceOrder, r.priceSL, r.priceTP) then Refused(d, RcInvalidStops)
        else if (r.typeTime == TIME_SPECIFIED || r.typeTime == TIME_SPECIFIED_DAY)
                && 0 < r.timeExpiration <= m.now then Refused(d, RcInvalidExpiration)
        else
          var o := PlacedOrder(m, d.acct, r, ins, trigger, d.next);
          Reply(Desk(d.acct.(orders := d.acct.orders[d.next := o]), d.next + 1),
                Answer(RcPlaced, d.next, o.priceOrder, 0))
  }

  function ModifyStops(m: Feed, d: Desk, r: Request): Reply {
    if r.position !in d.acct.positions then Refused(d, RcPositionClosed)
    else
      var p := d.acct.positions[r.position];
      match MarketOf(m, p.symbol)
      case Shut(rc) => Refused(d, rc)
      case Open(ins, t) =>
        if !StopsValid(p.action == BUY, ClosePrice(p.action, t), r.priceSL, r.priceTP) then Refused(d, RcInvalidStops)
        else if p.priceSL == r.priceSL && p.priceTP == r.priceTP then Refused(d, RcNoChanges)
        else
          var p' := p.(priceSL := RoundPrice(ins, r.priceSL), priceTP := RoundPrice(ins, r.priceTP));
          Reply(d.(acct := d.acct.(positions := d.acct.positions[r.position := p'])),
                Answer(RcDone, p.ticket, p.priceOpen, p.volume))
  }

  function ModifyWorking(m: Feed, d: Desk, r: Request): Reply {
    if r.order !in d.acct.orders then Refused(d, RcInvalid)
    else
      var o := d.acct.orders[r.order];
      match MarketOf(m, o.symbol)
      case Shut(rc) => Refused(d, rc)
      case Open(ins, t) =>
        var price := if r.priceOrder > 0.0 then RoundPrice(ins, r.priceOrder) else o.priceOrder;
        var trigger :=
          if !IsStopLimit(o.kind) then price
          else if r.priceTrigger > 0.0 then RoundPrice(ins, r.priceTrigger) else o.priceTrigger;
        var vol := if r.volume > 0 then r.volume else o.volumeCurrent;
        if !PendingPriceValid(o.kind, trigger, t) then Refused(d, RcInvalidPrice)
        else if !StopsValid(IsBuy(o.kind), price, r.priceSL, r.priceTP) then Refused(d, RcInvalidStops)
        else if r.volume > 0 && !ValidVolume(r.volume) then Refused(d, RcInvalidVolume)
        else
          var timed := r.typeTime != 0 || r.timeExpiration != 0;
          var o' := o.(priceOrder := price, priceTrigger := trigger,
                       priceSL := RoundPrice(ins, r.priceSL), priceTP := RoundPrice(ins, r.priceTP),
                       volumeInitial := vol, volumeCurrent := vol,
                       typeTime := if timed then r.typeTime else o.typeTime,
                       timeExpiration := if !timed then o.timeExpiration
                                         else if r.typeTime == TIME_GTC then 0 else r.timeExpiration);
          Reply(d.(acct := d.acct.(orders := d.acct.orders[r.order := o'])), Answer(RcDone, o.ticket, price, vol))
  }

  function RemoveWorking(m: Feed, d: Desk, r: Request): Reply {
    if r.order !in d.acct.orders then Refused(d, RcInvalid)
    else
      var o := d.acct.orders[r.order];
      Reply(Finish(d, o, Canceled, m.now), Answer(RcDone, o.ticket, o.priceOrder, o.volumeInitial))
  }

  ghost function Handle(m: Feed, d: Desk, r: Request): Reply {
    match r.action
    case Execute => if r.position != 0 then ClosePosition(m, d, r) else OpenPosition(m, d, r)
    case Pending => PlacePending(m, d, r)
    case ModifyPosition => ModifyStops(m, d, r)
    case ModifyOrder => ModifyWorking(m, d, r)
    case RemoveOrder => RemoveWorking(m, d, r)
    case Unknown => Refused(d, RcInvalid)
  }

  // ---------- money ----------

  /** A deposit or withdrawal in cents, not necessarily whole. */
  function Credited(d: Desk, amount: real, comment: string, now: int): Desk {
    var a := d.acct;
    Desk(a.(balance := Round(a.balance as real + amount),
            deals := a.deals + [Deal(d.next, 0, a.login, "", BALANCE_ACTION, ENTRY_IN, 0.0, 0, now, 0, 0, Round(amount), 0, comment)]),
         d.next + 1)
  }

  ghost predicate Affordable(m: Feed, a: Account, amount: real) {
    amount < 0.0 ==> FreeOf(m, a) as real + amount >= 0.0
  }

  ghost function BalanceOp(m: Feed, d: Desk, amount: real, comment: string): Desk {
    if Affordable(m, d.acct, amount) then Credited(d, amount, comment, m.now) else d
  }

  function Emptied(d: Desk, balance: int): Desk {
    d.(acct := d.acct.(positions := map[], orders := map[], history := [], deals := [],
                       leverage := DEFAULT_LEVERAGE, balance := balance))
  }

  function Leveraged(d: Desk, leverage: int): Desk {
    if leverage > 0 && leverage != d.acct.leverage then d.(acct := d.acct.(leverage := leverage)) else d
  }

  // ---------- evaluation: stops ----------

  function StopHit(p: Position, t: Tick): Option<string> {
    if p.action == BUY then
      if p.priceSL > 0.0 && t.bid <= p.priceSL then Some("[sl]")
      else if p.priceTP > 0.0 && t.bid >= p.priceTP then Some("[tp]")
      else None
    else
      if p.priceSL > 0.0 && t.ask >= p.priceSL then Some("[sl]")
      else if p.priceTP > 0.0 && t.ask <= p.priceTP then Some("[tp]")
      else None
  }

  function StopStep(m: Feed, d: Desk, ticket: int): Desk {
    if ticket !in d.acct.positions then d
    else
      var p := d.acct.positions[ticket];
      match MarketOf(m, p.symbol)
      case Shut(_) => d
      case Open(_, t) =>
        match StopHit(p, t)
        case None => d
        case Some(hit) => Settle(m, d, p, p.volume, t, hit)
  }

  function StopsFrom(m: Feed, d: Desk, tickets: seq<int>): Desk
    decreases |tickets|
  {
    if |tickets| == 0 then d else StopsFrom(m, StopStep(m, d, tickets[0]), tickets[1..])
  }

  // ---------- evaluation: pending orders ----------

  /** Where the market fills a resting limit or stop, if it has been reached. */
  function FillPrice(o: Order, t: Tick): (fill: Option<real>)
    ensures fill.Some? && t.bid > 0.0 && t.ask > 0.0 ==> fill.value > 0.0
    ensures fill.Some? && o.kind == BUY_LIMIT ==> fill.value <= o.priceOrder
    ensures fill.Some? && o.kind == SELL_LIMIT ==> fill.value >= o.priceOrder
  {
    if o.kind == BUY_LIMIT && t.ask <= o.priceOrder then Some(if t.ask < o.priceOrder then t.ask else o.priceOrder)
    else if o.kind == SELL_LIMIT && t.bid >= o.priceOrder then Some(if t.bid > o.priceOrder then t.bid else o.priceOrder)
    else if o.kind == BUY_STOP && t.ask >= o.priceOrder then Some(t.ask)
    else if o.kind == SELL_STOP && t.bid <= o.priceOrder then Some(t.bid)
    else None
  }

  function SideOf(kind: int): int {
    if IsBuy(kind) then BUY else SELL
  }

  /** A stop-limit whose trigger is touched rests as a limit from now on. */
  function Triggered(o: Order, t: Tick): bool {
    || (o.kind == BUY_STOP_LIMIT && t.ask >= o.priceTrigger)
    || (o.kind == SELL_STOP_LIMIT && t.bid <= o.priceTrigger)
  }

  function Trigger(d: Desk, o: Order): Desk {
    var o' := o.(kind := if o.kind == BUY_STOP_LIMIT then BUY_LIMIT else SELL_LIMIT);
    d.(acct := d.acct.(orders := d.acct.orders[o.ticket := o']))
  }

  function FilledPosition(a: Account, o: Order, fill: real, now: int): Position {
    Position(o.ticket, a.login, o.symbol, SideOf(o.kind), now, fill, o.priceSL, o.priceTP, o.volumeCurrent, 0, 0, o.comment)
  }

  function FillOrder(d: Desk, o: Order, fill: real, now: int): Desk {
    var p := FilledPosition(d.acct, o, fill, now);
    var d1 := d.(acct := d.acct.(positions := d.acct.positions[o.ticket := p]));
    var d2 := Finish(d1, o.(positionId := o.ticket, volumeCurrent := 0), Filled, now);
    var deal := EntryDeal(d.acct, o.(positionId := o.ticket), SideOf(o.kind), fill, d.next, now).(volume := p.volume);
    Desk(d2.acct.(deals := d2.acct.deals + [deal]), d.next + 1)
  }

  /** What an open market does to a working order. */
  ghost function PendingAt(m: Feed, d: Desk, o: Order, ins: Instrument, t: Tick): Desk {
    if IsStopLimit(o.kind) then
      if Triggered(o, t) then Trigger(d, o) else d
    else
      match FillPrice(o, t)
      case None => d
      case Some(fill) =>
        if FreeOf(m, d.acct) < MarginFor(m, d.acct.leverage, ins, o.volumeCurrent, fill) then
          Finish(d, o.(comment := "no money"), Rejected, m.now)
        else FillOrder(d, o, fill, m.now)
  }

  ghost function PendingStep(m: Feed, d: Desk, ticket: int): Desk {
    if ticket !in d.acct.orders then d
    else
      var o := d.acct.orders[ticket];
      if Expiring(o, m.now) then Finish(d, o, Expired, m.now)
      else
        match MarketOf(m, o.symbol)
        case Shut(_) => d
        case Open(ins, t) => PendingAt(m, d, o, ins, t)
  }

  ghost function PendingFrom(m: Feed, d: Desk, tickets: seq<int>): Desk
    decreases |tickets|
  {
    if |tickets| == 0 then d else PendingFrom(m, PendingStep(m, d, tickets[0]), tickets[1..])
  }

  // ---------- evaluation: stop-out ----------

  function Valued(m: Feed, p: Position): Option<int> {
    match Quote(m, p.symbol)
    case Some(t) => Some(FloatingProfit(m, p.symbol, p.action, p.priceOpen, p.volume, t))
    case None => None
  }

  /** The ticket of the quotable position with the lowest floating profit; the
      first in the list wins a tie. */
  function WorstOf(m: Feed, ps: map<int, Position>, tickets: seq<int>): Option<int> {
    if |tickets| == 0 then None
    else
      var last := tickets[|tickets| - 1];
      var best := WorstOf(m, ps, tickets[..|tickets| - 1]);
      if last !in ps || Valued(m, ps[last]).None? then best
      else if best.None? || best.value !in ps || Valued(m, ps[best.value]).None? then Some(last)
      else if Valued(m, ps[last]).value < Valued(m, ps[best.value]).value then Some(last) else best
  }

  /** Margin is in use and the level is at or under the stop-out level. */
  ghost predicate Endangered(m: Feed, a: Account) {
    MarginOf(m, a) > 0 && LevelOf(m, a) <= STOP_OUT_LEVEL
  }

  ghost function StopOutFrom(m: Feed, d: Desk, round: nat): Desk
    requires round <= STOP_OUT_ROUNDS
    decreases STOP_OUT_ROUNDS - round
  {
    if round == STOP_OUT_ROUNDS || !Endangered(m, d.acct) then d
    else
      match StopOutStep(m, d)
      case None => d
      case Some(d') => StopOutFrom(m, d', round + 1)
  }

  ghost function StopOutStep(m: Feed, d: Desk): Option<Desk> {
    match WorstOf(m, d.acct.positions, Ascending(d.acct.positions.Keys))
    case None => None
    case Some(w) =>
      if w !in d.acct.positions then None
      else
        var p := d.acct.positions[w];
        match Quote(m, p.symbol)
        case None => None
        case Some(t) => Some(Settle(m, d, p, p.volume, t, "[so]"))
  }

  // ---------- ascending tickets ----------

  predicate IsLeast(s: set<int>, x: int) {
    x in s && forall y | y in s :: x <= y
  }

  lemma {:induction false} LeastExists(s: set<int>)
    ensures s == {} || exists x :: IsLeast(s, x)
    decreases |s|
  {
    if forall x: int :: x !in s {
      assert s == {};
    } else {
      var x :| x in s;
      var rest := s - {x};
      LeastExists(rest);
      assert forall y | y in s :: y == x || y in rest;
      if rest == {} {
        assert IsLeast(s, x);
      } else {
        var y :| IsLeast(rest, y);
        assert IsLeast(s, if x <= y then x else y);
      }
    }
  }

  /** The members of a set in ascending order. */
  ghost function Ascending(s: set<int>): (r: seq<int>)
    ensures forall x :: x in r <==> x in s
    ensures forall i, j | 0 <= i < j < |r| :: r[i] < r[j]
    decreases |s|
  {
    LeastExists(s);
    if exists x :: IsLeast(s, x) then
      var x :| IsLeast(s, x); [x] + Ascending(s - {x})
    else []
  }

  ghost function CheckStops(m: Feed, d: Desk): Desk {
    StopsFrom(m, d, Ascending(d.acct.positions.Keys))
  }

  ghost function CheckPending(m: Feed, d: Desk): Desk {
    PendingFrom(m, d, Ascending(d.acct.orders.Keys))
  }

  ghost function CheckStopOut(m: Feed, d: Desk): Desk {
    StopOutFrom(m, d, 0)
  }

  /** One pass over one account: stops, then pending orders, then stop-out. */
  ghost function Evaluate(m: Feed, d: Desk): Desk {
    CheckStopOut(m, CheckPending(m, CheckStops(m, d)))
  }
}
