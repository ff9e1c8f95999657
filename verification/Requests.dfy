/** What a dealer request promises its sender: refusals change nothing, resting
    orders really rest, accepted stops are not hit by the quote they were
    checked against, and opening and closing cost exactly the spread. */
module Requests {
  import opened Rounding
  import opened Market
  import opened Book
  import opened Engine
  import opened EngineProofs
  import opened Passes

  predicate Accepted(a: Answer) {
    a.retcode == RcDone || a.retcode == RcPlaced
  }

  /** The symbol that a request is about. */
  function SymbolOf(a: Account, r: Request): Option<string> {
    match r.action
    case Execute =>
      if r.position == 0 then Some(r.symbol)
      else if r.position in a.positions then Some(a.positions[r.position].symbol) else None
    case Pending => Some(r.symbol)
    case ModifyPosition => if r.position in a.positions then Some(a.positions[r.position].symbol) else None
    case ModifyOrder => if r.order in a.orders then Some(a.orders[r.order].symbol) else None
    case RemoveOrder => if r.order in a.orders then Some(a.orders[r.order].symbol) else None
    case Unknown => None
  }

  /** A refused request leaves the account and the ticket counter as they were;
      an accepted one found its market open, unless it removed an order. */
  lemma HandleAtomic(m: Feed, d: Desk, r: Request)
    ensures var reply := Handle(m, d, r);
            && (!Accepted(reply.answer) ==> reply.desk == d)
            && (Accepted(reply.answer) ==>
                  && SymbolOf(d.acct, r).Some?
                  && (r.action != RemoveOrder ==> MarketOf(m, SymbolOf(d.acct, r).value).Open?))
  {
    hide Settle, MarginFor, FreeOf, RoundPrice;
  }

  // ---------- resting orders ----------

  /** At an open market an order that does not expire waits if and only if its
      threshold is still on the side from which the market has to come. */
  lemma WaitsIff(m: Feed, d: Desk, t: int)
    requires Sound(d) && t in d.acct.orders && MarketOf(m, d.acct.orders[t].symbol).Open?
    requires !Expiring(d.acct.orders[t], m.now)
    ensures var o := d.acct.orders[t];
            PendingStep(m, d, t) == d <==> RightSide(o.kind, Threshold(o), MarketOf(m, o.symbol).tick)
  {
    hide MarginFor, FreeOf;
    assert OrderSound(d.acct, t);
    var o := d.acct.orders[t];
    if PendingStep(m, d, t) != d && !IsStopLimit(o.kind) {
      assert t !in PendingStep(m, d, t).acct.orders || PendingStep(m, d, t).acct.orders == d.acct.orders;
    }
  }

  /** The price a placing request is checked by. */
  function Asked(r: Request): real {
    if IsStopLimit(r.kind) && r.priceTrigger > 0.0 then r.priceTrigger else r.priceOrder
  }

  /** An accepted pending order is stored at its prices rounded to the grid, but
      it was checked at the price before rounding. So it waits while the quote
      stands if and only if that price is still on its side once rounded. */
  lemma PlacedWaits(m: Feed, d: Desk, r: Request)
    requires Sound(d) && PlacePending(m, d, r).answer.retcode == RcPlaced
    ensures var d' := PlacePending(m, d, r).desk;
            var ins, t := MarketOf(m, r.symbol).ins, MarketOf(m, r.symbol).tick;
            && d.next in d'.acct.orders
            && var o := d'.acct.orders[d.next];
               && o.kind == r.kind && o.volumeCurrent == r.volume
               && o.priceOrder == RoundPrice(ins, r.priceOrder) && Threshold(o) == RoundPrice(ins, Asked(r))
               && RightSide(r.kind, Asked(r), t)
               && (PendingStep(m, d', d.next) == d' <==> RightSide(r.kind, RoundPrice(ins, Asked(r)), t))
  {
    hide RoundPrice, Sound, Proper, PendingStep;
    PlacePendingProper(m, d, r);
    ProperKeepsSound(d, PlacePending(m, d, r).desk);
    WaitsIff(m, PlacePending(m, d, r).desk, d.next);
  }

  /** A modification is checked by the rounded prices: an accepted one leaves an
      order that waits while the quote stands, unless its new lifetime is
      already over. */
  lemma ModifiedWaits(m: Feed, d: Desk, r: Request)
    requires Sound(d) && ModifyWorking(m, d, r).answer.retcode == RcDone
    ensures r.order in d.acct.orders && r.order in ModifyWorking(m, d, r).desk.acct.orders
    ensures var d' := ModifyWorking(m, d, r).desk;
            var o, o' := d.acct.orders[r.order], d'.acct.orders[r.order];
            var ins := MarketOf(m, o.symbol).ins;
            && o'.kind == o.kind
            && o'.priceOrder == (if r.priceOrder > 0.0 then RoundPrice(ins, r.priceOrder) else o.priceOrder)
            && (IsStopLimit(o.kind) ==>
                  o'.priceTrigger == if r.priceTrigger > 0.0 then RoundPrice(ins, r.priceTrigger) else o.priceTrigger)
            && o'.volumeCurrent == (if r.volume > 0 then r.volume else o.volumeCurrent)
            && (!Expiring(o', m.now) ==> PendingStep(m, d', r.order) == d')
  {
    hide RoundPrice, Sound, Proper, PendingStep;
    ModifyWorkingProper(m, d, r);
    ProperKeepsSound(d, ModifyWorking(m, d, r).desk);
    var d' := ModifyWorking(m, d, r).desk;
    KindKept(m, d, r);
    if !Expiring(d'.acct.orders[r.order], m.now) { WaitsIff(m, d', r.order); }
  }

  lemma KindKept(m: Feed, d: Desk, r: Request)
    requires Sound(d) && ModifyWorking(m, d, r).answer.retcode == RcDone
    ensures var o' := ModifyWorking(m, d, r).desk.acct.orders[r.order];
            RightSide(o'.kind, Threshold(o'), MarketOf(m, o'.symbol).tick)
  {
    hide RoundPrice;
  }

  lemma ProperKeepsSound(d: Desk, d': Desk)
    requires Proper(d, d')
    ensures Sound(d')
  {
  }

  /** An accepted removal ends the order as Canceled, with nothing filled. */
  lemma RemovedEnds(m: Feed, d: Desk, r: Request)
    requires Sound(d) && RemoveWorking(m, d, r).answer.retcode == RcDone
    ensures var a' := RemoveWorking(m, d, r).desk.acct;
            && r.order in d.acct.orders && r.order !in a'.orders
            && EndedAs(a', |d.acct.history|, d.acct.orders[r.order], Canceled, m.now)
            && a'.positions == d.acct.positions && a'.deals == d.acct.deals && a'.balance == d.acct.balance
  {
    assert OrderSound(d.acct, r.order);
    var a' := RemoveWorking(m, d, r).desk.acct;
    assert Ended(a'.history[|d.acct.history|], d.acct.orders[r.order], Canceled, m.now);
  }

  /** When a working order's lifetime is over: for a day order at the first UTC
      midnight after it was set, for a dated one from its deadline on, for any
      other never. */
  lemma LifetimeOver(o: Order, now: int)
    requires now >= o.timeSetup
    ensures Expiring(o, now)
            <==> || (o.typeTime == TIME_DAY && now >= (o.timeSetup / 86400 + 1) * 86400)
                 || (o.typeTime in {TIME_SPECIFIED, TIME_SPECIFIED_DAY} && 0 < o.timeExpiration <= now)
  {
  }

  // ---------- stops ----------

  /** A stop and a target strictly on their own side of the price at which the
      position would close; a level of zero or less is none. */
  predicate Clear(action: int, sl: real, tp: real, t: Tick) {
    if action == BUY then (sl > 0.0 ==> sl < t.bid) && (tp > 0.0 ==> tp > t.bid)
    else (sl > 0.0 ==> sl > t.ask) && (tp > 0.0 ==> tp < t.ask)
  }

  /** Accepted stops of an open position are stored rounded to the grid, but
      were checked before rounding. So the quote they were checked against does
      not hit them if and only if they are still clear of it once rounded. */
  lemma ModifiedStopsHold(m: Feed, d: Desk, r: Request)
    requires Sound(d) && ModifyStops(m, d, r).answer.retcode == RcDone
    ensures r.position in d.acct.positions
    ensures var p, d' := d.acct.positions[r.position], ModifyStops(m, d, r).desk;
            var ins, t := MarketOf(m, p.symbol).ins, MarketOf(m, p.symbol).tick;
            var sl, tp := RoundPrice(ins, r.priceSL), RoundPrice(ins, r.priceTP);
            && d'.acct.positions == d.acct.positions[r.position := p.(priceSL := sl, priceTP := tp)]
            && Clear(p.action, r.priceSL, r.priceTP, t)
            && (StopStep(m, d', r.position) == d' <==> Clear(p.action, sl, tp, t))
  {
    hide RoundPrice, Settle;
    assert PositionSound(d.acct, r.position);
    var d' := ModifyStops(m, d, r).desk;
    var p := d'.acct.positions[r.position];
    var t := MarketOf(m, p.symbol).tick;
    if StopHit(p, t).Some? { SettledNext(m, d', p, p.volume, t, StopHit(p, t).value); }
  }

  // ---------- prices off the grid ----------

  /** The euro at a five-digit price grid, quoted on a Thursday. */
  function EuroAt(t: Tick): Feed {
    Feed(map["EURUSD" := Instrument("EUR", "USD", 5, 100000.0, false)], map["EURUSD" := t], 0, 0)
  }

  lemma FiveDigits(ins: Instrument)
    requires ins.digits == 5
    ensures RoundPrice(ins, 1.099999) == 1.1 && RoundPrice(ins, 0.0) == 0.0
  {
    assert Pow10(3) == 1000.0;
    assert Pow10(5) == 100000.0;
    RoundNearest(109999.9, 110000);
    RoundWhole(0);
  }

  /** A buy limit asked below the market by less than half a point rests at the
      market: it fills at once, and dearer than asked. */
  lemma OffGridFills(d: Desk)
    requires Sound(d)
    ensures var m := EuroAt(Tick(1.0998, 1.1));
            var r := Request(Pending, "EURUSD", BUY_LIMIT, 1000, 1.099999, 0.0, 0.0, 0.0, 0, 0, TIME_GTC, 0, "");
            var placed := PlacePending(m, d, r);
            && placed.answer.retcode == RcPlaced
            && FillPrice(placed.desk.acct.orders[d.next], Tick(1.0998, 1.1)) == Some(1.1)
            && PendingStep(m, placed.desk, d.next) != placed.desk
  {
    hide RoundPrice, Sound, PendingStep;
    var m := EuroAt(Tick(1.0998, 1.1));
    var r := Request(Pending, "EURUSD", BUY_LIMIT, 1000, 1.099999, 0.0, 0.0, 0.0, 0, 0, TIME_GTC, 0, "");
    FiveDigits(m.listed["EURUSD"]);
    PlacedWaits(m, d, r);
  }

  /** A stop set under the bid by less than half a point becomes the bid, and
      the quote it was checked against hits it. */
  lemma OffGridStops(d: Desk, u: int)
    requires Sound(d) && u in d.acct.positions
    requires var p := d.acct.positions[u]; p.symbol == "EURUSD" && p.action == BUY && p.priceSL == 0.0
    ensures var m := EuroAt(Tick(1.1, 1.1002));
            var r := Request(ModifyPosition, "EURUSD", BUY, 0, 0.0, 0.0, 1.099999, 0.0, u, 0, TIME_GTC, 0, "");
            var modified := ModifyStops(m, d, r);
            && modified.answer.retcode == RcDone
            && StopHit(modified.desk.acct.positions[u], Tick(1.1, 1.1002)) == Some("[sl]")
            && StopStep(m, modified.desk, u) != modified.desk
  {
    hide RoundPrice, Sound, StopStep;
    var m := EuroAt(Tick(1.1, 1.1002));
    var r := Request(ModifyPosition, "EURUSD", BUY, 0, 0.0, 0.0, 1.099999, 0.0, u, 0, TIME_GTC, 0, "");
    FiveDigits(m.listed["EURUSD"]);
    ModifiedStopsHold(m, d, r);
  }

  /** A newly opened position is stopped by the very quote that opened it if and
      only if its stop lies within the spread: a stop is checked against the
      opening side, but hit on the closing side. */
  lemma OpenedStopsHold(m: Feed, d: Desk, r: Request)
    requires Sound(d) && OpenPosition(m, d, r).answer.retcode == RcDone
    requires MarketOf(m, r.symbol).tick.bid <= MarketOf(m, r.symbol).tick.ask
    ensures var t, d' := MarketOf(m, r.symbol).tick, OpenPosition(m, d, r).desk;
            StopStep(m, d', d.next) == d'
            <==> r.priceSL <= 0.0 || (if r.kind == BUY then r.priceSL < t.bid else r.priceSL > t.ask)
  {
    hide Settle, MarginFor, FreeOf;
    var t, d' := MarketOf(m, r.symbol).tick, OpenPosition(m, d, r).desk;
    var p := d'.acct.positions[d.next];
    if StopHit(p, t).Some? { SettledNext(m, d', p, p.volume, t, StopHit(p, t).value); }
  }

  lemma SettledNext(m: Feed, d: Desk, p: Position, vol: int, t: Tick, comment: string)
    ensures Settle(m, d, p, vol, t, comment).next == d.next + 2
  {
  }

  // ---------- opening and closing ----------

  /** The request that closes what another one opened. */
  function Opposite(r: Request, ticket: int): Request {
    r.(kind := 1 - r.kind, position := ticket)
  }

  /** Opening and closing again at one quote gives the account back with the
      position gone and the balance lower by the spread, to the cent, and by
      nothing else. */
  lemma OpenCloseCost(m: Feed, d: Desk, r: Request)
    requires Sound(d) && OpenPosition(m, d, r).answer.retcode == RcDone
    ensures var t := MarketOf(m, r.symbol).tick;
            var held := OpenPosition(m, d, r).desk;
            var closed := ClosePosition(m, held, Opposite(r, d.next));
            && closed.answer.retcode == RcDone
            && closed.desk.acct.positions == d.acct.positions && closed.desk.acct.orders == d.acct.orders
            && |closed.desk.acct.history| == |d.acct.history| + 2 && |closed.desk.acct.deals| == |d.acct.deals| + 2
            && closed.desk.acct.balance
               == d.acct.balance + FloatingProfit(m, r.symbol, r.kind, if r.kind == BUY then t.ask else t.bid, r.volume, t)
  {
    hide FloatingProfit, MarginFor, FreeOf, StopsValid;
    FreshTicket(d, d.next);
    var t, held := MarketOf(m, r.symbol).tick, OpenPosition(m, d, r).desk;
    var p := held.acct.positions[d.next];
    SettleIsReduced(m, held, p, p.volume, t, r.comment);
    FullShare(p);
    assert held.acct.positions - {d.next} == d.acct.positions;
  }

  /** And that balance never rises while the bid is not above the ask. */
  lemma SpreadCosts(m: Feed, symbol: string, kind: int, volume: int, t: Tick)
    requires volume >= 0 && t.bid <= t.ask
    ensures FloatingProfit(m, symbol, kind, if kind == BUY then t.ask else t.bid, volume, t) <= 0
  {
    if symbol in m.listed {
      var ins := m.listed[symbol];
      var value := MoveValue(t.bid - t.ask, volume, Contract(ins));
      NegativeValue(t.bid - t.ask, Lots(volume), Contract(ins));
      ToUsdGrows(m, ins.profitCcy, value, 0.0);
      RoundMonotone(ToUsd(m, ins.profitCcy, value) * 100.0, 0.0);
    }
  }

  lemma NegativeValue(move: real, lots: real, contract: real)
    requires move <= 0.0 && lots >= 0.0 && contract > 0.0
    ensures move * lots * contract <= 0.0
  {
    assert move * lots <= 0.0;
  }

  // ---------- what is accepted, and what it does ----------

  /** A market is open exactly when its instrument is listed, trades at the time
      and has a tick with a positive bid and ask; and the tick is that one. */
  lemma MarketOpens(m: Feed, symbol: string)
    ensures MarketOf(m, symbol).Open?
            <==> && symbol in m.listed && TradesAt(m.listed[symbol], m.sessionClock)
                 && symbol in m.ticks && m.ticks[symbol].bid > 0.0 && m.ticks[symbol].ask > 0.0
    ensures MarketOf(m, symbol).Open? ==> MarketOf(m, symbol) == Open(m.listed[symbol], m.ticks[symbol])
  {
  }

  /** A stop and a target on their own side of a price; zero is none. */
  predicate Beside(buy: bool, price: real, sl: real, tp: real) {
    && (sl != 0.0 ==> if buy then sl < price else sl > price)
    && (tp != 0.0 ==> if buy then tp > price else tp < price)
  }

  lemma BesideValid(buy: bool, price: real, sl: real, tp: real)
    ensures StopsValid(buy, price, sl, tp) <==> Beside(buy, price, sl, tp)
  {
  }

  /** Nothing but one position, one order in history and one deal. */
  ghost predicate OneDeal(m: Feed, d: Desk, d': Desk, ticket: int, o: Order, deal: Deal) {
    && d'.acct == d.acct.(balance := d'.acct.balance, positions := d'.acct.positions,
                          history := d.acct.history + [o], deals := d.acct.deals + [deal])
    && d'.acct.positions - {ticket} == d.acct.positions - {ticket}
    && o.ticket == d.next && deal.ticket == d.next + 1 && deal.order == d.next && d'.next == d.next + 2
    && o.state == Filled && o.symbol == deal.symbol && o.priceOrder == deal.price && o.volumeInitial == deal.volume
    && o.timeSetup == o.timeDone == deal.time == m.now && o.comment == deal.comment
  }

  /** A market order is accepted if and only if it is a buy or sell of a valid
      volume at an open market, its stops lie beside the opening price and the
      free margin covers it. It opens a position on the request's terms at the ask
      or the bid, with one deal. */
  lemma OpenAccepted(m: Feed, d: Desk, r: Request)
    requires Sound(d) && r.action == Execute && r.position == 0
    ensures var reply, market, buy := Handle(m, d, r), MarketOf(m, r.symbol), r.kind == BUY;
            && (reply.answer.retcode == RcDone
                <==> && r.kind in {BUY, SELL} && ValidVolume(r.volume) && market.Open?
                     && var price := if buy then market.tick.ask else market.tick.bid;
                        && Beside(buy, price, r.priceSL, r.priceTP)
                        && FreeOf(m, d.acct) >= MarginFor(m, d.acct.leverage, market.ins, r.volume, price))
            && (reply.answer.retcode == RcDone ==>
                  var price := if buy then market.tick.ask else market.tick.bid;
                  var p := Position(d.next, d.acct.login, r.symbol, r.kind, m.now, price, r.priceSL, r.priceTP, r.volume, 0, 0, r.comment);
                  && reply.answer == Answer(RcDone, d.next, price, r.volume)
                  && reply.desk.acct.positions == d.acct.positions[d.next := p] && reply.desk.acct.balance == d.acct.balance
                  && exists o, deal :: OneDeal(m, d, reply.desk, d.next, o, deal) && Opening(deal, p) && deal.profit == 0)
  {
    var market := MarketOf(m, r.symbol);
    FreshTicket(d, d.next);
    hide Sound, FreeOf, MarginFor, StopsValid, ValidVolume, OneDeal, Opening, Opened;
    if market.Open? {
      var price := if r.kind == BUY then market.tick.ask else market.tick.bid;
      BesideValid(r.kind == BUY, price, r.priceSL, r.priceTP);
      OpenedOne(m, d, r, price);
    }
  }

  lemma OpenedOne(m: Feed, d: Desk, r: Request, price: real)
    requires d.next !in d.acct.positions
    ensures var d' := Opened(m, d, r, price);
            var p := Position(d.next, d.acct.login, r.symbol, r.kind, m.now, price, r.priceSL, r.priceTP, r.volume, 0, 0, r.comment);
            && d'.acct.positions == d.acct.positions[d.next := p] && d'.acct.balance == d.acct.balance
            && exists o, deal :: OneDeal(m, d, d', d.next, o, deal) && Opening(deal, p) && deal.profit == 0
  {
    var d' := Opened(m, d, r, price);
    assert d'.acct.positions - {d.next} == d.acct.positions - {d.next};
    assert OneDeal(m, d, d', d.next, d'.acct.history[|d.acct.history|], d'.acct.deals[|d.acct.deals|]);
  }

  /** The volume that a close takes: the one asked for if that is part of the
      position, and otherwise all of it. */
  function Taken(r: Request, p: Position): int {
    if 0 < r.volume < p.volume then r.volume else p.volume
  }

  /** A close is accepted if and only if the position is held, the side is the
      opposite one, a part is a valid volume and the market is open. It takes the
      volume asked for and no more, with one deal over it at the closing side. */
  lemma CloseAccepted(m: Feed, d: Desk, r: Request)
    requires Sound(d) && r.action == Execute && r.position != 0
    ensures var reply := Handle(m, d, r);
            && (reply.answer.retcode == RcDone
                <==> && r.position in d.acct.positions
                     && var p := d.acct.positions[r.position];
                        && r.kind != p.action && r.kind in {BUY, SELL}
                        && (Taken(r, p) < p.volume ==> ValidVolume(r.volume)) && MarketOf(m, p.symbol).Open?)
            && (r.position in d.acct.positions
                && (var p := d.acct.positions[r.position];
                    p.action == 1 - r.kind && 0 < r.volume < p.volume && !ValidVolume(r.volume))
                ==> reply == Refused(d, RcInvalidVolume))
            && (reply.answer.retcode == RcDone ==>
                  var p := d.acct.positions[r.position];
                  var t, vol := MarketOf(m, p.symbol).tick, Taken(r, p);
                  var price := if p.action == BUY then t.bid else t.ask;
                  && reply.answer == Answer(RcDone, d.next, price, vol)
                  && (if vol == p.volume then r.position !in reply.desk.acct.positions
                      else && r.position in reply.desk.acct.positions
                           && var rest := reply.desk.acct.positions[r.position];
                              rest == p.(volume := p.volume - r.volume, storage := rest.storage, commission := rest.commission))
                  && exists o, deal :: OneDeal(m, d, reply.desk, r.position, o, deal)
                                       && Closing(deal, p.(volume := vol), price, r.comment)
                                       && reply.desk.acct.balance == d.acct.balance + CashOf()(deal))
  {
    if r.position in d.acct.positions {
      var p := d.acct.positions[r.position];
      KeyIsTicket(d, r.position);
      HeldVolume(d, r.position);
      hide Sound, ValidVolume, Settle, OneDeal, Closing;
      if MarketOf(m, p.symbol).Open? { SettledOne(m, d, p, Taken(r, p), MarketOf(m, p.symbol).tick, r.comment); }
    }
  }

  lemma SettledOne(m: Feed, d: Desk, p: Position, vol: int, t: Tick, comment: string)
    requires p.ticket in d.acct.positions && d.acct.positions[p.ticket] == p && p.action in {BUY, SELL} && 0 < vol <= p.volume
    ensures var d' := Settle(m, d, p, vol, t, comment);
            && (if vol == p.volume then p.ticket !in d'.acct.positions
                else && p.ticket in d'.acct.positions
                     && var rest := d'.acct.positions[p.ticket];
                        rest == p.(volume := p.volume - vol, storage := rest.storage, commission := rest.commission))
            && exists o, deal :: OneDeal(m, d, d', p.ticket, o, deal)
                                 && Closing(deal, p.(volume := vol), if p.action == BUY then t.bid else t.ask, comment)
                                 && d'.acct.balance == d.acct.balance + CashOf()(deal)
  {
    hide FloatingProfit;
    var d' := Settle(m, d, p, vol, t, comment);
    assert d'.acct.positions - {p.ticket} == d.acct.positions - {p.ticket};
    assert OneDeal(m, d, d', p.ticket, d'.acct.history[|d.acct.history|], d'.acct.deals[|d.acct.deals|]);
  }

  lemma HeldVolume(d: Desk, u: int)
    requires Sound(d) && u in d.acct.positions
    ensures d.acct.positions[u].volume > 0
  {
    assert PositionSound(d.acct, u);
  }

  /** The deadline of a request for an order is over. */
  predicate Overdue(r: Request, now: int) {
    r.typeTime in {TIME_SPECIFIED, TIME_SPECIFIED_DAY} && 0 < r.timeExpiration <= now
  }

  /** A pending order is accepted if and only if it is one of the six pending
      kinds with a valid volume, at an open market, its price on the right side,
      its stops beside the order price and its deadline not over. It rests on the
      request's terms, and nothing else changes. */
  lemma PlaceAccepted(m: Feed, d: Desk, r: Request)
    requires Sound(d) && r.action == Pending
    ensures var reply, market := Handle(m, d, r), MarketOf(m, r.symbol);
            && (reply.answer.retcode == RcPlaced
                <==> && BUY_LIMIT <= r.kind <= SELL_STOP_LIMIT && ValidVolume(r.volume) && market.Open?
                     && Asked(r) > 0.0 && RightSide(r.kind, Asked(r), market.tick)
                     && Beside(IsBuy(r.kind), r.priceOrder, r.priceSL, r.priceTP) && !Overdue(r, m.now))
            && (reply.answer.retcode == RcPlaced ==>
                  && d.next in reply.desk.acct.orders
                  && var o := reply.desk.acct.orders[d.next];
                     && reply.desk == Desk(d.acct.(orders := d.acct.orders[d.next := o]), d.next + 1)
                     && reply.answer == Answer(RcPlaced, d.next, o.priceOrder, 0)
                     && o.ticket == d.next && o.symbol == r.symbol && o.state == Placed && o.timeSetup == m.now
                     && o.priceSL == r.priceSL && o.priceTP == r.priceTP && o.comment == r.comment
                     && o.volumeInitial == r.volume && o.typeTime == r.typeTime
                     && o.timeExpiration == if r.typeTime == TIME_GTC then 0 else r.timeExpiration)
  {
    hide RoundPrice, StopsValid, ValidVolume, RightSide, Sound;
    BesideValid(IsBuy(r.kind), r.priceOrder, r.priceSL, r.priceTP);
  }

  /** New stops are accepted if and only if the position is held, its market is
      open, they lie beside its closing price and they change something. */
  lemma StopsAccepted(m: Feed, d: Desk, r: Request)
    requires Sound(d) && r.action == ModifyPosition
    ensures Handle(m, d, r).answer.retcode == RcDone
            <==> && r.position in d.acct.positions
                 && var p := d.acct.positions[r.position];
                    && MarketOf(m, p.symbol).Open?
                    && var t := MarketOf(m, p.symbol).tick;
                       && Beside(p.action == BUY, if p.action == BUY then t.bid else t.ask, r.priceSL, r.priceTP)
                       && !(p.priceSL == r.priceSL && p.priceTP == r.priceTP)
    ensures Handle(m, d, r) == ModifyStops(m, d, r)
  {
    hide RoundPrice, StopsValid;
    if r.position in d.acct.positions {
      var p := d.acct.positions[r.position];
      KeyIsTicket(d, r.position);
      if MarketOf(m, p.symbol).Open? {
        var t := MarketOf(m, p.symbol).tick;
        BesideValid(p.action == BUY, if p.action == BUY then t.bid else t.ask, r.priceSL, r.priceTP);
      }
    }
  }

  /** What an order's price and threshold become under a modification. */
  function NewPrice(ins: Instrument, o: Order, r: Request): real {
    if r.priceOrder > 0.0 then RoundPrice(ins, r.priceOrder) else o.priceOrder
  }

  function NewThreshold(ins: Instrument, o: Order, r: Request): real {
    if !IsStopLimit(o.kind) then NewPrice(ins, o, r)
    else if r.priceTrigger > 0.0 then RoundPrice(ins, r.priceTrigger) else o.priceTrigger
  }

  /** A modification is accepted if and only if the order is working, its market
      open, the new threshold on the right side, the stops beside the new price
      and a new volume valid. It replaces that order's terms and nothing else. */
  lemma ModifyAccepted(m: Feed, d: Desk, r: Request)
    requires Sound(d) && r.action == ModifyOrder
    ensures var reply := Handle(m, d, r);
            && (reply.answer.retcode == RcDone
                <==> && r.order in d.acct.orders
                     && var o := d.acct.orders[r.order];
                        && MarketOf(m, o.symbol).Open?
                        && var ins, t := MarketOf(m, o.symbol).ins, MarketOf(m, o.symbol).tick;
                           && NewThreshold(ins, o, r) > 0.0 && RightSide(o.kind, NewThreshold(ins, o, r), t)
                           && Beside(IsBuy(o.kind), NewPrice(ins, o, r), r.priceSL, r.priceTP)
                           && (r.volume > 0 ==> ValidVolume(r.volume)))
            && (reply.answer.retcode == RcDone ==>
                  && reply == ModifyWorking(m, d, r) && r.order in reply.desk.acct.orders
                  && var o, o', ins := d.acct.orders[r.order], reply.desk.acct.orders[r.order], MarketOf(m, d.acct.orders[r.order].symbol).ins;
                     && reply.desk == d.(acct := d.acct.(orders := d.acct.orders[r.order := o']))
                     && reply.answer == Answer(RcDone, r.order, o'.priceOrder, o'.volumeCurrent)
                     && o'.ticket == r.order && o'.symbol == o.symbol && o'.timeSetup == o.timeSetup
                     && o'.priceSL == RoundPrice(ins, r.priceSL) && o'.priceTP == RoundPrice(ins, r.priceTP)
                     && (if r.typeTime == 0 && r.timeExpiration == 0 then o'.typeTime == o.typeTime && o'.timeExpiration == o.timeExpiration
                         else o'.typeTime == r.typeTime && o'.timeExpiration == if r.typeTime == TIME_GTC then 0 else r.timeExpiration))
  {
    hide RoundPrice, StopsValid, ValidVolume, RightSide;
    if r.order in d.acct.orders {
      var o := d.acct.orders[r.order];
      assert OrderSound(d.acct, r.order);
      hide Sound;
      if MarketOf(m, o.symbol).Open? {
        BesideValid(IsBuy(o.kind), NewPrice(MarketOf(m, o.symbol).ins, o, r), r.priceSL, r.priceTP);
      }
    }
  }

  /** A removal is accepted if and only if the order is working. */
  lemma RemoveAccepted(m: Feed, d: Desk, r: Request)
    requires Sound(d) && r.action == RemoveOrder
    ensures Handle(m, d, r).answer.retcode == RcDone <==> r.order in d.acct.orders
    ensures Handle(m, d, r) == RemoveWorking(m, d, r)
  {
  }

  /** The fault that a refusal names is there. */
  ghost predicate Named(m: Feed, d: Desk, r: Request, rc: Retcode) {
    var symbol := SymbolOf(d.acct, r);
    match rc
    case RcInvalidVolume => !ValidVolume(r.volume)
    case RcPositionClosed => r.position !in d.acct.positions
    case RcInvalidExpiration => Overdue(r, m.now)
    case RcNoMoney =>
      && symbol.Some? && MarketOf(m, symbol.value).Open?
      && var t := MarketOf(m, symbol.value).tick;
         FreeOf(m, d.acct) < MarginFor(m, d.acct.leverage, MarketOf(m, symbol.value).ins, r.volume, if r.kind == BUY then t.ask else t.bid)
    case RcMarketClosed => symbol.Some? && symbol.value in m.listed && !TradesAt(m.listed[symbol.value], m.sessionClock)
    case RcNoQuotes => symbol.Some? && Quote(m, symbol.value).None?
    case RcNoChanges =>
      && r.position in d.acct.positions
      && d.acct.positions[r.position].priceSL == r.priceSL && d.acct.positions[r.position].priceTP == r.priceTP
    case RcInvalid => symbol.None? || symbol.value !in m.listed
    case _ => true
  }

  lemma ShutNamed(m: Feed, d: Desk, r: Request, symbol: string)
    requires SymbolOf(d.acct, r) == Some(symbol)
    ensures MarketOf(m, symbol).Shut? ==> Named(m, d, r, MarketOf(m, symbol).reason)
  {
  }

  lemma ExecuteNamed(m: Feed, d: Desk, r: Request)
    requires Sound(d) && r.action == Execute
    ensures Named(m, d, r, Handle(m, d, r).answer.retcode)
  {
    if SymbolOf(d.acct, r).Some? { ShutNamed(m, d, r, SymbolOf(d.acct, r).value); }
    if r.position in d.acct.positions { HeldVolume(d, r.position); }
    hide Sound, MarketOf, ValidVolume, FreeOf, MarginFor, Settle, Opened, StopsValid, TradesAt, Quote;
  }

  lemma WorkingNamed(m: Feed, d: Desk, r: Request)
    requires r.action != Execute
    ensures Named(m, d, r, Handle(m, d, r).answer.retcode)
  {
    if SymbolOf(d.acct, r).Some? { ShutNamed(m, d, r, SymbolOf(d.acct, r).value); }
    hide MarketOf, RoundPrice, ValidVolume, FreeOf, MarginFor, StopsValid, RightSide, TradesAt, Quote, PlacedOrder, Finish;
  }

  /** What each refusal says is so. */
  lemma RefusalNamesFault(m: Feed, d: Desk, r: Request)
    requires Sound(d)
    ensures Named(m, d, r, Handle(m, d, r).answer.retcode)
  {
    hide Sound, Handle, Named;
    if r.action == Execute { ExecuteNamed(m, d, r); } else { WorkingNamed(m, d, r); }
  }
}
