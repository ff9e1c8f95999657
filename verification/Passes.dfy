/** What one evaluation pass does to each position and each working order. */
module Passes {
  import opened Market
  import opened Book
  import opened Engine
  import opened EngineProofs

  predicate NoRepeats(s: seq<int>) {
    forall i, j | 0 <= i < j < |s| :: s[i] != s[j]
  }

  // ---------- stops ----------

  /** The market is open and the position's stop or target is touched. */
  predicate StopTouched(m: Feed, p: Position) {
    MarketOf(m, p.symbol).Open? && StopHit(p, MarketOf(m, p.symbol).tick).Some?
  }

  /** A deal past a mark closed the whole position at this price. */
  ghost predicate ClosedAt(a: Account, mark: nat, p: Position, price: real, comment: string) {
    exists i :: mark <= i < |a.deals| && Closing(a.deals[i], p, price, comment)
  }

  predicate Closing(deal: Deal, p: Position, price: real, comment: string) {
    && deal.positionId == p.ticket && deal.entry == ENTRY_OUT && deal.action == 1 - p.action
    && deal.symbol == p.symbol && deal.volume == p.volume && deal.price == price && deal.comment == comment
  }

  lemma ClosedLater(a: Account, a': Account, mark: nat, sooner: nat, p: Position, price: real, comment: string)
    requires ClosedAt(a, mark, p, price, comment) && a.deals <= a'.deals && sooner <= mark
    ensures ClosedAt(a', sooner, p, price, comment)
  {
    var i :| mark <= i < |a.deals| && Closing(a.deals[i], p, price, comment);
    assert a'.deals[i] == a.deals[i];
  }

  lemma SettleClosesAt(m: Feed, d: Desk, p: Position, t: Tick, comment: string)
    requires p.action in {BUY, SELL}
    ensures ClosedAt(Settle(m, d, p, p.volume, t, comment).acct, |d.acct.deals|, p, if p.action == BUY then t.bid else t.ask, comment)
  {
    hide FloatingProfit;
    var a' := Settle(m, d, p, p.volume, t, comment).acct;
    assert Closing(a'.deals[|d.acct.deals|], p, if p.action == BUY then t.bid else t.ask, comment);
  }

  /** Closed at the side of the quote where such a position closes, for the
      reason that its stop or target gave. */
  ghost predicate ClosedOut(m: Feed, p: Position, a: Account, mark: nat)
    requires StopTouched(m, p)
  {
    var t := MarketOf(m, p.symbol).tick;
    p.ticket !in a.positions && ClosedAt(a, mark, p, if p.action == BUY then t.bid else t.ask, StopHit(p, t).value)
  }

  /** What the stop pass makes of a position, listed or not. */
  ghost predicate StopDone(m: Feed, p: Position, listed: bool, a: Account, mark: nat) {
    if listed && StopTouched(m, p) then ClosedOut(m, p, a, mark)
    else p.ticket in a.positions && a.positions[p.ticket] == p
  }

  lemma StopStepAt(m: Feed, d: Desk, t: int, u: int)
    requires Sound(d) && u in d.acct.positions
    ensures StopDone(m, d.acct.positions[u], t == u, StopStep(m, d, t).acct, |d.acct.deals|)
  {
    hide Settle;
    assert PositionSound(d.acct, u);
    if t in d.acct.positions {
      assert PositionSound(d.acct, t);
      var p := d.acct.positions[t];
      if StopTouched(m, p) {
        var q := MarketOf(m, p.symbol).tick;
        SettleClosesAt(m, d, p, q, StopHit(p, q).value);
        SettleTakes(m, d, p, q, StopHit(p, q).value);
      }
    }
  }

  lemma SettleTakes(m: Feed, d: Desk, p: Position, t: Tick, comment: string)
    ensures var d' := Settle(m, d, p, p.volume, t, comment);
            d'.acct.positions == d.acct.positions - {p.ticket} && d'.acct.orders == d.acct.orders
            && d'.acct.login == d.acct.login
  {
  }

  /** Over a list of tickets, a position is closed exactly when it is listed and
      its stop or target is touched, and is otherwise left as it was. */
  lemma {:induction false} StopsExact(m: Feed, d: Desk, tickets: seq<int>, u: int)
    requires Sound(d) && NoRepeats(tickets) && u in d.acct.positions
    ensures StopDone(m, d.acct.positions[u], u in tickets, StopsFrom(m, d, tickets).acct, |d.acct.deals|)
    decreases |tickets|
  {
    hide StopStep, Sound;
    var p := d.acct.positions[u];
    if |tickets| > 0 {
      var d1 := StopStep(m, d, tickets[0]);
      KeyIsTicket(d, u);
      StopStepProper(m, d, tickets[0]);
      ProperLists(d, d1);
      StopStepAt(m, d, tickets[0], u);
      if u in d1.acct.positions {
        StopsExact(m, d1, tickets[1..], u);
        StopDoneSooner(m, p, u in tickets[1..], StopsFrom(m, d1, tickets[1..]).acct, |d1.acct.deals|, |d.acct.deals|);
      } else {
        StopsFromGone(m, d1, tickets[1..], u);
        ClosedOutLater(m, p, d1.acct, StopsFrom(m, d1, tickets[1..]).acct, |d.acct.deals|);
      }
    } else {
      KeyIsTicket(d, u);
    }
  }

  lemma KeyIsTicket(d: Desk, u: int)
    requires Sound(d) && u in d.acct.positions
    ensures d.acct.positions[u].ticket == u && d.acct.positions[u].action in {BUY, SELL}
  {
    assert PositionSound(d.acct, u);
  }

  lemma ProperLists(d: Desk, d': Desk)
    requires Proper(d, d')
    ensures Sound(d') && d.acct.history <= d'.acct.history && d.acct.deals <= d'.acct.deals && d.next <= d'.next
  {
  }

  lemma StopDoneSooner(m: Feed, p: Position, listed: bool, a: Account, mark: nat, sooner: nat)
    requires StopDone(m, p, listed, a, mark) && sooner <= mark
    ensures StopDone(m, p, listed, a, sooner)
  {
  }

  lemma ClosedOutLater(m: Feed, p: Position, a: Account, a': Account, mark: nat)
    requires StopTouched(m, p) && ClosedOut(m, p, a, mark)
    requires a.deals <= a'.deals && p.ticket !in a'.positions
    ensures ClosedOut(m, p, a', mark)
  {
    var t := MarketOf(m, p.symbol).tick;
    ClosedLater(a, a', mark, mark, p, if p.action == BUY then t.bid else t.ask, StopHit(p, t).value);
  }

  lemma {:induction false} StopsFromGone(m: Feed, d: Desk, tickets: seq<int>, u: int)
    requires Sound(d) && u !in d.acct.positions
    ensures u !in StopsFrom(m, d, tickets).acct.positions && d.acct.deals <= StopsFrom(m, d, tickets).acct.deals
    decreases |tickets|
  {
    hide Sound, StopStep;
    if |tickets| > 0 {
      StopStepProper(m, d, tickets[0]);
      ProperLists(d, StopStep(m, d, tickets[0]));
      StopStepShrinks(m, d, tickets[0]);
      StopsFromGone(m, StopStep(m, d, tickets[0]), tickets[1..], u);
    }
  }

  lemma StopStepShrinks(m: Feed, d: Desk, t: int)
    requires Sound(d)
    ensures var a, a' := d.acct, StopStep(m, d, t).acct;
            a'.positions.Keys <= a.positions.Keys && a'.orders == a.orders && a'.login == a.login
  {
    if t in d.acct.positions { assert PositionSound(d.acct, t); }
  }

  lemma {:induction false} StopsFromShrinks(m: Feed, d: Desk, tickets: seq<int>)
    requires Sound(d)
    ensures var a, a' := d.acct, StopsFrom(m, d, tickets).acct;
            a'.positions.Keys <= a.positions.Keys && a'.orders == a.orders && a'.login == a.login
    decreases |tickets|
  {
    hide Sound, StopStep;
    if |tickets| > 0 {
      StopStepProper(m, d, tickets[0]);
      ProperLists(d, StopStep(m, d, tickets[0]));
      StopStepShrinks(m, d, tickets[0]);
      StopsFromShrinks(m, StopStep(m, d, tickets[0]), tickets[1..]);
    }
  }

  /** The stop pass closes precisely the positions whose stop or target the
      market has touched, each with one deal over its whole volume at its
      closing side, and leaves every other one untouched. */
  lemma CheckStopsExact(m: Feed, d: Desk, u: int)
    requires Sound(d) && u in d.acct.positions
    ensures StopDone(m, d.acct.positions[u], true, CheckStops(m, d).acct, |d.acct.deals|)
  {
    StopsExact(m, d, Ascending(d.acct.positions.Keys), u);
  }

  // ---------- pending orders ----------

  /** The order is in history past a mark as it was, but for its state, the time
      it was done and what came of its volume. */
  ghost predicate EndedAs(a: Account, mark: nat, o: Order, state: OrderState, now: int) {
    exists i :: mark <= i < |a.history| && Ended(a.history[i], o, state, now)
  }

  predicate Ended(h: Order, o: Order, state: OrderState, now: int) {
    h == o.(state := state, timeDone := now, volumeCurrent := if state == Filled then 0 else o.volumeInitial,
            positionId := if state == Filled then o.ticket else o.positionId, comment := h.comment)
  }

  /** The price at which the order's next transition happens. */
  function Threshold(o: Order): real {
    if IsStopLimit(o.kind) then o.priceTrigger else o.priceOrder
  }

  /** The position that an order becomes: its own terms, opened at the side of
      the quote at which such an order trades. */
  function Became(o: Order, login: int, t: Tick, now: int): Position {
    Position(o.ticket, login, o.symbol, if IsBuy(o.kind) then BUY else SELL, now, if IsBuy(o.kind) then t.ask else t.bid,
             o.priceSL, o.priceTP, o.volumeCurrent, 0, 0, o.comment)
  }

  /** The position is open, or a deal past a mark closed it for want of margin. */
  ghost predicate Stands(m: Feed, a: Account, mark: nat, p: Position) {
    || (p.ticket in a.positions && a.positions[p.ticket] == p)
    || (p.ticket !in a.positions && ForcedOut(m, a, mark, p))
  }

  ghost predicate ForcedOut(m: Feed, a: Account, mark: nat, p: Position) {
    match Quote(m, p.symbol)
    case Some(t) => ClosedAt(a, mark, p, if p.action == BUY then t.bid else t.ask, "[so]")
    case None => false
  }

  /** One deal opened the position. */
  ghost predicate Entered(a: Account, p: Position) {
    exists i :: 0 <= i < |a.deals| && Opening(a.deals[i], p)
  }

  predicate Opening(deal: Deal, p: Position) {
    && deal.positionId == p.ticket && deal.order == p.ticket && deal.entry == ENTRY_IN && deal.action == p.action
    && deal.symbol == p.symbol && deal.volume == p.volume && deal.price == p.priceOpen && deal.comment == p.comment
  }

  /** The order has become a position, or was rejected for want of the margin
      that it would have taken. */
  ghost predicate Executed(m: Feed, ins: Instrument, t: Tick, o: Order, before: Account, a': Account, mark: nat, deals: nat) {
    var p := Became(o, before.login, t, m.now);
    if FreeOf(m, before) >= MarginFor(m, before.leverage, ins, o.volumeCurrent, p.priceOpen) then
      EndedAs(a', mark, o, Filled, m.now) && Entered(a', p) && Stands(m, a', deals, p)
    else EndedAs(a', mark, o, Rejected, m.now)
  }

  /** What a pass makes of a working order that finds the account as `before`
      when its turn comes: an expired order lapses; while the market is shut, or
      has not come to the order's threshold, it waits unchanged; a stop-limit
      that has been reached rests as a limit and nothing more; any other order is
      filled if the free margin covers it and rejected if not. Only deals past
      the second mark can have closed it again. */
  ghost predicate Verdict(m: Feed, o: Order, before: Account, a': Account, mark: nat, deals: nat) {
    var working := o.ticket in a'.orders;
    if Expiring(o, m.now) then !working && EndedAs(a', mark, o, Expired, m.now)
    else
      match MarketOf(m, o.symbol)
      case Shut(_) => working && a'.orders[o.ticket] == o
      case Open(ins, t) =>
        if RightSide(o.kind, Threshold(o), t) then working && a'.orders[o.ticket] == o
        else if IsStopLimit(o.kind) then
          working && a'.orders[o.ticket] == o.(kind := if o.kind == BUY_STOP_LIMIT then BUY_LIMIT else SELL_LIMIT)
        else !working && Executed(m, ins, t, o, before, a', mark, deals)
  }

  /** Nothing has happened to the order or position of this ticket. */
  predicate SameAt(a: Account, a': Account, u: int) {
    && (u in a'.orders <==> u in a.orders) && (u in a'.orders ==> a'.orders[u] == a.orders[u])
    && (u in a'.positions <==> u in a.positions) && (u in a'.positions ==> a'.positions[u] == a.positions[u])
  }

  lemma PendingStepElsewhere(m: Feed, d: Desk, t: int, u: int)
    requires Sound(d) && t != u
    ensures SameAt(d.acct, PendingStep(m, d, t).acct, u)
  {
    if t in d.acct.orders { assert OrderSound(d.acct, t); }
  }

  /** A limit or stop is reached exactly when the quote is no longer on the far
      side of its price, and then trades at the quote: a buy at the ask, a sell at
      the bid. A stop-limit is triggered in the same way. */
  lemma ReachedFills(o: Order, t: Tick)
    requires BUY_LIMIT <= o.kind <= SELL_STOP_LIMIT
    ensures !IsStopLimit(o.kind) ==>
              FillPrice(o, t) == if RightSide(o.kind, o.priceOrder, t) then None else Some(if IsBuy(o.kind) then t.ask else t.bid)
    ensures IsStopLimit(o.kind) ==> (Triggered(o, t) <==> !RightSide(o.kind, o.priceTrigger, t))
  {
  }

  lemma PendingStepVerdict(m: Feed, d: Desk, t: int, deals: nat)
    requires Sound(d) && t in d.acct.orders
    ensures Verdict(m, d.acct.orders[t], d.acct, PendingStep(m, d, t).acct, |d.acct.history|, deals)
  {
    var o := d.acct.orders[t];
    assert OrderSound(d.acct, t);
    hide Sound, PendingAt, Finish, Executed, RightSide;
    FinishEnds(d, o, Expired, m.now);
    if MarketOf(m, o.symbol).Open? {
      PendingAtVerdict(m, d, o, MarketOf(m, o.symbol).ins, MarketOf(m, o.symbol).tick, deals);
    }
  }

  lemma PendingAtVerdict(m: Feed, d: Desk, o: Order, ins: Instrument, t: Tick, deals: nat)
    requires o.ticket in d.acct.orders && d.acct.orders[o.ticket] == o && OrderSound(d.acct, o.ticket)
    ensures var a' := PendingAt(m, d, o, ins, t).acct;
            var working := o.ticket in a'.orders;
            if RightSide(o.kind, Threshold(o), t) then working && a'.orders[o.ticket] == o
            else if IsStopLimit(o.kind) then
              working && a'.orders[o.ticket] == o.(kind := if o.kind == BUY_STOP_LIMIT then BUY_LIMIT else SELL_LIMIT)
            else !working && Executed(m, ins, t, o, d.acct, a', |d.acct.history|, deals)
  {
    ReachedFills(o, t);
    hide MarginFor, FreeOf, Executed, FillOrder, Finish, FillPrice, RightSide, Triggered;
    if !RightSide(o.kind, Threshold(o), t) && !IsStopLimit(o.kind) {
      RejectedEnds(d, o, m.now);
      FillExecutes(m, d, o, t, deals);
      ExecutedIf(m, ins, t, o, d.acct, PendingAt(m, d, o, ins, t).acct, |d.acct.history|, deals);
    }
  }

  lemma FinishEnds(d: Desk, o: Order, state: OrderState, now: int)
    requires o.ticket in d.acct.orders && state != Filled
    ensures var a' := Finish(d, o, state, now).acct;
            o.ticket !in a'.orders && EndedAs(a', |d.acct.history|, o, state, now)
  {
    assert Ended(Finish(d, o, state, now).acct.history[|d.acct.history|], o, state, now);
  }

  lemma RejectedEnds(d: Desk, o: Order, now: int)
    requires o.ticket in d.acct.orders
    ensures var a' := Finish(d, o.(comment := "no money"), Rejected, now).acct;
            o.ticket !in a'.orders && EndedAs(a', |d.acct.history|, o, Rejected, now)
  {
    assert Ended(Finish(d, o.(comment := "no money"), Rejected, now).acct.history[|d.acct.history|], o, Rejected, now);
  }

  lemma FillExecutes(m: Feed, d: Desk, o: Order, t: Tick, deals: nat)
    requires o.ticket in d.acct.orders && d.acct.orders[o.ticket] == o && o.volumeInitial == o.volumeCurrent
    ensures var p := Became(o, d.acct.login, t, m.now);
            var a' := FillOrder(d, o, p.priceOpen, m.now).acct;
            && o.ticket !in a'.orders && EndedAs(a', |d.acct.history|, o, Filled, m.now)
            && Entered(a', p) && Stands(m, a', deals, p)
  {
    var p := Became(o, d.acct.login, t, m.now);
    var a' := FillOrder(d, o, p.priceOpen, m.now).acct;
    assert Opening(a'.deals[|d.acct.deals|], p);
    assert Ended(a'.history[|d.acct.history|], o, Filled, m.now);
  }

  lemma ExecutedIf(m: Feed, ins: Instrument, t: Tick, o: Order, before: Account, a': Account, mark: nat, deals: nat)
    ensures var p := Became(o, before.login, t, m.now);
            (if FreeOf(m, before) >= MarginFor(m, before.leverage, ins, o.volumeCurrent, p.priceOpen) then
               EndedAs(a', mark, o, Filled, m.now) && Entered(a', p) && Stands(m, a', deals, p)
             else EndedAs(a', mark, o, Rejected, m.now))
            <==> Executed(m, ins, t, o, before, a', mark, deals)
  {
    hide MarginFor, FreeOf, Entered, Stands, EndedAs;
  }

  /** Later steps of the pass do not touch an order that had its turn. */
  lemma {:induction false} PendingFromElsewhere(m: Feed, d: Desk, tickets: seq<int>, u: int)
    requires Sound(d) && u !in tickets
    ensures SameAt(d.acct, PendingFrom(m, d, tickets).acct, u)
    decreases |tickets|
  {
    hide PendingStep;
    if |tickets| > 0 {
      PendingStepProper(m, d, tickets[0]);
      PendingStepElsewhere(m, d, tickets[0], u);
      PendingFromElsewhere(m, PendingStep(m, d, tickets[0]), tickets[1..], u);
    }
  }

  lemma VerdictLater(m: Feed, o: Order, before: Account, a: Account, a': Account, mark: nat, deals: nat)
    requires Verdict(m, o, before, a, mark, deals) && a.history <= a'.history && a.deals <= a'.deals && SameAt(a, a', o.ticket)
    ensures Verdict(m, o, before, a', mark, deals)
  {
    hide MarginFor, FreeOf;
    var t := MarketOf(m, o.symbol);
    if t.Open? {
      var p := Became(o, before.login, t.tick, m.now);
      if Entered(a, p) { EnteredLater(a, a', p); }
      if ForcedOut(m, a, deals, p) { ForcedLater(m, a, a', deals, p); }
    }
  }

  lemma EnteredLater(a: Account, a': Account, p: Position)
    requires Entered(a, p) && a.deals <= a'.deals
    ensures Entered(a', p)
  {
    var i :| 0 <= i < |a.deals| && Opening(a.deals[i], p);
    assert a'.deals[i] == a.deals[i];
  }

  lemma ForcedLater(m: Feed, a: Account, a': Account, mark: nat, p: Position)
    requires ForcedOut(m, a, mark, p) && a.deals <= a'.deals
    ensures ForcedOut(m, a', mark, p)
  {
    var t := Quote(m, p.symbol).value;
    ClosedLater(a, a', mark, mark, p, if p.action == BUY then t.bid else t.ask, "[so]");
  }

  lemma VerdictSooner(m: Feed, o: Order, before: Account, a: Account, mark: nat, later: nat, deals: nat)
    requires mark <= later && Verdict(m, o, before, a, later, deals)
    ensures Verdict(m, o, before, a, mark, deals)
  {
    hide MarginFor, FreeOf, Stands, Entered;
  }

  lemma {:induction false} PendingFromVerdict(m: Feed, d: Desk, tickets: seq<int>, k: nat, mark: nat, deals: nat)
    requires Sound(d) && NoRepeats(tickets) && k < |tickets| && tickets[k] in d.acct.orders && mark <= |d.acct.history|
    ensures Verdict(m, d.acct.orders[tickets[k]], PendingFrom(m, d, tickets[..k]).acct,
                    PendingFrom(m, d, tickets).acct, mark, deals)
    decreases |tickets|
  {
    hide PendingStep, Verdict, Sound;
    var t, u := tickets[0], tickets[k];
    var d1 := PendingStep(m, d, t);
    PendingStepProper(m, d, t);
    TicketIsKey(d, u);
    if k == 0 {
      PendingStepVerdict(m, d, u, deals);
      VerdictSooner(m, d.acct.orders[u], d.acct, d1.acct, mark, |d.acct.history|, deals);
      PendingFromElsewhere(m, d1, tickets[1..], u);
      PendingFromProper(m, d1, tickets[1..]);
      VerdictLater(m, d.acct.orders[u], d.acct, d1.acct, PendingFrom(m, d1, tickets[1..]).acct, mark, deals);
    } else {
      PendingStepElsewhere(m, d, t, u);
      PendingFromVerdict(m, d1, tickets[1..], k - 1, mark, deals);
      assert tickets[..k][1..] == tickets[1..][..k - 1];
    }
  }

  lemma TicketIsKey(d: Desk, u: int)
    requires Sound(d) && u in d.acct.orders
    ensures d.acct.orders[u].ticket == u
  {
    assert OrderSound(d.acct, u);
  }

  /** Every working order gets the verdict that its own state, the market and
      the free margin call for, the margin being that of the account after all
      orders with lower tickets have had their turn. In particular a stop-limit
      is never filled in the pass that triggers it, and no expired order
      survives. */
  lemma CheckPendingVerdict(m: Feed, d: Desk, k: nat)
    requires Sound(d) && k < |Ascending(d.acct.orders.Keys)|
    ensures var tickets := Ascending(d.acct.orders.Keys);
            var a' := CheckPending(m, d).acct;
            Verdict(m, d.acct.orders[tickets[k]], PendingFrom(m, d, tickets[..k]).acct, a', |d.acct.history|, |a'.deals|)
  {
    PendingFromVerdict(m, d, Ascending(d.acct.orders.Keys), k, |d.acct.history|, |CheckPending(m, d).acct.deals|);
  }

  /** The pass opens positions only under the tickets of working orders. */
  lemma {:induction false} PendingFromKeys(m: Feed, d: Desk, tickets: seq<int>)
    requires Sound(d)
    ensures var a, a' := d.acct, PendingFrom(m, d, tickets).acct;
            a'.positions.Keys <= a.positions.Keys + a.orders.Keys && a'.orders.Keys <= a.orders.Keys
    decreases |tickets|
  {
    hide Sound, PendingStep;
    if |tickets| > 0 {
      PendingStepProper(m, d, tickets[0]);
      ProperLists(d, PendingStep(m, d, tickets[0]));
      PendingStepKeys(m, d, tickets[0]);
      PendingFromKeys(m, PendingStep(m, d, tickets[0]), tickets[1..]);
    }
  }

  lemma PendingStepKeys(m: Feed, d: Desk, t: int)
    requires Sound(d)
    ensures var a, a' := d.acct, PendingStep(m, d, t).acct;
            a'.positions.Keys <= a.positions.Keys + a.orders.Keys && a'.orders.Keys <= a.orders.Keys
  {
    if t in d.acct.orders { assert OrderSound(d.acct, t); }
    hide PendingStep, Sound;
    PendingStepCases(m, d, t);
  }
}
