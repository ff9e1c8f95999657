/** Every request and every pass of the engine is a proper step. */
module EngineProofs {
  import opened Rounding
  import opened Market
  import opened Book
  import opened Engine

  // ---------- what appending does ----------

  lemma AppendTickets(h: seq<Order>, o: Order, ds: seq<Deal>, d: Deal)
    ensures multiset(OrderTickets(h + [o])) == multiset(OrderTickets(h)) + multiset{o.ticket}
    ensures multiset(DealTickets(ds + [d])) == multiset(DealTickets(ds)) + multiset{d.ticket}
  {
    assert OrderTickets(h + [o]) == OrderTickets(h) + [o.ticket];
    assert DealTickets(ds + [d]) == DealTickets(ds) + [d.ticket];
  }

  lemma IssuedNext(n: int)
    ensures Issued(n, n) == multiset{}
    ensures Issued(n, n + 1) == multiset{n}
    ensures Issued(n, n + 2) == multiset{n, n + 1}
  {
  }

  lemma DistinctKept(a: Account, n: int, a': Account, n': int)
    requires 0 < n <= n' && Distinct(a, n) && Tickets(a') == Tickets(a) + Issued(n, n')
    ensures Distinct(a', n')
  {
  }

  lemma HistoryGrows(h: seq<Order>, o: Order, d: Deal, t: int)
    ensures Backed(h, d) ==> Backed(h + [o], d)
    ensures HasFilled(h, t) ==> HasFilled(h + [o], t)
  {
    if i :| 0 <= i < |h| && Explains(h[i], d) {
      assert Explains((h + [o])[i], d);
    }
    if i :| 0 <= i < |h| && h[i].ticket == t && h[i].state == Filled && h[i].positionId == t {
      assert (h + [o])[i] == h[i];
    }
  }

  lemma LastBacks(h: seq<Order>, o: Order, d: Deal)
    requires Explains(o, d)
    ensures Backed(h + [o], d)
  {
    assert (h + [o])[|h|] == o;
  }

  lemma SumsAppend(ds: seq<Deal>, d: Deal, pid: int)
    ensures NetVolume(ds + [d], pid) == NetVolume(ds, pid) + VolumeInto(pid)(d)
    ensures SumBy(ds + [d], StorageInto(pid)) == SumBy(ds, StorageInto(pid)) + StorageInto(pid)(d)
    ensures SumBy(ds + [d], CommissionInto(pid)) == SumBy(ds, CommissionInto(pid)) + CommissionInto(pid)(d)
  {
  }

  /** A position's ticket is in history, so it is no working order's ticket. */
  lemma PositionNotWorking(d: Desk, t: int)
    requires Distinct(d.acct, d.next) && t in d.acct.positions && HasFilled(d.acct.history, t)
    ensures t !in d.acct.orders && t < d.next
  {
    var a := d.acct;
    var i :| 0 <= i < |a.history| && a.history[i].ticket == t && a.history[i].state == Filled && a.history[i].positionId == t;
    assert OrderTickets(a.history)[i] == t;
    assert t in multiset(OrderTickets(a.history));
    assert t in Tickets(a);
    assert Tickets(a)[t] <= 1;
  }

  lemma FreshTicket(d: Desk, t: int)
    requires Sound(d) && t >= d.next
    ensures t !in d.acct.positions && t !in d.acct.orders
  {
    if t in d.acct.positions { PositionNotWorking(d, t); }
    assert t !in Tickets(d.acct);
  }

  // ---------- booking one order and one deal ----------

  /** Where a booked order's ticket comes from: fresh, or a working order that
      leaves the working set. */
  ghost predicate Numbered(d: Desk, d': Desk, o: Order, deal: Deal) {
    var a, a' := d.acct, d'.acct;
    if a'.orders == a.orders then
      o.ticket == d.next && deal.ticket == d.next + 1 && d'.next == d.next + 2
    else
      && o.ticket in a.orders && a'.orders == a.orders - {o.ticket} && SameOrder(a.orders[o.ticket], o)
      && deal.ticket == d.next && d'.next == d.next + 1
  }

  function Carried(a: Account, pid: int): (int, int) {
    if pid in a.positions then (a.positions[pid].storage, a.positions[pid].commission) else (0, 0)
  }

  /** One order and one deal about one position are appended, and the position
      and the balance change by exactly what the deal says. */
  ghost predicate Books(d: Desk, d': Desk, o: Order, deal: Deal) {
    var a, a', pid := d.acct, d'.acct, deal.positionId;
    && a'.login == a.login && a'.currency == a.currency && a'.credit == a.credit
    && a'.history == a.history + [o] && a'.deals == a.deals + [deal]
    && Numbered(d, d', o, deal)
    && FinalSound(o, a.login) && Explains(o, deal) && deal.login == a.login
    && a'.positions - {pid} == a.positions - {pid}
    && (pid in a'.positions ==> PositionSound(a', pid))
    && (pid in a'.positions && pid !in a.positions ==> o.ticket == pid && o.positionId == pid)
    && OpenVolume(a', pid) == OpenVolume(a, pid) + VolumeInto(pid)(deal)
    && Carried(a', pid).0 + deal.storage == Carried(a, pid).0
    && Carried(a', pid).1 + deal.commission == Carried(a, pid).1
    && a'.balance == a.balance + CashOf()(deal)
  }

  lemma BooksTickets(d: Desk, d': Desk, o: Order, deal: Deal)
    requires Sound(d) && Books(d, d', o, deal)
    ensures d.next <= d'.next && Tickets(d'.acct) == Tickets(d.acct) + Issued(d.next, d'.next)
    ensures Distinct(d'.acct, d'.next)
  {
    hide Distinct, PositionsSound, OrdersSound, HistorySound, DealsSound, VolumesMatch, Issued;
    hide FinalSound, Explains, PositionSound, OpenVolume, Carried, SameOrder, OrderTickets, DealTickets;
    AppendTickets(d.acct.history, o, d.acct.deals, deal);
    IssuedNext(d.next);
    if d'.acct.orders != d.acct.orders {
      FinishTickets(d.acct, o.ticket);
    }
    DistinctKept(d.acct, d.next, d'.acct, d'.next);
  }

  lemma FinishTickets(a: Account, t: int)
    requires t in a.orders
    ensures multiset(a.orders.Keys) == multiset((a.orders - {t}).Keys) + multiset{t}
  {
  }

  lemma BooksDeals(a: Account, a': Account, o: Order, deal: Deal)
    requires HistorySound(a) && DealsSound(a)
    requires a'.login == a.login && a'.history == a.history + [o] && a'.deals == a.deals + [deal]
    requires FinalSound(o, a.login) && Explains(o, deal) && deal.login == a.login
    ensures HistorySound(a') && DealsSound(a')
  {
    forall i | 0 <= i < |a'.deals|
      ensures a'.deals[i].login == a.login && Backed(a'.history, a'.deals[i])
    {
      if i < |a.deals| {
        HistoryGrows(a.history, o, a.deals[i], 0);
      } else {
        LastBacks(a.history, o, deal);
      }
    }
  }

  lemma BooksPositions(a: Account, a': Account, o: Order, pid: int)
    requires PositionsSound(a) && a'.login == a.login && a'.history == a.history + [o]
    requires a'.positions - {pid} == a.positions - {pid}
    requires pid in a'.positions ==> PositionSound(a', pid)
    requires pid in a'.positions && pid !in a.positions ==> o.ticket == pid && o.positionId == pid && o.state == Filled
    ensures PositionsSound(a')
  {
    forall u | u in a'.positions
      ensures PositionSound(a', u) && HasFilled(a'.history, u)
    {
      if u == pid && pid !in a.positions {
        assert a'.history[|a.history|].positionId == u;
      } else {
        assert u != pid ==> u in a'.positions - {pid} && u in a.positions - {pid} && (a'.positions - {pid})[u] == (a.positions - {pid})[u];
        assert PositionSound(a, u) && HasFilled(a.history, u);
        FilledGrows(a.history, o, u);
      }
    }
  }

  lemma FilledGrows(h: seq<Order>, o: Order, t: int)
    requires HasFilled(h, t)
    ensures HasFilled(h + [o], t)
  {
    var i :| 0 <= i < |h| && h[i].ticket == t && h[i].state == Filled && h[i].positionId == t;
    assert (h + [o])[i] == h[i];
  }

  lemma BooksSums(a: Account, a': Account, deal: Deal)
    requires VolumesMatch(a)
    requires a'.deals == a.deals + [deal]
    requires a'.positions - {deal.positionId} == a.positions - {deal.positionId}
    requires OpenVolume(a', deal.positionId) == OpenVolume(a, deal.positionId) + VolumeInto(deal.positionId)(deal)
    requires Carried(a', deal.positionId).0 + deal.storage == Carried(a, deal.positionId).0
    requires Carried(a', deal.positionId).1 + deal.commission == Carried(a, deal.positionId).1
    ensures VolumesMatch(a') && CostsKept(a, a')
  {
    forall pid: int
      ensures NetVolume(a'.deals, pid) == OpenVolume(a', pid)
      ensures StorageOf(a', pid) == StorageOf(a, pid) && CommissionOf(a', pid) == CommissionOf(a, pid)
    {
      SumsAppend(a.deals, deal, pid);
      assert NetVolume(a.deals, pid) == OpenVolume(a, pid);
      if pid != deal.positionId {
        SamePosition(a, a', deal.positionId, pid);
      }
    }
  }

  lemma SamePosition(a: Account, a': Account, pid: int, u: int)
    requires a'.positions - {pid} == a.positions - {pid} && u != pid
    ensures u in a'.positions <==> u in a.positions
    ensures u in a.positions ==> a'.positions[u] == a.positions[u]
  {
    assert u in a'.positions <==> u in a'.positions - {pid};
    assert u in a.positions <==> u in a.positions - {pid};
    if u in a.positions {
      assert (a'.positions - {pid})[u] == (a.positions - {pid})[u];
    }
  }

  /** The orders of an account after at most one of them moved to history. */
  lemma FinishFates(a: Account, a': Account, o: Order)
    requires OrdersSound(a) && a'.history == a.history + [o] && a'.login == a.login
    requires a'.orders == a.orders
             || (o.ticket in a.orders && a'.orders == a.orders - {o.ticket} && SameOrder(a.orders[o.ticket], o))
    ensures FatesKept(a, a') && OrdersSound(a')
  {
    forall t | t in a.orders
      ensures Fate(a.orders[t], a', |a.history|)
    {
      assert OrderSound(a, t);
      if t !in a'.orders {
        assert SameOrder(a.orders[t], a'.history[|a.history|]);
      }
    }
    forall t | t in a'.orders
      ensures OrderSound(a', t)
    {
      assert OrderSound(a, t);
    }
  }

  lemma BooksProper(d: Desk, d': Desk, o: Order, deal: Deal)
    requires Sound(d) && Books(d, d', o, deal)
    ensures Proper(d, d')
  {
    hide Distinct, PositionsSound, OrdersSound, HistorySound, DealsSound, VolumesMatch, Issued, Tickets;
    hide FinalSound, PositionSound, OpenVolume, Carried, SameOrder, FatesKept, CostsKept;
    var a, a' := d.acct, d'.acct;
    BooksTickets(d, d', o, deal);
    BooksDeals(a, a', o, deal);
    BooksPositions(a, a', o, deal.positionId);
    BooksSums(a, a', deal);
    FinishFates(a, a', o);
    SumByAppend(a.deals, deal, CashOf());
  }

  // ---------- settling, opening and filling ----------

  lemma FullShare(p: Position)
    requires p.volume > 0
    ensures Round(p.storage as real * Share(p, p.volume)) == p.storage
    ensures Round(p.commission as real * Share(p, p.volume)) == p.commission
  {
    WholeShare(p.volume as real);
    RoundWhole(p.storage);
    RoundWhole(p.commission);
  }

  lemma WholeShare(v: real)
    requires v > 0.0
    ensures v / v == 1.0
  {
  }

  /** What settling does to an account, whatever amounts the deal carries. */
  function Reduced(a: Account, p: Position, o: Order, deal: Deal): Account {
    var rest := p.(volume := p.volume - deal.volume, storage := p.storage - deal.storage,
                   commission := p.commission - deal.commission);
    a.(balance := a.balance + deal.profit + deal.storage + deal.commission,
       positions := if deal.volume >= p.volume then a.positions - {p.ticket} else a.positions[p.ticket := rest],
       history := a.history + [o], deals := a.deals + [deal])
  }

  /** The order and deal of a close, as far as booking them is concerned. */
  ghost predicate Closes(d: Desk, p: Position, o: Order, deal: Deal) {
    && FinalSound(o, d.acct.login) && Explains(o, deal) && deal.login == d.acct.login
    && deal.entry == ENTRY_OUT && deal.positionId == p.ticket
    && o.ticket == d.next && deal.ticket == d.next + 1
    && if deal.volume == p.volume then deal.storage == p.storage && deal.commission == p.commission
       else 0 < deal.volume < p.volume && ValidVolume(deal.volume)
  }

  lemma ReducedBooks(d: Desk, p: Position, o: Order, deal: Deal)
    requires p.ticket in d.acct.positions && p == d.acct.positions[p.ticket] && PositionSound(d.acct, p.ticket)
    requires Closes(d, p, o, deal)
    ensures Books(d, Desk(Reduced(d.acct, p, o, deal), d.next + 2), o, deal)
  {
  }

  lemma SettleCloses(m: Feed, d: Desk, p: Position, vol: int, t: Tick, comment: string)
    requires PositionSoundAlone(p) && 0 < vol <= p.volume && (vol == p.volume || ValidVolume(vol))
    ensures Closes(d, p, SettledOrder(d.acct, p, vol, t, comment, d.next, m.now),
                   SettledDeal(m, d.acct, p, vol, t, comment, d.next))
  {
    if vol == p.volume {
      FullShare(p);
    }
  }

  predicate PositionSoundAlone(p: Position) {
    p.action in {BUY, SELL} && p.volume > 0
  }

  lemma SettleIsReduced(m: Feed, d: Desk, p: Position, vol: int, t: Tick, comment: string)
    ensures Settle(m, d, p, vol, t, comment)
            == Desk(Reduced(d.acct, p, SettledOrder(d.acct, p, vol, t, comment, d.next, m.now),
                            SettledDeal(m, d.acct, p, vol, t, comment, d.next)), d.next + 2)
  {
  }

  lemma SettleProper(m: Feed, d: Desk, p: Position, vol: int, t: Tick, comment: string)
    requires Sound(d) && p.ticket in d.acct.positions && p == d.acct.positions[p.ticket]
    requires 0 < vol <= p.volume && (vol == p.volume || ValidVolume(vol))
    ensures Proper(d, Settle(m, d, p, vol, t, comment))
  {
    assert PositionSound(d.acct, p.ticket);
    SettleCloses(m, d, p, vol, t, comment);
    SettleIsReduced(m, d, p, vol, t, comment);
    ClosesProper(d, p, SettledOrder(d.acct, p, vol, t, comment, d.next, m.now),
                 SettledDeal(m, d.acct, p, vol, t, comment, d.next), Settle(m, d, p, vol, t, comment));
  }

  lemma ClosesProper(d: Desk, p: Position, o: Order, deal: Deal, d': Desk)
    requires Sound(d) && p.ticket in d.acct.positions && p == d.acct.positions[p.ticket]
    requires Closes(d, p, o, deal) && d' == Desk(Reduced(d.acct, p, o, deal), d.next + 2)
    ensures Proper(d, d')
  {
    assert PositionSound(d.acct, p.ticket);
    ReducedBooks(d, p, o, deal);
    BooksProper(d, d', o, deal);
  }

  lemma OpenedProper(m: Feed, d: Desk, r: Request, price: real)
    requires Sound(d) && r.kind in {BUY, SELL} && ValidVolume(r.volume) && price > 0.0
    ensures Proper(d, Opened(m, d, r, price))
  {
    hide Sound, Proper, Books;
    FreshTicket(d, d.next);
    OpenedBooks(m, d, r, price);
    var o := OpenedOrder(d.acct, r, price, d.next, m.now);
    BooksProper(d, Opened(m, d, r, price), o, EntryDeal(d.acct, o, r.kind, price, d.next + 1, m.now));
  }

  lemma OpenedBooks(m: Feed, d: Desk, r: Request, price: real)
    requires d.next !in d.acct.positions && r.kind in {BUY, SELL} && ValidVolume(r.volume) && price > 0.0
    ensures var o := OpenedOrder(d.acct, r, price, d.next, m.now);
            Books(d, Opened(m, d, r, price), o, EntryDeal(d.acct, o, r.kind, price, d.next + 1, m.now))
  {
  }

  lemma FillProper(d: Desk, ticket: int, fill: real, now: int)
    requires Sound(d) && ticket in d.acct.orders && !IsStopLimit(d.acct.orders[ticket].kind) && fill > 0.0
    requires d.acct.orders[ticket].kind == BUY_LIMIT ==> fill <= d.acct.orders[ticket].priceOrder
    requires d.acct.orders[ticket].kind == SELL_LIMIT ==> fill >= d.acct.orders[ticket].priceOrder
    ensures Proper(d, FillOrder(d, d.acct.orders[ticket], fill, now))
  {
    var a, o := d.acct, d.acct.orders[ticket];
    assert OrderSound(a, ticket);
    if ticket in a.positions { PositionNotWorking(d, ticket); }
    hide Sound, Proper, Books;
    var d' := FillOrder(d, o, fill, now);
    FillBooks(d, ticket, fill, now);
    BooksProper(d, d', d'.acct.history[|a.history|], d'.acct.deals[|a.deals|]);
  }

  lemma FillBooks(d: Desk, ticket: int, fill: real, now: int)
    requires ticket in d.acct.orders && OrderSound(d.acct, ticket) && ticket !in d.acct.positions
    requires !IsStopLimit(d.acct.orders[ticket].kind) && fill > 0.0
    requires d.acct.orders[ticket].kind == BUY_LIMIT ==> fill <= d.acct.orders[ticket].priceOrder
    requires d.acct.orders[ticket].kind == SELL_LIMIT ==> fill >= d.acct.orders[ticket].priceOrder
    ensures var d' := FillOrder(d, d.acct.orders[ticket], fill, now);
            Books(d, d', d'.acct.history[|d.acct.history|], d'.acct.deals[|d.acct.deals|])
  {
  }

  // ---------- working orders ----------

  /** Positions, history, deals and balance that did not change stay sound. */
  lemma UntouchedProper(d: Desk, d': Desk)
    requires Sound(d) && d.next <= d'.next
    requires d'.acct.(orders := d.acct.orders) == d.acct
    requires Tickets(d'.acct) == Tickets(d.acct) + Issued(d.next, d'.next)
    requires OrdersSound(d'.acct) && FatesKept(d.acct, d'.acct)
    ensures Proper(d, d')
  {
    DistinctKept(d.acct, d.next, d'.acct, d'.next);
    forall t | t in d'.acct.positions
      ensures PositionSound(d'.acct, t)
    {
      assert PositionSound(d.acct, t);
    }
    forall pid: int
      ensures NetVolume(d'.acct.deals, pid) == OpenVolume(d'.acct, pid)
    {
      assert NetVolume(d.acct.deals, pid) == OpenVolume(d.acct, pid);
    }
  }

  /** Replacing a working order by a sound one with the same identity. */
  lemma ReworkProper(d: Desk, ticket: int, o': Order)
    requires Sound(d) && ticket in d.acct.orders && SameOrder(d.acct.orders[ticket], o')
    requires OrderSound(d.acct.(orders := d.acct.orders[ticket := o']), ticket)
    ensures Proper(d, d.(acct := d.acct.(orders := d.acct.orders[ticket := o'])))
  {
    var d' := d.(acct := d.acct.(orders := d.acct.orders[ticket := o']));
    assert d'.acct.orders.Keys == d.acct.orders.Keys;
    IssuedNext(d.next);
    forall t | t in d'.acct.orders
      ensures OrderSound(d'.acct, t) && Fate(d.acct.orders[t], d'.acct, |d.acct.history|)
    {
      assert OrderSound(d.acct, t);
    }
    UntouchedProper(d, d');
  }

  lemma PlaceProper(d: Desk, o: Order)
    requires Sound(d) && o.ticket == d.next
    requires OrderSound(d.acct.(orders := d.acct.orders[d.next := o]), d.next)
    ensures Proper(d, Desk(d.acct.(orders := d.acct.orders[d.next := o]), d.next + 1))
  {
    var d' := Desk(d.acct.(orders := d.acct.orders[d.next := o]), d.next + 1);
    FreshTicket(d, d.next);
    PlacedOrders(d, o);
    hide Sound, Proper, Issued, Tickets, OrdersSound, FatesKept, OrderSound;
    PlacedTickets(d, o);
    UntouchedProper(d, d');
  }

  lemma PlacedTickets(d: Desk, o: Order)
    requires d.next !in d.acct.orders
    ensures Tickets(d.acct.(orders := d.acct.orders[d.next := o])) == Tickets(d.acct) + Issued(d.next, d.next + 1)
  {
    assert d.acct.orders[d.next := o].Keys == d.acct.orders.Keys + {d.next};
    IssuedNext(d.next);
  }

  lemma PlacedOrders(d: Desk, o: Order)
    requires Sound(d) && o.ticket == d.next && d.next !in d.acct.orders
    requires OrderSound(d.acct.(orders := d.acct.orders[d.next := o]), d.next)
    ensures var a' := d.acct.(orders := d.acct.orders[d.next := o]);
            OrdersSound(a') && FatesKept(d.acct, a')
  {
    var a' := d.acct.(orders := d.acct.orders[d.next := o]);
    forall t | t in a'.orders
      ensures OrderSound(a', t)
      ensures t in d.acct.orders ==> Fate(d.acct.orders[t], a', |d.acct.history|)
    {
      if t in d.acct.orders { assert OrderSound(d.acct, t); }
    }
  }

  lemma FinishProper(d: Desk, ticket: int, comment: string, state: OrderState, now: int)
    requires Sound(d) && ticket in d.acct.orders && state in {Canceled, Rejected, Expired}
    ensures Proper(d, Finish(d, d.acct.orders[ticket].(comment := comment), state, now))
  {
    assert OrderSound(d.acct, ticket);
    var o := d.acct.orders[ticket].(comment := comment);
    var d' := Finish(d, o, state, now);
    FinishedProper(d, d', d'.acct.history[|d.acct.history|]);
  }

  lemma FinishedProper(d: Desk, d': Desk, done: Order)
    requires Sound(d) && d'.next == d.next && done.ticket in d.acct.orders
    requires d'.acct == d.acct.(orders := d.acct.orders - {done.ticket}, history := d.acct.history + [done])
    requires FinalSound(done, d.acct.login) && SameOrder(d.acct.orders[done.ticket], done)
    ensures Proper(d, d')
  {
    FinishedTickets(d, d', done);
    FinishFates(d.acct, d'.acct, done);
    BooksPositions(d.acct, d'.acct, done, 0);
    FinishedDeals(d.acct, d'.acct, done);
  }

  lemma FinishedTickets(d: Desk, d': Desk, done: Order)
    requires d.next > 0 && Distinct(d.acct, d.next)
    requires d'.next == d.next && done.ticket in d.acct.orders && d'.acct.deals == d.acct.deals
    requires d'.acct.orders == d.acct.orders - {done.ticket} && d'.acct.history == d.acct.history + [done]
    ensures Tickets(d'.acct) == Tickets(d.acct) + Issued(d.next, d'.next)
    ensures Distinct(d'.acct, d'.next)
  {
    FinishTickets(d.acct, done.ticket);
    assert OrderTickets(d'.acct.history) == OrderTickets(d.acct.history) + [done.ticket];
    IssuedNext(d.next);
    DistinctKept(d.acct, d.next, d'.acct, d'.next);
  }

  lemma FinishedDeals(a: Account, a': Account, done: Order)
    requires a' == a.(orders := a.orders - {done.ticket}, history := a.history + [done])
    requires DealsSound(a) && VolumesMatch(a)
    ensures DealsSound(a') && VolumesMatch(a') && CostsKept(a, a')
  {
    forall i | 0 <= i < |a'.deals|
      ensures a'.deals[i].login == a.login && Backed(a'.history, a'.deals[i])
    {
      HistoryGrows(a.history, done, a.deals[i], 0);
    }
    forall pid: int
      ensures NetVolume(a'.deals, pid) == OpenVolume(a', pid)
    {
      assert NetVolume(a.deals, pid) == OpenVolume(a, pid);
    }
  }

  lemma StopsProper(d: Desk, ticket: int, sl: real, tp: real)
    requires Sound(d) && ticket in d.acct.positions
    ensures Proper(d, d.(acct := d.acct.(positions :=
                        d.acct.positions[ticket := d.acct.positions[ticket].(priceSL := sl, priceTP := tp)])))
  {
    var p' := d.acct.positions[ticket].(priceSL := sl, priceTP := tp);
    var d' := d.(acct := d.acct.(positions := d.acct.positions[ticket := p']));
    var a, a' := d.acct, d'.acct;
    IssuedNext(d.next);
    DistinctKept(a, d.next, a', d'.next);
    forall t | t in a'.positions
      ensures PositionSound(a', t) && HasFilled(a'.history, t)
    {
      assert PositionSound(a, t) && HasFilled(a.history, t);
    }
    forall t | t in a.orders
      ensures OrderSound(a', t) && Fate(a.orders[t], a', |a.history|)
    {
      assert OrderSound(a, t);
    }
    forall pid: int
      ensures NetVolume(a'.deals, pid) == OpenVolume(a', pid)
    {
      assert NetVolume(a.deals, pid) == OpenVolume(a, pid);
    }
  }

  // ---------- dealer requests ----------

  lemma PlacedOrderSound(m: Feed, d: Desk, r: Request, ins: Instrument, trigger: real)
    requires BUY_LIMIT <= r.kind <= SELL_STOP_LIMIT && ValidVolume(r.volume)
    ensures var o := PlacedOrder(m, d.acct, r, ins, trigger, d.next);
            o.ticket == d.next && OrderSound(d.acct.(orders := d.acct.orders[d.next := o]), d.next)
  {
  }

  lemma PlacePendingProper(m: Feed, d: Desk, r: Request)
    requires Sound(d)
    ensures Proper(d, PlacePending(m, d, r).desk)
  {
    hide Sound, Proper;
    ProperRefl(d);
    var reply := PlacePending(m, d, r);
    if reply.answer.retcode == RcPlaced {
      var ins := m.listed[r.symbol];
      var trigger := if IsStopLimit(r.kind) && r.priceTrigger > 0.0 then r.priceTrigger else r.priceOrder;
      PlacedOrderSound(m, d, r, ins, trigger);
      PlaceProper(d, PlacedOrder(m, d.acct, r, ins, trigger, d.next));
    }
  }

  lemma ModifyWorkingProper(m: Feed, d: Desk, r: Request)
    requires Sound(d)
    ensures Proper(d, ModifyWorking(m, d, r).desk)
  {
    ProperRefl(d);
    if ModifyWorking(m, d, r).answer.retcode == RcDone {
      assert OrderSound(d.acct, r.order);
      ReworkProper(d, r.order, ModifyWorking(m, d, r).desk.acct.orders[r.order]);
    }
  }

  lemma ClosePositionProper(m: Feed, d: Desk, r: Request)
    requires Sound(d)
    ensures Proper(d, ClosePosition(m, d, r).desk)
  {
    ProperRefl(d);
    if ClosePosition(m, d, r).answer.retcode == RcDone {
      assert PositionSound(d.acct, r.position);
      var p := d.acct.positions[r.position];
      var vol := if r.volume <= 0 || r.volume > p.volume then p.volume else r.volume;
      SettleProper(m, d, p, vol, MarketOf(m, p.symbol).tick, r.comment);
    }
  }

  /** Every dealer request is a proper step, refused or not. */
  lemma HandleProper(m: Feed, d: Desk, r: Request)
    requires Sound(d)
    ensures Proper(d, Handle(m, d, r).desk)
  {
    hide Sound, Proper, FreeOf, MarginFor, ClosePosition, PlacePending, ModifyWorking, ValidVolume, StopsValid, RoundPrice;
    ProperRefl(d);
    match r.action
    case Execute =>
      if r.position != 0 {
        ClosePositionProper(m, d, r);
      } else if OpenPosition(m, d, r).answer.retcode == RcDone {
        var t := MarketOf(m, r.symbol).tick;
        OpenedProper(m, d, r, if r.kind == BUY then t.ask else t.bid);
      }
    case Pending => PlacePendingProper(m, d, r);
    case ModifyPosition =>
      if ModifyStops(m, d, r).answer.retcode == RcDone {
        var ins := MarketOf(m, d.acct.positions[r.position].symbol).ins;
        StopsProper(d, r.position, RoundPrice(ins, r.priceSL), RoundPrice(ins, r.priceTP));
      }
    case ModifyOrder => ModifyWorkingProper(m, d, r);
    case RemoveOrder =>
      if r.order in d.acct.orders {
        FinishProper(d, r.order, d.acct.orders[r.order].comment, Canceled, m.now);
      }
    case Unknown =>
  }

  // ---------- evaluation ----------

  lemma StopStepProper(m: Feed, d: Desk, ticket: int)
    requires Sound(d)
    ensures Proper(d, StopStep(m, d, ticket))
  {
    ProperRefl(d);
    if ticket in d.acct.positions {
      assert PositionSound(d.acct, ticket);
      var p := d.acct.positions[ticket];
      if MarketOf(m, p.symbol).Open? {
        var t := MarketOf(m, p.symbol).tick;
        match StopHit(p, t)
        case Some(hit) => SettleProper(m, d, p, p.volume, t, hit);
        case None =>
      }
    }
  }

  lemma {:induction false} StopsFromProper(m: Feed, d: Desk, tickets: seq<int>)
    requires Sound(d)
    ensures Proper(d, StopsFrom(m, d, tickets))
    decreases |tickets|
  {
    if |tickets| == 0 {
      ProperRefl(d);
    } else {
      var d1 := StopStep(m, d, tickets[0]);
      StopStepProper(m, d, tickets[0]);
      StopsFromProper(m, d1, tickets[1..]);
      ProperTrans(d, d1, StopsFrom(m, d1, tickets[1..]));
    }
  }

  lemma TriggerProper(d: Desk, ticket: int)
    requires Sound(d) && ticket in d.acct.orders && IsStopLimit(d.acct.orders[ticket].kind)
    ensures Proper(d, Trigger(d, d.acct.orders[ticket]))
  {
    var o := d.acct.orders[ticket];
    assert OrderSound(d.acct, ticket);
    ReworkProper(d, ticket, o.(kind := if o.kind == BUY_STOP_LIMIT then BUY_LIMIT else SELL_LIMIT));
  }

  lemma PendingStepCases(m: Feed, d: Desk, ticket: int)
    requires Sound(d)
    ensures ticket !in d.acct.orders ==> PendingStep(m, d, ticket) == d
    ensures ticket in d.acct.orders ==>
              var o, d' := d.acct.orders[ticket], PendingStep(m, d, ticket);
              || d' == d
              || d' == Finish(d, o.(comment := o.comment), Expired, m.now)
              || d' == Finish(d, o.(comment := "no money"), Rejected, m.now)
              || (IsStopLimit(o.kind) && d' == Trigger(d, o))
              || (!IsStopLimit(o.kind) && exists fill: real ::
                    && fill > 0.0 && d' == FillOrder(d, o, fill, m.now)
                    && (o.kind == BUY_LIMIT ==> fill <= o.priceOrder) && (o.kind == SELL_LIMIT ==> fill >= o.priceOrder))
  {
    hide Sound, MarginFor, FreeOf, Finish, Trigger, FillOrder;
  }

  lemma PendingStepProper(m: Feed, d: Desk, ticket: int)
    requires Sound(d)
    ensures Proper(d, PendingStep(m, d, ticket))
  {
    hide *;
    ProperRefl(d);
    PendingStepCases(m, d, ticket);
    if ticket in d.acct.orders {
      var o, d' := d.acct.orders[ticket], PendingStep(m, d, ticket);
      FinishProper(d, ticket, o.comment, Expired, m.now);
      FinishProper(d, ticket, "no money", Rejected, m.now);
      if IsStopLimit(o.kind) {
        TriggerProper(d, ticket);
      } else if fill: real :| fill > 0.0 && d' == FillOrder(d, o, fill, m.now)
                              && (o.kind == BUY_LIMIT ==> fill <= o.priceOrder) && (o.kind == SELL_LIMIT ==> fill >= o.priceOrder) {
        FillProper(d, ticket, fill, m.now);
      }
    }
  }

  lemma {:induction false} PendingFromProper(m: Feed, d: Desk, tickets: seq<int>)
    requires Sound(d)
    ensures Proper(d, PendingFrom(m, d, tickets))
    decreases |tickets|
  {
    if |tickets| == 0 {
      ProperRefl(d);
    } else {
      var d1 := PendingStep(m, d, tickets[0]);
      PendingStepProper(m, d, tickets[0]);
      PendingFromProper(m, d1, tickets[1..]);
      ProperTrans(d, d1, PendingFrom(m, d1, tickets[1..]));
    }
  }

  lemma StopOutStepProper(m: Feed, d: Desk)
    requires Sound(d)
    ensures StopOutStep(m, d).Some? ==> Proper(d, StopOutStep(m, d).value)
  {
    if StopOutStep(m, d).Some? {
      var w := WorstOf(m, d.acct.positions, Ascending(d.acct.positions.Keys)).value;
      assert PositionSound(d.acct, w);
      var p := d.acct.positions[w];
      SettleProper(m, d, p, p.volume, Quote(m, p.symbol).value, "[so]");
    }
  }

  lemma {:induction false} StopOutFromProper(m: Feed, d: Desk, round: nat)
    requires Sound(d) && round <= STOP_OUT_ROUNDS
    ensures Proper(d, StopOutFrom(m, d, round))
    decreases STOP_OUT_ROUNDS - round
  {
    ProperRefl(d);
    if StopOutFrom(m, d, round) != d {
      var d1 := StopOutStep(m, d).value;
      StopOutStepProper(m, d);
      StopOutFromProper(m, d1, round + 1);
      ProperTrans(d, d1, StopOutFrom(m, d1, round + 1));
    }
  }

  /** One evaluation pass is a proper step. */
  lemma EvaluateProper(m: Feed, d: Desk)
    requires Sound(d)
    ensures Proper(d, Evaluate(m, d))
  {
    var d1 := CheckStops(m, d);
    var d2 := CheckPending(m, d1);
    StopsFromProper(m, d, Ascending(d.acct.positions.Keys));
    PendingFromProper(m, d1, Ascending(d1.acct.orders.Keys));
    StopOutFromProper(m, d2, 0);
    ProperTrans(d, d1, d2);
    ProperTrans(d, d2, Evaluate(m, d));
  }
}
