/** What settling, opening and stop-out do to an account's equity and margin at
    fixed quotes. */
module Equity {
  import opened Rounding
  import opened Market
  import opened Book
  import opened Engine
  import opened EngineProofs

  predicate Quoted(m: Feed, p: Position) {
    Quote(m, p.symbol).Some?
  }

  ghost function Quotable(m: Feed, ps: map<int, Position>): set<int> {
    set t | t in ps && Quoted(m, ps[t])
  }

  // ---------- margins ----------

  lemma MarginInSign(m: Feed, leverage: int, p: Position)
    requires p.volume >= 0 && p.priceOpen > 0.0
    ensures MarginIn(m, leverage)(p) >= 0
  {
    if Quoted(m, p) {
      MarginNonNegative(m, leverage, m.listed[p.symbol], p.volume, p.priceOpen);
    }
  }

  ghost predicate Holdings(ps: map<int, Position>) {
    forall t | t in ps :: ps[t].ticket == t && ps[t].volume > 0 && ps[t].priceOpen > 0.0
  }

  lemma SoundHoldings(d: Desk)
    requires Sound(d)
    ensures Holdings(d.acct.positions)
  {
    forall t | t in d.acct.positions
      ensures d.acct.positions[t].ticket == t && d.acct.positions[t].volume > 0 && d.acct.positions[t].priceOpen > 0.0
    {
      assert PositionSound(d.acct, t);
    }
  }

  lemma {:induction false} MarginSum(m: Feed, leverage: int, ps: map<int, Position>)
    requires Holdings(ps)
    ensures SumOver(ps, MarginIn(m, leverage)) >= 0
    ensures Quotable(m, ps) == {} ==> SumOver(ps, MarginIn(m, leverage)) == 0
    ensures (exists t :: t in Quotable(m, ps) && MarginIn(m, leverage)(ps[t]) > 0)
            ==> SumOver(ps, MarginIn(m, leverage)) > 0
    decreases |ps|
  {
    var f := MarginIn(m, leverage);
    if t :| t in ps {
      SumOverRemove(ps, t, f);
      MarginInSign(m, leverage, ps[t]);
      MarginSum(m, leverage, ps - {t});
      assert Quotable(m, ps) == {} ==> t !in Quotable(m, ps);
      assert Quotable(m, ps - {t}) <= Quotable(m, ps);
      if u :| u in Quotable(m, ps) && f(ps[u]) > 0 {
        if u != t { assert u in Quotable(m, ps - {t}) && (ps - {t})[u] == ps[u]; }
      }
    }
  }

  // ---------- settling at a fixed quote ----------

  lemma SettleFull(m: Feed, a: Account, p: Position, t: Tick, o: Order, deal: Deal)
    requires p.ticket in a.positions && p == a.positions[p.ticket] && Quote(m, p.symbol) == Some(t)
    requires deal.volume == p.volume && deal.storage == p.storage && deal.commission == p.commission
    requires deal.profit == FloatingProfit(m, p.symbol, p.action, p.priceOpen, p.volume, t)
    ensures EquityOf(m, Reduced(a, p, o, deal)) == EquityOf(m, a)
    ensures MarginOf(m, Reduced(a, p, o, deal)) == MarginOf(m, a) - MarginIn(m, a.leverage)(p)
  {
    SumOverRemove(a.positions, p.ticket, ProfitIn(m));
    SumOverRemove(a.positions, p.ticket, MarginIn(m, a.leverage));
  }

  lemma SettlePart(m: Feed, a: Account, p: Position, t: Tick, o: Order, deal: Deal)
    requires p.ticket in a.positions && p == a.positions[p.ticket] && Quote(m, p.symbol) == Some(t)
    requires 0 < deal.volume < p.volume && p.priceOpen > 0.0
    requires deal.profit == FloatingProfit(m, p.symbol, p.action, p.priceOpen, deal.volume, t)
    ensures -1 <= EquityOf(m, Reduced(a, p, o, deal)) - EquityOf(m, a) <= 1
    ensures MarginOf(m, Reduced(a, p, o, deal)) <= MarginOf(m, a)
  {
    var rest := p.(volume := p.volume - deal.volume, storage := p.storage - deal.storage, commission := p.commission - deal.commission);
    SumOverReplace(a.positions, p.ticket, rest, ProfitIn(m));
    SumOverReplace(a.positions, p.ticket, rest, MarginIn(m, a.leverage));
    PartFigures(m, a.leverage, p, rest, t, deal);
    hide ProfitIn, MarginIn, SumOver, FloatingProfit;
  }

  lemma PartFigures(m: Feed, leverage: int, p: Position, rest: Position, t: Tick, deal: Deal)
    requires Quote(m, p.symbol) == Some(t) && 0 < deal.volume < p.volume && p.priceOpen > 0.0
    requires rest == p.(volume := p.volume - deal.volume, storage := p.storage - deal.storage, commission := p.commission - deal.commission)
    requires deal.profit == FloatingProfit(m, p.symbol, p.action, p.priceOpen, deal.volume, t)
    ensures -1 <= ProfitIn(m)(rest) + deal.profit + deal.storage + deal.commission - ProfitIn(m)(p) <= 1
    ensures MarginIn(m, leverage)(rest) <= MarginIn(m, leverage)(p)
  {
    hide FloatingProfit, MarginFor;
    FloatingProfitSplit(m, p.symbol, p.action, p.priceOpen, deal.volume, p.volume - deal.volume, t);
    MarginGrows(m, leverage, m.listed[p.symbol], p.volume - deal.volume, p.volume, p.priceOpen);
  }

  /** Closing in full leaves equity exactly where it was and takes the
      position's margin away; a partial close moves equity by at most a cent
      and never raises margin. */
  lemma SettleEquity(m: Feed, d: Desk, p: Position, vol: int, t: Tick, comment: string)
    requires Sound(d) && p.ticket in d.acct.positions && p == d.acct.positions[p.ticket]
    requires Quote(m, p.symbol) == Some(t) && 0 < vol <= p.volume
    ensures var a, a' := d.acct, Settle(m, d, p, vol, t, comment).acct;
            && MarginOf(m, a') <= MarginOf(m, a)
            && -1 <= EquityOf(m, a') - EquityOf(m, a) <= 1
            && (vol == p.volume ==> EquityOf(m, a') == EquityOf(m, a)
                                    && MarginOf(m, a') == MarginOf(m, a) - MarginIn(m, a.leverage)(p))
  {
    hide FloatingProfit, MarginFor;
    assert PositionSound(d.acct, p.ticket);
    var o := SettledOrder(d.acct, p, vol, t, comment, d.next, m.now);
    var deal := SettledDeal(m, d.acct, p, vol, t, comment, d.next);
    SettleIsReduced(m, d, p, vol, t, comment);
    if vol == p.volume {
      FullDeal(m, d, p, t, comment);
      MarginInSign(m, d.acct.leverage, p);
      SettleFull(m, d.acct, p, t, o, deal);
    } else {
      SettlePart(m, d.acct, p, t, o, deal);
    }
  }

  lemma FullDeal(m: Feed, d: Desk, p: Position, t: Tick, comment: string)
    requires p.volume > 0
    ensures var deal := SettledDeal(m, d.acct, p, p.volume, t, comment, d.next);
            deal.storage == p.storage && deal.commission == p.commission
  {
    hide FloatingProfit;
    FullShare(p);
  }

  // ---------- margin guard ----------

  lemma AddPosition(m: Feed, a: Account, a': Account, p: Position)
    requires p.ticket !in a.positions && Quoted(m, p)
    requires a'.positions == a.positions[p.ticket := p]
    requires a'.balance == a.balance && a'.credit == a.credit && a'.leverage == a.leverage
    requires p.storage == 0 && p.commission == 0
    ensures FreeOf(m, a')
            == FreeOf(m, a) - MarginIn(m, a.leverage)(p) + Valued(m, p).value
  {
    SumOverInsert(a.positions, p.ticket, p, ProfitIn(m));
    SumOverInsert(a.positions, p.ticket, p, MarginIn(m, a.leverage));
  }

  /** A market order that passes every other check is refused for lack of money
      exactly when opening it would leave less free margin than the new
      position's own floating profit: its spread cost. */
  lemma OpenGuard(m: Feed, d: Desk, r: Request)
    requires Sound(d)
    ensures var reply := OpenPosition(m, d, r);
            (reply.answer.retcode == RcDone || reply.answer.retcode == RcNoMoney) ==>
              var t := MarketOf(m, r.symbol).tick;
              var after := Opened(m, d, r, if r.kind == BUY then t.ask else t.bid).acct;
              if FreeOf(m, after) >= Valued(m, after.positions[d.next]).value
              then reply.answer.retcode == RcDone && reply.desk.acct == after
              else reply.answer.retcode == RcNoMoney && reply.desk == d
  {
    var reply := OpenPosition(m, d, r);
    if reply.answer.retcode == RcDone || reply.answer.retcode == RcNoMoney {
      FreshTicket(d, d.next);
      var t := MarketOf(m, r.symbol).tick;
      var price := if r.kind == BUY then t.ask else t.bid;
      AddPosition(m, d.acct, Opened(m, d, r, price).acct, OpenedPosition(d.acct, r, price, d.next, m.now));
    }
  }

  /** The same guard for a pending order at the moment the market reaches it:
      filled when the fill leaves at least its own floating profit free,
      rejected otherwise. */
  lemma FillGuard(m: Feed, d: Desk, ticket: int, fill: real)
    requires Sound(d) && ticket in d.acct.orders && !Expiring(d.acct.orders[ticket], m.now)
    requires var o := d.acct.orders[ticket];
             !IsStopLimit(o.kind) && MarketOf(m, o.symbol).Open? && FillPrice(o, MarketOf(m, o.symbol).tick) == Some(fill)
    ensures var o, filled := d.acct.orders[ticket], FillOrder(d, d.acct.orders[ticket], fill, m.now);
            if FreeOf(m, filled.acct) >= Valued(m, filled.acct.positions[ticket]).value
            then PendingStep(m, d, ticket) == filled
            else PendingStep(m, d, ticket) == Finish(d, o.(comment := "no money"), Rejected, m.now)
  {
    var o := d.acct.orders[ticket];
    assert OrderSound(d.acct, ticket);
    if ticket in d.acct.positions { PositionNotWorking(d, ticket); }
    AddPosition(m, d.acct, FillOrder(d, o, fill, m.now).acct, FilledPosition(d.acct, o, fill, m.now));
  }

  /** An accepted withdrawal never leaves free margin negative, whole cents or
      not. */
  lemma WithdrawalGuard(m: Feed, d: Desk, amount: real, comment: string)
    requires amount < 0.0 && BalanceOp(m, d, amount, comment) != d
    ensures FreeOf(m, BalanceOp(m, d, amount, comment).acct) >= 0
  {
    RoundCovered(d.acct.balance, FreeOf(m, d.acct), amount);
  }

  /** In whole cents the guard is exact: the money goes if and only if free margin
      is not negative afterwards. */
  lemma WithdrawalExact(m: Feed, d: Desk, cents: int, comment: string)
    requires cents < 0
    ensures var after := Credited(d, cents as real, comment, m.now);
            BalanceOp(m, d, cents as real, comment) == if FreeOf(m, after.acct) >= 0 then after else d
  {
    assert d.acct.balance as real + cents as real == (d.acct.balance + cents) as real;
    RoundWhole(d.acct.balance + cents);
  }

  /** Without positions, balance and credit are all equity, and all of it free. */
  lemma FlatEquity(m: Feed, a: Account)
    requires a.positions == map[]
    ensures EquityOf(m, a) == FreeOf(m, a) == a.balance + a.credit && !Endangered(m, a)
  {
  }

  /** An account is in danger exactly when it uses margin and its equity is at most
      half of it, to the hundredth of a percent to which the level is rounded. */
  lemma EndangeredIff(m: Feed, a: Account)
    ensures Endangered(m, a) <==> MarginOf(m, a) > 0 && 20000 * EquityOf(m, a) < 10001 * MarginOf(m, a)
  {
    hide EquityOf, MarginOf;
    var e, g := EquityOf(m, a), MarginOf(m, a);
    if g > 0 {
      var q := e as real / g as real;
      assert q * g as real == e as real;
      LevelAtMost(e, g, q);
    }
  }

  lemma LevelAtMost(equity: int, margin: int, q: real)
    requires margin > 0 && q * margin as real == equity as real
    ensures Round(q * 10000.0) <= 5000 <==> 20000 * equity < 10001 * margin
  {
    HalfLevel(q);
    ShareBelow(equity as real, margin as real, q);
    WholeSides(equity, margin);
  }

  lemma HalfLevel(q: real)
    ensures Round(q * 10000.0) <= 5000 <==> q < 0.50005
  {
  }

  lemma ShareBelow(part: real, whole: real, q: real)
    requires whole > 0.0 && q * whole == part
    ensures q < 0.50005 <==> 20000.0 * part < 10001.0 * whole
  {
    if q < 0.50005 { assert (0.50005 - q) * whole > 0.0; } else { assert (q - 0.50005) * whole >= 0.0; }
  }

  lemma WholeSides(equity: int, margin: int)
    ensures 20000.0 * equity as real < 10001.0 * margin as real <==> 20000 * equity < 10001 * margin
  {
    assert (20000 * equity) as real == 20000.0 * equity as real;
    assert (10001 * margin) as real == 10001.0 * margin as real;
  }

  // ---------- stop-out ----------

  /** w is the quotable position with the lowest floating profit among some
      tickets; of equals, the lowest ticket. */
  ghost predicate IsWorst(m: Feed, ps: map<int, Position>, among: set<int>, w: int) {
    && w in among && w in ps && Quoted(m, ps[w])
    && forall u | u in among && u in ps && Quoted(m, ps[u]) ::
         Valued(m, ps[w]).value < Valued(m, ps[u]).value
         || (Valued(m, ps[w]).value == Valued(m, ps[u]).value && w <= u)
  }

  ghost function Members(s: seq<int>): set<int> {
    set x | x in s
  }

  lemma {:induction false} WorstOfIsWorst(m: Feed, ps: map<int, Position>, tickets: seq<int>)
    requires forall i, j | 0 <= i < j < |tickets| :: tickets[i] < tickets[j]
    ensures var w := WorstOf(m, ps, tickets);
            if w.Some? then IsWorst(m, ps, Members(tickets), w.value)
            else forall u | u in tickets && u in ps :: !Quoted(m, ps[u])
    decreases |tickets|
  {
    if |tickets| > 0 {
      var front := tickets[..|tickets| - 1];
      WorstOfIsWorst(m, ps, front);
      assert forall u | u in tickets :: u in front || u == tickets[|tickets| - 1];
    }
  }

  /** A forced close settles in full the worst quotable position, and there is
      one whenever any position is quotable. */
  ghost predicate ClosesWorst(m: Feed, d: Desk, d': Desk, w: int) {
    var ps := d.acct.positions;
    && IsWorst(m, ps, ps.Keys, w)
    && d' == Settle(m, d, ps[w], ps[w].volume, Quote(m, ps[w].symbol).value, "[so]")
    && d'.acct.positions == ps - {w} && d'.acct.leverage == d.acct.leverage
  }

  lemma StopOutPicksWorst(m: Feed, d: Desk)
    requires Sound(d)
    ensures StopOutStep(m, d).Some? <==> Quotable(m, d.acct.positions) != {}
    ensures StopOutStep(m, d).Some? ==> exists w :: ClosesWorst(m, d, StopOutStep(m, d).value, w)
  {
    hide FloatingProfit;
    var ps := d.acct.positions;
    var tickets := Ascending(ps.Keys);
    WorstOfIsWorst(m, ps, tickets);
    if WorstOf(m, ps, tickets).Some? {
      var w := WorstOf(m, ps, tickets).value;
      assert PositionSound(d.acct, w);
      assert Members(tickets) == ps.Keys;
      assert w in Quotable(m, ps);
      assert ClosesWorst(m, d, StopOutStep(m, d).value, w);
    } else {
      assert forall u | u in Quotable(m, ps) :: u in tickets;
    }
  }

  lemma WorstCloseEquity(m: Feed, d: Desk, d': Desk, w: int)
    requires Sound(d) && ClosesWorst(m, d, d', w)
    ensures EquityOf(m, d'.acct) == EquityOf(m, d.acct) && MarginOf(m, d'.acct) <= MarginOf(m, d.acct)
    ensures |Quotable(m, d'.acct.positions)| == |Quotable(m, d.acct.positions)| - 1
    ensures d'.acct.positions.Keys < d.acct.positions.Keys
    ensures EachMargined(m, d.acct) ==> EachMargined(m, d'.acct)
  {
    hide FloatingProfit, MarginFor, EquityOf, MarginOf, Settle;
    var ps := d.acct.positions;
    assert PositionSound(d.acct, w);
    SettleEquity(m, d, ps[w], ps[w].volume, Quote(m, ps[w].symbol).value, "[so]");
    assert Quotable(m, d'.acct.positions) == Quotable(m, ps) - {w};
    assert w in ps.Keys && w !in d'.acct.positions.Keys;
    assert forall t | t in Quotable(m, d'.acct.positions) :: t in Quotable(m, ps) && d'.acct.positions[t] == ps[t];
  }

  /** Each forced close leaves equity unchanged and never raises margin. */
  lemma StopOutKeepsEquity(m: Feed, d: Desk)
    requires Sound(d) && StopOutStep(m, d).Some?
    ensures var d' := StopOutStep(m, d).value;
            && Sound(d')
            && d'.acct.leverage == d.acct.leverage
            && EquityOf(m, d'.acct) == EquityOf(m, d.acct)
            && MarginOf(m, d'.acct) <= MarginOf(m, d.acct)
            && |Quotable(m, d'.acct.positions)| == |Quotable(m, d.acct.positions)| - 1
            && d'.acct.positions.Keys < d.acct.positions.Keys
            && (EachMargined(m, d.acct) ==> EachMargined(m, d'.acct))
  {
    hide Sound, EquityOf, MarginOf, StopOutStep, Settle, EachMargined;
    StopOutStepProper(m, d);
    StopOutPicksWorst(m, d);
    var d' := StopOutStep(m, d).value;
    var w :| ClosesWorst(m, d, d', w);
    WorstCloseEquity(m, d, d', w);
  }

  /** At equal equity, less margin never means a lower level while equity is not
      negative, and never a higher one while it is. */
  lemma LevelMonotone(equity: int, margin: int, less: int)
    requires 0 < less <= margin
    ensures equity >= 0 ==> MarginLevel(equity, less) >= MarginLevel(equity, margin)
    ensures equity <= 0 ==> MarginLevel(equity, less) <= MarginLevel(equity, margin)
  {
    var e, x, y := equity as real, less as real, margin as real;
    if equity >= 0 {
      Quotient(e, x, y);
      RoundMonotone(e / y * 10000.0, e / x * 10000.0);
    }
    if equity <= 0 {
      Quotient(-e, x, y);
      QuotientNegated(e, x);
      QuotientNegated(e, y);
      RoundMonotone(e / x * 10000.0, e / y * 10000.0);
    }
    hide Round;
  }

  lemma QuotientNegated(e: real, x: real)
    requires x > 0.0
    ensures e / x == -(-e / x)
  {
  }

  lemma Quotient(e: real, x: real, y: real)
    requires e >= 0.0 && 0.0 < x <= y
    ensures e / y <= e / x
  {
    var q := e / x;
    assert q >= 0.0 && q * x == e;
    assert q * y >= q * x;
    assert q * y / y == q;
    assert e / y <= q * y / y;
  }

  lemma LevelOfDebt(equity: int, margin: int)
    requires equity <= 0 && margin > 0
    ensures MarginLevel(equity, margin) <= 0
  {
    assert equity as real / margin as real <= 0.0;
    RoundMonotone(equity as real / margin as real * 10000.0, 0.0);
  }

  /** Between two closures the level never falls while equity is not negative. */
  lemma StopOutLevelRises(m: Feed, d: Desk)
    requires Sound(d) && StopOutStep(m, d).Some?
    requires EquityOf(m, d.acct) >= 0 && MarginOf(m, StopOutStep(m, d).value.acct) > 0
    ensures LevelOf(m, StopOutStep(m, d).value.acct) >= LevelOf(m, d.acct)
  {
    hide MarginLevel, EquityOf, MarginOf, StopOutStep;
    StopOutKeepsEquity(m, d);
    var d' := StopOutStep(m, d).value;
    LevelMonotone(EquityOf(m, d.acct), MarginOf(m, d.acct), MarginOf(m, d'.acct));
  }

  lemma NeedsSomePosition(m: Feed, d: Desk)
    requires Sound(d) && MarginOf(m, d.acct) > 0
    ensures |Quotable(m, d.acct.positions)| > 0 && StopOutStep(m, d).Some?
  {
    hide FloatingProfit, MarginFor, StopOutStep;
    SoundHoldings(d);
    MarginSum(m, d.acct.leverage, d.acct.positions);
    StopOutPicksWorst(m, d);
  }

  /** One round of the loop: it stops, or closes the worst position and goes on;
      it never fails to find one. */
  lemma StopOutUnfold(m: Feed, d: Desk, round: nat)
    requires Sound(d) && round <= STOP_OUT_ROUNDS
    ensures if round == STOP_OUT_ROUNDS || !Endangered(m, d.acct)
            then StopOutFrom(m, d, round) == d
            else StopOutStep(m, d).Some? && StopOutFrom(m, d, round) == StopOutFrom(m, StopOutStep(m, d).value, round + 1)
  {
    hide MarginLevel, StopOutStep, Sound, EquityOf, MarginOf;
    if Endangered(m, d.acct) {
      NeedsSomePosition(m, d);
    }
  }

  /** The loop keeps equity, never raises margin, and ends either above the
      stop-out level or without margin, or with every one of its remaining
      rounds spent on closing one quotable position. */
  lemma {:induction false} StopOutOutcome(m: Feed, d: Desk, round: nat)
    requires Sound(d) && round <= STOP_OUT_ROUNDS
    ensures var d' := StopOutFrom(m, d, round);
            && Sound(d') && d'.acct.leverage == d.acct.leverage
            && EquityOf(m, d'.acct) == EquityOf(m, d.acct)
            && MarginOf(m, d'.acct) <= MarginOf(m, d.acct)
            && d'.acct.positions.Keys <= d.acct.positions.Keys
            && (!Endangered(m, d'.acct)
                || |Quotable(m, d.acct.positions)| == |Quotable(m, d'.acct.positions)| + STOP_OUT_ROUNDS - round)
    decreases STOP_OUT_ROUNDS - round
  {
    hide *;
    StopOutUnfold(m, d, round);
    if round < STOP_OUT_ROUNDS && Endangered(m, d.acct) {
      StopOutKeepsEquity(m, d);
      StopOutOutcome(m, StopOutStep(m, d).value, round + 1);
    }
  }

  /** With at most 64 quotable positions the loop ends with no margin in use or
      a level above 50 %. */
  lemma StopOutRescues(m: Feed, d: Desk)
    requires Sound(d) && |Quotable(m, d.acct.positions)| <= 64
    ensures !Endangered(m, CheckStopOut(m, d).acct)
  {
    hide MarginLevel, Sound, EquityOf, MarginOf, StopOutFrom, Quotable;
    StopOutOutcome(m, d, 0);
    var d' := CheckStopOut(m, d);
    if Endangered(m, d'.acct) {
      NeedsSomePosition(m, d');
      assert false;
    }
  }

  ghost predicate EachMargined(m: Feed, a: Account) {
    forall t | t in Quotable(m, a.positions) :: MarginIn(m, a.leverage)(a.positions[t]) > 0
  }

  /** Without equity nothing but closing every quotable position helps, so the
      bound of 64 is exact: the loop closes all of them or 64 of them. */
  lemma {:induction false} StopOutWithoutEquity(m: Feed, d: Desk, round: nat)
    requires Sound(d) && round <= STOP_OUT_ROUNDS
    requires EquityOf(m, d.acct) <= 0 && EachMargined(m, d.acct)
    ensures var left := |Quotable(m, d.acct.positions)| - (STOP_OUT_ROUNDS - round);
            && |Quotable(m, StopOutFrom(m, d, round).acct.positions)| == (if left > 0 then left else 0)
            && (Endangered(m, StopOutFrom(m, d, round).acct) <==> left > 0)
    decreases STOP_OUT_ROUNDS - round
  {
    hide *;
    BrokeIsEndangered(m, d);
    StopOutUnfold(m, d, round);
    if round < STOP_OUT_ROUNDS && Endangered(m, d.acct) {
      StopOutKeepsEquity(m, d);
      StopOutWithoutEquity(m, StopOutStep(m, d).value, round + 1);
    }
  }

  lemma BrokeIsEndangered(m: Feed, d: Desk)
    requires Sound(d) && EquityOf(m, d.acct) <= 0 && EachMargined(m, d.acct)
    ensures Endangered(m, d.acct) <==> |Quotable(m, d.acct.positions)| > 0
  {
    hide FloatingProfit, MarginFor, MarginLevel;
    SoundHoldings(d);
    MarginSum(m, d.acct.leverage, d.acct.positions);
    var q := Quotable(m, d.acct.positions);
    if forall t: int :: t !in q {
      assert q == {};
    } else {
      var t :| t in q;
      assert |q| > 0;
      LevelOfDebt(EquityOf(m, d.acct), MarginOf(m, d.acct));
    }
  }
}
