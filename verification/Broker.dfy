/** The broker as the program runs it: account objects updated in place, loops
    over positions and orders, one ticket counter and the mirrored user store.
    Every method is proved to do what the step functions say. */
module Broker {
  import opened Rounding
  import opened Market
  import opened Book
  import opened Engine
  import opened EngineProofs
  import opened Equity
  import Passes
  import Runs
  import Ticks

  class LiveAccount {
    const login: int
    const currency: string
    const credit: int
    var balance: int
    var leverage: int
    var positions: map<int, Position>
    var orders: map<int, Order>
    var history: seq<Order>
    var deals: seq<Deal>

    constructor (login: int, user: Runs.User)
      ensures View() == Runs.NewAccount(login, user)
    {
      this.login := login;
      currency := if user.currency == "" then "USD" else user.currency;
      credit := 0;
      balance := user.balance;
      leverage := DEFAULT_LEVERAGE;
      positions, orders, history, deals := map[], map[], [], [];
    }

    ghost function View(): Account
      reads this
    {
      Account(login, balance, credit, leverage, currency, positions, orders, history, deals)
    }
  }

  lemma HasMember(s: set<int>)
    ensures s == {} || exists t :: t in s
  {
    if forall t: int :: t !in s {
      assert s == {};
    }
  }

  lemma AscendingLeast(s: set<int>, x: int)
    requires IsLeast(s, x)
    ensures Ascending(s) == [x] + Ascending(s - {x})
  {
  }

  lemma LeastIn(s: set<int>, x: int)
    requires IsLeast(s, x)
    ensures x in s
  {
  }

  lemma AscendingEmpty()
    ensures Ascending({}) == []
  {
  }

  lemma AscendingMembers(s: set<int>)
    ensures forall i | 0 <= i < |Ascending(s)| :: Ascending(s)[i] in s
  {
  }

  method LeastOf(s: set<int>) returns (least: int)
    requires s != {}
    ensures IsLeast(s, least)
  {
    HasMember(s);
    least :| least in s;
    var rest := s - {least};
    while rest != {}
      invariant rest <= s && least in s && forall y | y in s :: y in rest || least <= y
      decreases rest
    {
      HasMember(rest);
      var t :| t in rest;
      if t < least { least := t; }
      rest := rest - {t};
    }
  }

  /** Collects and sorts the keys of a book map. */
  method SortedTickets(keys: set<int>) returns (sorted: seq<int>)
    ensures sorted == Ascending(keys)
  {
    hide *;
    sorted := [];
    var rest := keys;
    while rest != {}
      invariant sorted + Ascending(rest) == Ascending(keys)
      decreases rest
    {
      var t := LeastOf(rest);
      AscendingLeast(rest, t);
      LeastIn(rest, t);
      sorted := sorted + [t];
      rest := rest - {t};
    }
    AscendingEmpty();
  }

  /** The margin figures of an account, its positions walked in any order. */
  method SummaryFor(m: Feed, a: LiveAccount) returns (s: Summary)
    ensures s == Summarize(m, a.View())
  {
    var pf, mf := ProfitIn(m), MarginIn(m, a.leverage);
    SummarySums(m, a.View());
    hide ProfitIn, MarginIn, SummaryOf, ProfitOf, MarginOf, SumOver, Summarize;
    var profit, margin := 0, 0;
    var left := a.positions;
    while left.Keys != {}
      invariant profit + SumOver(left, pf) == SumOver(a.positions, pf)
      invariant margin + SumOver(left, mf) == SumOver(a.positions, mf)
      decreases left.Keys
    {
      HasMember(left.Keys);
      var t :| t in left.Keys;
      SumOverRemove(left, t, pf);
      SumOverRemove(left, t, mf);
      profit := profit + pf(left[t]);
      margin := margin + mf(left[t]);
      left := left - {t};
    }
    assert left == map[];
    SumOverNone(pf);
    SumOverNone(mf);
    s := SummaryOf(a.balance, a.credit, profit, margin);
  }

  lemma SummarySums(m: Feed, a: Account)
    ensures Summarize(m, a)
            == SummaryOf(a.balance, a.credit, SumOver(a.positions, ProfitIn(m)), SumOver(a.positions, MarginIn(m, a.leverage)))
  {
  }

  lemma SumOverNone(f: Position -> int)
    ensures SumOver(map[], f) == 0
  {
  }

  // ---------- one step of each spec function ----------

  lemma StopStepCases(m: Feed, d: Desk, ticket: int)
    requires Sound(d)
    ensures ticket !in d.acct.positions ==> StopStep(m, d, ticket) == d
    ensures ticket in d.acct.positions ==>
              var p := d.acct.positions[ticket];
              && p.ticket == ticket && p.volume > 0
              && match MarketOf(m, p.symbol)
                 case Shut(_) => StopStep(m, d, ticket) == d
                 case Open(_, t) =>
                   match StopHit(p, t)
                   case None => StopStep(m, d, ticket) == d
                   case Some(hit) => StopStep(m, d, ticket) == Settle(m, d, p, p.volume, t, hit)
  {
  }

  lemma StopsFromNext(m: Feed, d: Desk, tickets: seq<int>)
    ensures StopsFrom(m, d, tickets)
            == if |tickets| == 0 then d else StopsFrom(m, StopStep(m, d, tickets[0]), tickets[1..])
  {
  }

  lemma CheckStopsIs(m: Feed, d: Desk)
    ensures CheckStops(m, d) == StopsFrom(m, d, Ascending(d.acct.positions.Keys))
  {
  }

  lemma WorkingOrderSound(d: Desk, ticket: int)
    requires Sound(d) && ticket in d.acct.orders
    ensures OrderSound(d.acct, ticket)
  {
  }

  lemma PendingFromNext(m: Feed, d: Desk, tickets: seq<int>)
    ensures PendingFrom(m, d, tickets)
            == if |tickets| == 0 then d else PendingFrom(m, PendingStep(m, d, tickets[0]), tickets[1..])
  {
  }

  lemma CheckPendingIs(m: Feed, d: Desk)
    ensures CheckPending(m, d) == PendingFrom(m, d, Ascending(d.acct.orders.Keys))
  {
  }

  lemma WorstOfNone(m: Feed, ps: map<int, Position>)
    ensures WorstOf(m, ps, []) == None
  {
  }

  lemma WorstOfNext(m: Feed, ps: map<int, Position>, front: seq<int>, last: int)
    requires last in ps
    ensures var best := WorstOf(m, ps, front);
            WorstOf(m, ps, front + [last])
            == if Valued(m, ps[last]).None? then best
               else if best.None? || best.value !in ps || Valued(m, ps[best.value]).None? then Some(last)
               else if Valued(m, ps[last]).value < Valued(m, ps[best.value]).value then Some(last) else best
  {
  }

  lemma CheckStopOutIs(m: Feed, d: Desk)
    ensures CheckStopOut(m, d) == StopOutFrom(m, d, 0)
  {
  }

  lemma EndangeredSummary(m: Feed, a: Account)
    ensures Endangered(m, a) <==> Summarize(m, a).margin > 0 && Summarize(m, a).marginLevel <= STOP_OUT_LEVEL
  {
  }

  lemma ProperSound(m: Feed, d: Desk)
    requires Sound(d)
    ensures StopOutStep(m, d).Some? ==> Sound(StopOutStep(m, d).value)
  {
    hide StopOutStep;
    StopOutStepProper(m, d);
  }

  /** With a position to close, the worst one is found. */
  lemma StopOutStepWorst(m: Feed, d: Desk)
    ensures StopOutStep(m, d).Some? ==> WorstOf(m, d.acct.positions, Ascending(d.acct.positions.Keys)).Some?
  {
  }

  class DemoBroker {
    var accounts: map<int, LiveAccount>
    var nextTicket: int
    var users: map<int, Runs.User>

    constructor (users: map<int, Runs.User>)
      ensures Valid() && fresh(Objects()) && World() == Runs.World(map[], Runs.FIRST_TICKET, users)
    {
      accounts, nextTicket := map[], Runs.FIRST_TICKET;
      this.users := users;
    }

    ghost function Objects(): set<LiveAccount>
      reads this
    {
      set l | l in accounts :: accounts[l]
    }

    /** Each login has its own account object. */
    ghost predicate Distinctly()
      reads this, Objects()
    {
      && (forall l | l in accounts :: accounts[l].login == l)
      && (forall l, k | l in accounts && k in accounts && l != k :: accounts[l] != accounts[k])
    }

    ghost function World(): Runs.World
      reads this, Objects()
    {
      Runs.World(map l | l in accounts :: accounts[l].View(), nextTicket, users)
    }

    ghost predicate Valid()
      reads this, Objects()
    {
      Distinctly() && Runs.Consistent(World())
    }

    ghost function DeskOf(a: LiveAccount): Desk
      reads this`nextTicket, a
    {
      Desk(a.View(), nextTicket)
    }

    /** The user store agrees with the account about its balance. */
    ghost predicate Mirrors(a: LiveAccount)
      reads this`users, a
    {
      a.login in users ==> users[a.login].balance == a.balance
    }

    static function Written(users: map<int, Runs.User>, login: int, balance: int): map<int, Runs.User> {
      if login in users then users[login := users[login].(balance := balance)] else users
    }

    // ---------- primitives ----------

    method Ticket() returns (t: int)
      modifies this`nextTicket
      ensures t == old(nextTicket) && nextTicket == t + 1
    {
      t := nextTicket;
      nextTicket := nextTicket + 1;
    }

    method Credit(a: LiveAccount, cents: real)
      modifies a`balance, this`users
      ensures a.balance == Round(old(a.balance) as real + cents)
      ensures users == Written(old(users), a.login, a.balance)
    {
      a.balance := Round(a.balance as real + cents);
      if a.login in users {
        users := users[a.login := users[a.login].(balance := a.balance)];
      }
    }

    /** Numbers a deal and appends it. */
    method AppendDeal(a: LiveAccount, d: Deal)
      modifies a`deals, this`nextTicket
      ensures a.deals == old(a.deals) + [d.(ticket := old(nextTicket), login := a.login)] && nextTicket == old(nextTicket) + 1
    {
      var ticket := Ticket();
      a.deals := a.deals + [d.(ticket := ticket, login := a.login)];
    }

    /** The figures of a close: side, price and the amounts it realises. */
    method CloseFigures(m: Feed, a: LiveAccount, p: Position, vol: int, t: Tick, ghost comment: string)
      returns (kind: int, price: real, profit: int, storage: int, commission: int)
      requires 0 < vol <= p.volume
      ensures SettledDeal(m, a.View(), p, vol, t, comment, nextTicket)
              == Deal(nextTicket + 1, nextTicket, a.login, p.symbol, kind, ENTRY_OUT, price, vol, m.now,
                      commission, storage, profit, p.ticket, comment)
      ensures price == ClosePrice(p.action, t) && kind == CloseKind(p.action)
    {
      hide Round, FloatingProfit;
      price, kind := t.bid, SELL;
      if p.action == SELL {
        price, kind := t.ask, BUY;
      }
      var share := vol as real / p.volume as real;
      assert share == Share(p, vol);
      profit := FloatingProfit(m, p.symbol, p.action, p.priceOpen, vol, t);
      storage := Round(p.storage as real * share);
      commission := Round(p.commission as real * share);
    }

    method SettlePosition(m: Feed, a: LiveAccount, p: Position, vol: int, t: Tick, comment: string)
      returns (price: real, ticket: int)
      requires p.ticket in a.positions && a.positions[p.ticket] == p && 0 < vol <= p.volume
      modifies a, this`nextTicket, this`users
      ensures DeskOf(a) == Settle(m, old(DeskOf(a)), p, vol, t, comment)
      ensures price == ClosePrice(p.action, t) && ticket == old(nextTicket)
      ensures users == Written(old(users), a.login, a.balance)
    {
      hide Settle, SettledDeal, Round;
      SettleIsReduced(m, DeskOf(a), p, vol, t, comment);
      var kind, profit, storage, commission;
      kind, price, profit, storage, commission := CloseFigures(m, a, p, vol, t, comment);
      ticket := Ticket();
      a.history := a.history + [Order(ticket, a.login, p.symbol, kind, Filled, m.now, m.now, price, 0.0, 0.0, 0.0,
                                      vol, 0, TIME_GTC, 0, p.ticket, comment)];
      AppendDeal(a, Deal(0, ticket, 0, p.symbol, kind, ENTRY_OUT, price, vol, m.now,
                         commission, storage, profit, p.ticket, comment));
      var amount := profit + storage + commission;
      assert a.balance as real + amount as real == (a.balance + amount) as real;
      RoundWhole(a.balance + amount);
      Credit(a, amount as real);
      if vol >= p.volume {
        a.positions := a.positions - {p.ticket};
      } else {
        a.positions := a.positions[p.ticket := p.(volume := p.volume - vol, storage := p.storage - storage,
                                                  commission := p.commission - commission)];
      }
    }

    method FinishOrder(a: LiveAccount, o: Order, state: OrderState, now: int)
      modifies a
      ensures DeskOf(a) == Finish(old(DeskOf(a)), o, state, now)
    {
      a.orders := a.orders - {o.ticket};
      var done := o.(state := state, timeDone := now);
      if state != Filled {
        done := done.(volumeCurrent := done.volumeInitial);
      }
      a.history := a.history + [done];
    }

    // ---------- dealer requests ----------

    method OpenAtMarket(m: Feed, a: LiveAccount, r: Request) returns (an: Answer)
      modifies a, this`nextTicket
      ensures Reply(DeskOf(a), an) == OpenPosition(m, old(DeskOf(a)), r)
      ensures a.balance == old(a.balance)
    {
      an := Answer(RcDone, 0, 0.0, 0);
      if r.kind != BUY && r.kind != SELL { return an.(retcode := RcInvalidType); }
      if !ValidVolume(r.volume) { return an.(retcode := RcInvalidVolume); }
      var access := MarketOf(m, r.symbol);
      if access.Shut? { return an.(retcode := access.reason); }
      var price := access.tick.ask;
      if r.kind == SELL { price := access.tick.bid; }
      if !StopsValid(r.kind == BUY, price, r.priceSL, r.priceTP) { return an.(retcode := RcInvalidStops); }
      var s := SummaryFor(m, a);
      if s.marginFree < MarginFor(m, a.leverage, access.ins, r.volume, price) { return an.(retcode := RcNoMoney); }
      var ticket := Ticket();
      a.positions := a.positions[ticket := Position(ticket, a.login, r.symbol, r.kind, m.now, price,
                                                    r.priceSL, r.priceTP, r.volume, 0, 0, r.comment)];
      a.history := a.history + [Order(ticket, a.login, r.symbol, r.kind, Filled, m.now, m.now, price, 0.0,
                                      r.priceSL, r.priceTP, r.volume, 0, TIME_GTC, 0, ticket, r.comment)];
      AppendDeal(a, Deal(0, ticket, 0, r.symbol, r.kind, ENTRY_IN, price, r.volume, m.now, 0, 0, 0, ticket, r.comment));
      an := Answer(RcDone, ticket, price, r.volume);
    }

    method CloseAtMarket(m: Feed, a: LiveAccount, r: Request) returns (an: Answer)
      requires Sound(DeskOf(a)) && Mirrors(a)
      modifies a, this`nextTicket, this`users
      ensures Reply(DeskOf(a), an) == ClosePosition(m, old(DeskOf(a)), r)
      ensures users == Written(old(users), a.login, a.balance)
    {
      an := Answer(RcDone, 0, 0.0, 0);
      if r.position !in a.positions { return an.(retcode := RcPositionClosed); }
      assert PositionSound(a.View(), r.position);
      var p := a.positions[r.position];
      if r.kind != 1 - p.action { return an.(retcode := RcInvalidType); }
      var vol := r.volume;
      if vol <= 0 || vol > p.volume { vol := p.volume; }
      if vol != p.volume && !ValidVolume(vol) { return an.(retcode := RcInvalidVolume); }
      var access := MarketOf(m, p.symbol);
      if access.Shut? { return an.(retcode := access.reason); }
      var price, ticket := SettlePosition(m, a, p, vol, access.tick, r.comment);
      an := Answer(RcDone, ticket, price, vol);
    }

    method PlaceOrder(m: Feed, a: LiveAccount, r: Request) returns (an: Answer)
      modifies a`orders, this`nextTicket
      ensures Reply(DeskOf(a), an) == PlacePending(m, old(DeskOf(a)), r)
    {
      an := Answer(RcDone, 0, 0.0, 0);
      if r.kind < BUY_LIMIT || r.kind > SELL_STOP_LIMIT { return an.(retcode := RcInvalidType); }
      if !ValidVolume(r.volume) { return an.(retcode := RcInvalidVolume); }
      var access := MarketOf(m, r.symbol);
      if access.Shut? { return an.(retcode := access.reason); }
      var trigger := r.priceOrder;
      if r.kind == BUY_STOP_LIMIT || r.kind == SELL_STOP_LIMIT {
        if r.priceTrigger > 0.0 { trigger := r.priceTrigger; }
      }
      if !PendingPriceValid(r.kind, trigger, access.tick) { return an.(retcode := RcInvalidPrice); }
      if !StopsValid(IsBuy(r.kind), r.priceOrder, r.priceSL, r.priceTP) { return an.(retcode := RcInvalidStops); }
      if (r.typeTime == TIME_SPECIFIED || r.typeTime == TIME_SPECIFIED_DAY) && 0 < r.timeExpiration <= m.now {
        return an.(retcode := RcInvalidExpiration);
      }
      var ticket := Ticket();
      var o := Order(ticket, a.login, r.symbol, r.kind, Placed, m.now, 0, RoundPrice(access.ins, r.priceOrder),
                     RoundPrice(access.ins, trigger), r.priceSL, r.priceTP, r.volume, r.volume,
                     r.typeTime, r.timeExpiration, 0, r.comment);
      if o.typeTime == TIME_GTC { o := o.(timeExpiration := 0); }
      a.orders := a.orders[ticket := o];
      an := Answer(RcPlaced, ticket, o.priceOrder, 0);
    }

    method ChangeStops(m: Feed, a: LiveAccount, r: Request) returns (an: Answer)
      modifies a`positions
      ensures Reply(DeskOf(a), an) == ModifyStops(m, old(DeskOf(a)), r)
    {
      an := Answer(RcDone, 0, 0.0, 0);
      if r.position !in a.positions { return an.(retcode := RcPositionClosed); }
      var p := a.positions[r.position];
      var access := MarketOf(m, p.symbol);
      if access.Shut? { return an.(retcode := access.reason); }
      var price := access.tick.bid;
      if p.action == SELL { price := access.tick.ask; }
      if !StopsValid(p.action == BUY, price, r.priceSL, r.priceTP) { return an.(retcode := RcInvalidStops); }
      if p.priceSL == r.priceSL && p.priceTP == r.priceTP { return an.(retcode := RcNoChanges); }
      var sl, tp := RoundPrice(access.ins, r.priceSL), RoundPrice(access.ins, r.priceTP);
      a.positions := a.positions[r.position := p.(priceSL := sl, priceTP := tp)];
      an := Answer(RcDone, p.ticket, p.priceOpen, p.volume);
    }

    method ChangeOrder(m: Feed, a: LiveAccount, r: Request) returns (an: Answer)
      modifies a`orders
      ensures Reply(DeskOf(a), an) == ModifyWorking(m, old(DeskOf(a)), r)
    {
      an := Answer(RcDone, 0, 0.0, 0);
      if r.order !in a.orders { return an.(retcode := RcInvalid); }
      var o := a.orders[r.order];
      var access := MarketOf(m, o.symbol);
      if access.Shut? { return an.(retcode := access.reason); }
      var price := o.priceOrder;
      if r.priceOrder > 0.0 { price := RoundPrice(access.ins, r.priceOrder); }
      var trigger := price;
      if o.kind == BUY_STOP_LIMIT || o.kind == SELL_STOP_LIMIT {
        trigger := o.priceTrigger;
        if r.priceTrigger > 0.0 { trigger := RoundPrice(access.ins, r.priceTrigger); }
      }
      if !PendingPriceValid(o.kind, trigger, access.tick) { return an.(retcode := RcInvalidPrice); }
      if !StopsValid(IsBuy(o.kind), price, r.priceSL, r.priceTP) { return an.(retcode := RcInvalidStops); }
      var vol := o.volumeCurrent;
      if r.volume > 0 {
        if !ValidVolume(r.volume) { return an.(retcode := RcInvalidVolume); }
        vol := r.volume;
      }
      var sl, tp := RoundPrice(access.ins, r.priceSL), RoundPrice(access.ins, r.priceTP);
      var o' := o.(priceOrder := price, priceTrigger := trigger, priceSL := sl, priceTP := tp,
                   volumeInitial := vol, volumeCurrent := vol);
      if r.typeTime != 0 || r.timeExpiration != 0 {
        o' := o'.(typeTime := r.typeTime, timeExpiration := r.timeExpiration);
        if o'.typeTime == TIME_GTC { o' := o'.(timeExpiration := 0); }
      }
      a.orders := a.orders[r.order := o'];
      an := Answer(RcDone, o.ticket, price, vol);
    }

    method DropOrder(m: Feed, a: LiveAccount, r: Request) returns (an: Answer)
      modifies a
      ensures Reply(DeskOf(a), an) == RemoveWorking(m, old(DeskOf(a)), r) && a.balance == old(a.balance)
    {
      if r.order !in a.orders { return Answer(RcInvalid, 0, 0.0, 0); }
      var o := a.orders[r.order];
      FinishOrder(a, o, Canceled, m.now);
      an := Answer(RcDone, o.ticket, o.priceOrder, o.volumeInitial);
    }

    method Route(m: Feed, a: LiveAccount, r: Request) returns (an: Answer)
      requires Sound(DeskOf(a)) && Mirrors(a)
      modifies a, this`nextTicket, this`users
      ensures Reply(DeskOf(a), an) == Handle(m, old(DeskOf(a)), r)
      ensures users == Written(old(users), a.login, a.balance)
    {
      an := Answer(RcInvalid, 0, 0.0, 0);
      if r.action.Execute? && r.position != 0 {
        an := CloseAtMarket(m, a, r);
      } else {
        an := RouteUnsettled(m, a, r);
      }
    }

    /** The requests that settle nothing, so leave the balance alone. */
    method RouteUnsettled(m: Feed, a: LiveAccount, r: Request) returns (an: Answer)
      requires !(r.action.Execute? && r.position != 0)
      modifies a, this`nextTicket
      ensures Reply(DeskOf(a), an) == Handle(m, old(DeskOf(a)), r) && a.balance == old(a.balance)
    {
      hide OpenPosition, PlacePending, ModifyStops, ModifyWorking, RemoveWorking;
      an := Answer(RcInvalid, 0, 0.0, 0);
      match r.action {
        case Execute => an := OpenAtMarket(m, a, r);
        case Pending => an := PlaceOrder(m, a, r);
        case ModifyPosition => an := ChangeStops(m, a, r);
        case ModifyOrder => an := ChangeOrder(m, a, r);
        case RemoveOrder => an := DropOrder(m, a, r);
        case Unknown =>
      }
    }

    // ---------- evaluation ----------

    method StopOne(m: Feed, a: LiveAccount, ticket: int)
      requires Sound(DeskOf(a)) && Mirrors(a)
      modifies a, this`nextTicket, this`users
      ensures DeskOf(a) == StopStep(m, old(DeskOf(a)), ticket) && Sound(DeskOf(a))
      ensures users == Written(old(users), a.login, a.balance)
    {
      hide StopStep, Settle, Sound;
      StopStepProper(m, DeskOf(a), ticket);
      StopStepCases(m, DeskOf(a), ticket);
      if ticket !in a.positions { return; }
      var p := a.positions[ticket];
      var access := MarketOf(m, p.symbol);
      if access.Shut? { return; }
      var t := access.tick;
      var hit: Option<string> := None;
      if p.action == BUY {
        if p.priceSL > 0.0 && t.bid <= p.priceSL {
          hit := Some("[sl]");
        } else if p.priceTP > 0.0 && t.bid >= p.priceTP {
          hit := Some("[tp]");
        }
      } else {
        if p.priceSL > 0.0 && t.ask >= p.priceSL {
          hit := Some("[sl]");
        } else if p.priceTP > 0.0 && t.ask <= p.priceTP {
          hit := Some("[tp]");
        }
      }
      if hit.None? { return; }
      var _, _ := SettlePosition(m, a, p, p.volume, t, hit.value);
    }

    method RunStops(m: Feed, a: LiveAccount)
      requires Sound(DeskOf(a)) && Mirrors(a)
      modifies a, this`nextTicket, this`users
      ensures DeskOf(a) == CheckStops(m, old(DeskOf(a))) && Sound(DeskOf(a))
      ensures users == Written(old(users), a.login, a.balance)
    {
      hide Sound, StopStep, StopsFrom, Ascending, CheckStops;
      CheckStopsIs(m, DeskOf(a));
      var tickets := SortedTickets(a.positions.Keys);
      for k := 0 to |tickets|
        invariant Sound(DeskOf(a)) && users == Written(old(users), a.login, a.balance)
        invariant StopsFrom(m, DeskOf(a), tickets[k..]) == StopsFrom(m, old(DeskOf(a)), tickets)
      {
        StopsFromNext(m, DeskOf(a), tickets[k..]);
        assert tickets[k..][1..] == tickets[k + 1..];
        StopOne(m, a, tickets[k]);
      }
      StopsFromNext(m, DeskOf(a), []);
    }

    method PendingOne(m: Feed, a: LiveAccount, ticket: int)
      requires Sound(DeskOf(a))
      modifies a, this`nextTicket
      ensures DeskOf(a) == PendingStep(m, old(DeskOf(a)), ticket) && Sound(DeskOf(a)) && a.balance == old(a.balance)
    {
      hide Sound, PendingAt;
      PendingStepProper(m, DeskOf(a), ticket);
      if ticket !in a.orders { return; }
      WorkingOrderSound(DeskOf(a), ticket);
      var o := a.orders[ticket];
      if Expiring(o, m.now) {
        FinishOrder(a, o, Expired, m.now);
        return;
      }
      var access := MarketOf(m, o.symbol);
      if access.Shut? { return; }
      PendingNow(m, a, o, access.ins, access.tick);
    }

    method PendingNow(m: Feed, a: LiveAccount, o: Order, ins: Instrument, t: Tick)
      requires t.bid > 0.0 && t.ask > 0.0 && o.volumeInitial == o.volumeCurrent
      modifies a, this`nextTicket
      ensures DeskOf(a) == PendingAt(m, old(DeskOf(a)), o, ins, t) && a.balance == old(a.balance)
    {
      if o.kind == BUY_STOP_LIMIT {
        if t.ask >= o.priceTrigger { a.orders := a.orders[o.ticket := o.(kind := BUY_LIMIT)]; }
        return;
      }
      if o.kind == SELL_STOP_LIMIT {
        if t.bid <= o.priceTrigger { a.orders := a.orders[o.ticket := o.(kind := SELL_LIMIT)]; }
        return;
      }
      var fill := 0.0;
      if o.kind == BUY_LIMIT {
        if t.ask <= o.priceOrder { fill := if t.ask < o.priceOrder then t.ask else o.priceOrder; }
      } else if o.kind == SELL_LIMIT {
        if t.bid >= o.priceOrder { fill := if t.bid > o.priceOrder then t.bid else o.priceOrder; }
      } else if o.kind == BUY_STOP {
        if t.ask >= o.priceOrder { fill := t.ask; }
      } else if o.kind == SELL_STOP {
        if t.bid <= o.priceOrder { fill := t.bid; }
      }
      if fill == 0.0 { return; }
      var s := SummaryFor(m, a);
      if s.marginFree < MarginFor(m, a.leverage, ins, o.volumeCurrent, fill) {
        FinishOrder(a, o.(comment := "no money"), Rejected, m.now);
        return;
      }
      FillNow(a, o, fill, m.now);
    }

    method FillNow(a: LiveAccount, o: Order, fill: real, now: int)
      requires o.volumeInitial == o.volumeCurrent
      modifies a, this`nextTicket
      ensures DeskOf(a) == FillOrder(old(DeskOf(a)), o, fill, now) && a.balance == old(a.balance)
    {
      var side := BUY;
      if !IsBuy(o.kind) { side := SELL; }
      var p := Position(o.ticket, a.login, o.symbol, side, now, fill, o.priceSL, o.priceTP, o.volumeCurrent, 0, 0, o.comment);
      a.positions := a.positions[o.ticket := p];
      FinishOrder(a, o.(positionId := o.ticket, volumeCurrent := 0), Filled, now);
      AppendDeal(a, Deal(0, o.ticket, 0, o.symbol, side, ENTRY_IN, fill, p.volume, now, 0, 0, 0, p.ticket, o.comment));
    }

    method RunPending(m: Feed, a: LiveAccount)
      requires Sound(DeskOf(a))
      modifies a, this`nextTicket
      ensures DeskOf(a) == CheckPending(m, old(DeskOf(a))) && Sound(DeskOf(a)) && a.balance == old(a.balance)
    {
      hide Sound, PendingStep, PendingFrom, Ascending, CheckPending;
      CheckPendingIs(m, DeskOf(a));
      var tickets := SortedTickets(a.orders.Keys);
      for k := 0 to |tickets|
        invariant Sound(DeskOf(a)) && a.balance == old(a.balance)
        invariant PendingFrom(m, DeskOf(a), tickets[k..]) == PendingFrom(m, old(DeskOf(a)), tickets)
      {
        PendingFromNext(m, DeskOf(a), tickets[k..]);
        assert tickets[k..][1..] == tickets[k + 1..];
        PendingOne(m, a, tickets[k]);
      }
      PendingFromNext(m, DeskOf(a), []);
    }

    /** The first of the quotable positions with the lowest floating profit. */
    method FindWorst(m: Feed, a: LiveAccount) returns (worst: Option<int>)
      ensures worst == WorstOf(m, a.positions, Ascending(a.positions.Keys))
      ensures worst.Some? ==> worst.value in a.positions && Valued(m, a.positions[worst.value]).Some?
    {
      hide WorstOf, Valued, Ascending;
      AscendingMembers(a.positions.Keys);
      var tickets := SortedTickets(a.positions.Keys);
      worst := None;
      var worstProfit := 0;
      WorstOfNone(m, a.positions);
      for k := 0 to |tickets|
        invariant worst == WorstOf(m, a.positions, tickets[..k])
        invariant worst.Some? ==> worst.value in a.positions && Valued(m, a.positions[worst.value]) == Some(worstProfit)
      {
        WorstOfNext(m, a.positions, tickets[..k], tickets[k]);
        assert tickets[..k + 1] == tickets[..k] + [tickets[k]];
        match Valued(m, a.positions[tickets[k]]) {
          case None =>
          case Some(profit) =>
            if worst.None? || profit < worstProfit {
              worst, worstProfit := Some(tickets[k]), profit;
            }
        }
      }
      assert tickets[..|tickets|] == tickets;
    }

    /** One round of the liquidation loop; false when there is nothing to do. */
    method StopOutRound(m: Feed, a: LiveAccount) returns (closed: bool)
      requires Sound(DeskOf(a)) && Mirrors(a)
      modifies a, this`nextTicket, this`users
      ensures closed <==> Endangered(m, old(a.View()))
      ensures if closed then StopOutStep(m, old(DeskOf(a))) == Some(DeskOf(a)) else DeskOf(a) == old(DeskOf(a))
      ensures users == Written(old(users), a.login, a.balance)
    {
      hide Sound, StopOutStep, Endangered, Summarize, WorstOf, Valued;
      EndangeredSummary(m, a.View());
      StopOutUnfold(m, DeskOf(a), 0);
      StopOutStepWorst(m, DeskOf(a));
      var s := SummaryFor(m, a);
      if s.margin <= 0 || s.marginLevel > STOP_OUT_LEVEL { return false; }
      var worst := FindWorst(m, a);
      if worst.None? { return false; }
      SettleWorst(m, a, worst.value);
      closed := true;
    }

    method RunStopOut(m: Feed, a: LiveAccount)
      requires Sound(DeskOf(a)) && Mirrors(a)
      modifies a, this`nextTicket, this`users
      ensures DeskOf(a) == CheckStopOut(m, old(DeskOf(a))) && Sound(DeskOf(a))
      ensures users == Written(old(users), a.login, a.balance)
    {
      hide Sound, StopOutFrom, StopOutStep, Endangered, CheckStopOut;
      CheckStopOutIs(m, DeskOf(a));
      for round := 0 to STOP_OUT_ROUNDS
        invariant Sound(DeskOf(a)) && users == Written(old(users), a.login, a.balance)
        invariant StopOutFrom(m, DeskOf(a), round) == StopOutFrom(m, old(DeskOf(a)), 0)
      {
        StopOutUnfold(m, DeskOf(a), round);
        ProperSound(m, DeskOf(a));
        var closed := StopOutRound(m, a);
        if !closed { return; }
      }
      StopOutUnfold(m, DeskOf(a), STOP_OUT_ROUNDS);
    }

    method SettleWorst(m: Feed, a: LiveAccount, worst: int)
      requires Sound(DeskOf(a)) && worst in a.positions && Valued(m, a.positions[worst]).Some?
      requires WorstOf(m, a.positions, Ascending(a.positions.Keys)) == Some(worst)
      modifies a, this`nextTicket, this`users
      ensures StopOutStep(m, old(DeskOf(a))) == Some(DeskOf(a))
      ensures users == Written(old(users), a.login, a.balance)
    {
      hide FloatingProfit, Settle;
      assert PositionSound(a.View(), worst);
      var p := a.positions[worst];
      var _, _ := SettlePosition(m, a, p, p.volume, Quote(m, p.symbol).value, "[so]");
    }

    method EvaluateAccount(m: Feed, a: LiveAccount)
      requires Sound(DeskOf(a)) && Mirrors(a)
      modifies a, this`nextTicket, this`users
      ensures DeskOf(a) == Evaluate(m, old(DeskOf(a)))
      ensures users == Written(old(users), a.login, a.balance)
    {
      hide Sound, CheckStops, CheckPending, CheckStopOut;
      RunStops(m, a);
      RunPending(m, a);
      RunStopOut(m, a);
    }

    // ---------- whole steps ----------

    ghost function Others(a: LiveAccount): set<LiveAccount>
      reads this`accounts
    {
      set l | l in accounts && accounts[l] != a :: accounts[l]
    }

    /** Every account but one is as it was in a world. */
    ghost predicate OthersAs(w: Runs.World, a: LiveAccount)
      reads this`accounts, Others(a)
    {
      && a.login in accounts && accounts[a.login] == a
      && (forall l | l in accounts :: accounts[l].login == l)
      && (forall l, k | l in accounts && k in accounts && l != k :: accounts[l] != accounts[k])
      && Runs.Mirrored(w) && w.accounts.Keys == accounts.Keys
      && (forall l | l in accounts && accounts[l] != a :: accounts[l].View() == w.accounts[l])
    }

    /** Only one account, its ticket counter and its mirrored balance moved. */
    lemma WorldPut(w: Runs.World, a: LiveAccount)
      requires OthersAs(w, a) && users == Written(w.users, a.login, a.balance)
      ensures World() == Runs.Put(w, a.login, DeskOf(a)) && Distinctly()
    {
      assert World().accounts.Keys == w.accounts[a.login := a.View()].Keys;
      forall l | l in accounts
        ensures World().accounts[l] == w.accounts[a.login := a.View()][l]
      {
        assert l != a.login ==> accounts[l].View() == w.accounts[l];
      }
      assert users == Runs.Put(w, a.login, DeskOf(a)).users;
    }

    lemma LoginOf(login: int)
      requires Distinctly() && login in accounts
      ensures accounts[login].login == login
    {
    }

    /** One account object was added to those of a world. */
    lemma WorldOpened(w: Runs.World, a: LiveAccount)
      requires a.login !in w.accounts && a.login in users && a.View() == Runs.NewAccount(a.login, users[a.login])
      requires accounts.Keys == w.accounts.Keys + {a.login} && accounts[a.login] == a
      requires forall l | l in w.accounts :: accounts[l].View() == w.accounts[l]
      requires w.next == nextTicket && w.users == users
      ensures World() == Runs.Touched(w, a.login)
    {
      var grown := w.accounts[a.login := a.View()];
      assert World().accounts.Keys == grown.Keys;
      forall l | l in accounts
        ensures World().accounts[l] == grown[l]
      {
        assert l != a.login ==> l in w.accounts;
      }
    }

    /** A new account object for a login of the user store. */
    method OpenAcct(login: int) returns (a: LiveAccount)
      requires Distinctly() && login !in accounts && login in users
      modifies this`accounts
      ensures Distinctly() && fresh(a) && accounts == old(accounts)[login := a] && a.login == login
      ensures World() == Runs.Touched(old(World()), login)
    {
      ghost var w := World();
      a := new LiveAccount(login, users[login]);
      accounts := accounts[login := a];
      WorldOpened(w, a);
    }

    /** The account of a login, created from the user store on first touch. */
    method Acct(login: int) returns (a: LiveAccount?)
      requires Valid()
      modifies this`accounts
      ensures Valid() && World() == Runs.Touched(old(World()), login)
      ensures fresh(Objects() - old(Objects()))
      ensures a == null <==> !Runs.Known(old(World()), login)
      ensures a != null ==> login in accounts && accounts[login] == a && a.login == login
    {
      hide Runs.Consistent;
      Runs.TouchedConsistent(World(), login);
      if login in accounts {
        a := accounts[login];
      } else if login in users {
        a := OpenAcct(login);
      } else {
        a := null;
      }
    }

    /** What validity says about one account. */
    lemma AcctReady(a: LiveAccount)
      requires Valid() && a.login in accounts && accounts[a.login] == a
      ensures Sound(DeskOf(a)) && Mirrors(a) && OthersAs(World(), a) && World().users == users
      ensures a.login in World().accounts && DeskOf(a) == Runs.DeskOf(World(), a.login)
    {
      assert Sound(Runs.DeskOf(World(), a.login));
    }

    method Dispatch(m: Feed, login: int, r: Request) returns (an: Answer)
      requires Valid()
      modifies this, Objects()
      ensures Valid() && fresh(Objects() - old(Objects()))
      ensures World() == Runs.Step(old(World()), Runs.Submit(m, login, r))
      ensures an == if !Runs.Known(old(World()), login) then Answer(RcInvalid, 0, 0.0, 0)
                    else Handle(m, Runs.DeskOf(Runs.Touched(old(World()), login), login), r).answer
    {
      hide Runs.Consistent, Runs.Step, Runs.Put, Runs.Touched, World, OthersAs, Distinctly, Sound, Handle;
      Runs.StepSafe(World(), Runs.Submit(m, login, r), 0);
      Runs.StepUnfold(World(), Runs.Submit(m, login, r));
      var a := Acct(login);
      if a == null { return Answer(RcInvalid, 0, 0.0, 0); }
      AcctReady(a);
      ghost var w := World();
      an := Route(m, a, r);
      WorldPut(w, a);
    }

    method MoveMoney(m: Feed, login: int, amount: real, comment: string) returns (done: bool)
      requires Valid()
      modifies this, Objects()
      ensures Valid() && fresh(Objects() - old(Objects()))
      ensures World() == Runs.Step(old(World()), Runs.Move(m, login, amount, comment))
      ensures done <==> Runs.Known(old(World()), login)
                        && Affordable(m, Runs.Touched(old(World()), login).accounts[login], amount)
    {
      hide Runs.Consistent, Runs.Step, Runs.Put, Runs.Touched, World, OthersAs, Distinctly, Sound, BalanceOp, Affordable;
      Runs.StepSafe(World(), Runs.Move(m, login, amount, comment), 0);
      Runs.StepUnfold(World(), Runs.Move(m, login, amount, comment));
      var a := Acct(login);
      if a == null { return false; }
      AcctReady(a);
      ghost var w := World();
      done := CreditIfAffordable(m, a, amount, comment);
      WorldPut(w, a);
    }

    method CreditIfAffordable(m: Feed, a: LiveAccount, amount: real, comment: string) returns (done: bool)
      requires Mirrors(a)
      modifies a, this`nextTicket, this`users
      ensures DeskOf(a) == BalanceOp(m, old(DeskOf(a)), amount, comment) && (done <==> Affordable(m, old(a.View()), amount))
      ensures users == Written(old(users), a.login, a.balance)
    {
      var s := SummaryFor(m, a);
      if amount < 0.0 && s.marginFree as real + amount < 0.0 { return false; }
      Credit(a, amount);
      AppendDeal(a, Deal(0, 0, 0, "", BALANCE_ACTION, ENTRY_IN, 0.0, 0, m.now, 0, 0, Round(amount), 0, comment));
      done := true;
    }

    method ChangeLeverage(login: int, leverage: int)
      requires Valid()
      modifies this, Objects()
      ensures Valid() && fresh(Objects() - old(Objects()))
      ensures World() == Runs.Step(old(World()), Runs.SetLeverage(login, leverage))
    {
      hide Runs.Consistent, Runs.Step, Runs.Put, Runs.Touched, World, OthersAs, Distinctly, Sound;
      Runs.StepSafe(World(), Runs.SetLeverage(login, leverage), 0);
      Runs.StepUnfold(World(), Runs.SetLeverage(login, leverage));
      var a := Acct(login);
      if a == null { return; }
      AcctReady(a);
      ghost var w := World();
      if leverage > 0 && leverage != a.leverage {
        a.leverage := leverage;
      }
      WorldPut(w, a);
    }

    method ResetAccount(login: int, balance: int)
      requires Valid()
      modifies this, Objects()
      ensures Valid() && fresh(Objects() - old(Objects()))
      ensures World() == Runs.Step(old(World()), Runs.Reset(login, balance))
    {
      hide Runs.Consistent, Runs.Step, Runs.Put, Runs.Touched, World, OthersAs, Distinctly, Sound;
      Runs.StepSafe(World(), Runs.Reset(login, balance), 0);
      Runs.StepUnfold(World(), Runs.Reset(login, balance));
      var a := Acct(login);
      if a == null { return; }
      AcctReady(a);
      ghost var w := World();
      EmptyOut(a, balance);
      WorldPut(w, a);
    }

    method EmptyOut(a: LiveAccount, balance: int)
      modifies a, this`users
      ensures DeskOf(a) == Emptied(old(DeskOf(a)), balance)
      ensures users == Written(old(users), a.login, a.balance)
    {
      a.positions, a.orders, a.history, a.deals := map[], map[], [], [];
      a.leverage := DEFAULT_LEVERAGE;
      a.balance := balance;
      if a.login in users {
        users := users[a.login := users[a.login].(balance := balance)];
      }
    }

    /** What the tick has made of each account. */
    lemma TickDone(w: Runs.World, m: Feed, walk: seq<int>)
      requires Runs.Consistent(w) && Passes.NoRepeats(walk) && World() == Runs.Step(w, Runs.EvaluatePass(m, walk))
      requires w.accounts.Keys == accounts.Keys && forall l | l in accounts :: l in walk
      ensures forall l | l in accounts :: Ticks.Ticked(m, w.accounts[l], w.next, accounts[l].View())
    {
      hide Runs.Consistent, Runs.Step, Ticks.Ticked;
      forall l | l in accounts
        ensures Ticks.Ticked(m, w.accounts[l], w.next, accounts[l].View())
      {
        Ticks.TickEvaluates(w, m, walk, l);
        assert World().accounts[l] == accounts[l].View();
      }
    }

    /** Evaluates every account once, in any order. */
    method EvaluateAccounts(m: Feed) returns (ghost walk: seq<int>)
      requires Valid()
      modifies this`nextTicket, this`users, Objects()
      ensures Valid() && accounts == old(accounts)
      ensures World() == Runs.EvaluateFrom(old(World()), m, walk)
      ensures (forall l :: l in accounts <==> l in walk) && Passes.NoRepeats(walk)
    {
      hide Runs.Consistent, Runs.Put, World, Distinctly, OthersAs, Sound, Evaluate;
      walk := [];
      var rest := accounts.Keys;
      while rest != {}
        invariant accounts == old(accounts) && rest <= accounts.Keys && Valid()
        invariant forall l :: l in accounts <==> l in walk || l in rest
        invariant Passes.NoRepeats(walk) && forall l | l in walk :: l !in rest
        invariant World() == Runs.EvaluateFrom(old(World()), m, walk)
        decreases rest
      {
        HasMember(rest);
        var login :| login in rest;
        var a := accounts[login];
        ghost var w := World();
        LoginOf(login);
        AcctReady(a);
        Runs.StepSafe(w, Runs.EvaluatePass(m, [login]), 0);
        Runs.EvaluateFromLast(old(World()), m, walk, login);
        EvaluateAccount(m, a);
        WorldPut(w, a);
        walk := walk + [login];
        rest := rest - {login};
      }
    }

    lemma WorldKeys()
      ensures World().accounts.Keys == accounts.Keys && World().next == nextTicket
    {
    }

    /** One tick of the engine. */
    method EvaluateEveryone(m: Feed) returns (ghost walk: seq<int>)
      requires Valid()
      modifies this`nextTicket, this`users, Objects()
      ensures Valid() && accounts == old(accounts)
      ensures World() == Runs.Step(old(World()), Runs.EvaluatePass(m, walk))
      ensures (forall l :: l in accounts <==> l in walk) && Passes.NoRepeats(walk)
      ensures forall l | l in accounts ::
                l in old(World()).accounts && Ticks.Ticked(m, old(World()).accounts[l], old(nextTicket), accounts[l].View())
    {
      hide Runs.Consistent, Runs.EvaluateFrom, World, Ticks.Ticked;
      ghost var w := World();
      WorldKeys();
      walk := EvaluateAccounts(m);
      TickDone(w, m, walk);
    }
  }
}
