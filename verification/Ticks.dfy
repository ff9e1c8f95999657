/** One tick of the engine over the whole book: what becomes of every position
    and every working order, and of the account's margin level. */
module Ticks {
  import opened Market
  import opened Book
  import opened Engine
  import opened EngineProofs
  import opened Equity
  import opened Passes
  import opened Requests
  import opened Runs

  /** Which of a position's two levels the market has touched; the stop goes
      first. */
  predicate StopFirst(p: Position, t: Tick) {
    !Clear(p.action, p.priceSL, 0.0, t)
  }

  /** A position whose stop or target is touched while its market is open is
      closed for that; any other is as it was, or was closed for want of margin. */
  ghost predicate PositionDone(m: Feed, p: Position, a: Account, deals: nat) {
    match MarketOf(m, p.symbol)
    case Open(_, t) =>
      if Clear(p.action, p.priceSL, p.priceTP, t) then Stands(m, a, deals, p)
      else
        && p.ticket !in a.positions
        && ClosedAt(a, deals, p, if p.action == BUY then t.bid else t.ask, if StopFirst(p, t) then "[sl]" else "[tp]")
    case Shut(_) => Stands(m, a, deals, p)
  }

  /** The account as the k-th working order finds it. */
  ghost function AtTurn(m: Feed, d: Desk, k: nat): Account
    requires k < |Ascending(d.acct.orders.Keys)|
  {
    PendingFrom(m, CheckStops(m, d), Ascending(d.acct.orders.Keys)[..k]).acct
  }

  ghost predicate PositionsDone(m: Feed, d: Desk, a: Account) {
    forall u | u in d.acct.positions :: PositionDone(m, d.acct.positions[u], a, |d.acct.deals|)
  }

  ghost predicate OrdersDone(m: Feed, d: Desk, a: Account) {
    forall k: nat | k < |Ascending(d.acct.orders.Keys)| ::
      Verdict(m, d.acct.orders[Ascending(d.acct.orders.Keys)[k]], AtTurn(m, d, k), a, |d.acct.history|, |d.acct.deals|)
  }

  /** What a tick leaves of an account. */
  ghost predicate Evaluated(m: Feed, d: Desk, a: Account) {
    && PositionsDone(m, d, a) && OrdersDone(m, d, a)
    && a.positions.Keys <= d.acct.positions.Keys + d.acct.orders.Keys && a.orders.Keys <= d.acct.orders.Keys
    && (|d.acct.positions| + |d.acct.orders| <= 64 ==> !Endangered(m, a))
  }

  // ---------- stop-out ----------

  /** What liquidation may have done: orders and history grow no shorter, and each
      position is as it was or was closed in full for want of margin. */
  ghost predicate Liquidated(m: Feed, a: Account, a': Account) {
    && a'.orders == a.orders && a.history <= a'.history && a.deals <= a'.deals
    && a'.positions.Keys <= a.positions.Keys
    && (forall u | u in a.positions && a.positions[u].ticket == u :: Stands(m, a', |a.deals|, a.positions[u]))
  }

  lemma LiquidatedTrans(m: Feed, a: Account, b: Account, c: Account)
    requires Liquidated(m, a, b) && Liquidated(m, b, c)
    ensures Liquidated(m, a, c)
  {
    forall u | u in a.positions && a.positions[u].ticket == u
      ensures Stands(m, c, |a.deals|, a.positions[u])
    {
      var p := a.positions[u];
      assert Stands(m, b, |a.deals|, p);
      if u in b.positions {
        assert Stands(m, c, |b.deals|, b.positions[u]);
        StandsSooner(m, c, |b.deals|, |a.deals|, p);
      } else {
        ForcedLater(m, b, c, |a.deals|, p);
      }
    }
  }

  lemma StandsSooner(m: Feed, a: Account, mark: nat, sooner: nat, p: Position)
    requires Stands(m, a, mark, p) && sooner <= mark
    ensures Stands(m, a, sooner, p)
  {
  }

  lemma StopOutStepLiquidates(m: Feed, d: Desk)
    requires Sound(d) && StopOutStep(m, d).Some?
    ensures Liquidated(m, d.acct, StopOutStep(m, d).value.acct)
  {
    hide Sound, StopOutStep, ClosesWorst, Liquidated;
    StopOutPicksWorst(m, d);
    StopOutStepProper(m, d);
    var d' := StopOutStep(m, d).value;
    ProperLists(d, d');
    var w :| ClosesWorst(m, d, d', w);
    WorstInBook(m, d, d', w);
    KeyIsTicket(d, w);
    WorstLiquidates(m, d, d', w);
  }

  lemma WorstInBook(m: Feed, d: Desk, d': Desk, w: int)
    requires ClosesWorst(m, d, d', w)
    ensures w in d.acct.positions
  {
  }

  lemma WorstLiquidates(m: Feed, d: Desk, d': Desk, w: int)
    requires ClosesWorst(m, d, d', w) && w in d.acct.positions && d.acct.positions[w].ticket == w
    requires d.acct.positions[w].action in {BUY, SELL} && d.acct.history <= d'.acct.history && d.acct.deals <= d'.acct.deals
    ensures Liquidated(m, d.acct, d'.acct)
  {
    hide Settle, ClosedAt;
    var p := d.acct.positions[w];
    SettleClosesAt(m, d, p, Quote(m, p.symbol).value, "[so]");
    SettleTakes(m, d, p, Quote(m, p.symbol).value, "[so]");
  }

  lemma {:induction false} StopOutLiquidates(m: Feed, d: Desk, round: nat)
    requires Sound(d) && round <= STOP_OUT_ROUNDS
    ensures Liquidated(m, d.acct, StopOutFrom(m, d, round).acct)
    decreases STOP_OUT_ROUNDS - round
  {
    hide Sound, StopOutStep, StopOutFrom, Endangered, Liquidated;
    StopOutUnfold(m, d, round);
    LiquidatedRefl(m, d.acct);
    if round < STOP_OUT_ROUNDS && Endangered(m, d.acct) {
      StopOutStepLiquidates(m, d);
      StopOutKeepsEquity(m, d);
      StopOutLiquidates(m, StopOutStep(m, d).value, round + 1);
      LiquidatedTrans(m, d.acct, StopOutStep(m, d).value.acct, StopOutFrom(m, d, round).acct);
    }
  }

  lemma LiquidatedRefl(m: Feed, a: Account)
    ensures Liquidated(m, a, a)
  {
  }

  // ---------- the three passes together ----------

  /** The states between the passes, with what each pass keeps. */
  lemma Between(m: Feed, d: Desk)
    requires Sound(d)
    ensures var d1, d2 := CheckStops(m, d), CheckPending(m, CheckStops(m, d));
            && Evaluate(m, d) == CheckStopOut(m, d2)
            && Sound(d1) && Sound(d2)
            && d.acct.history <= d1.acct.history <= d2.acct.history
            && d.acct.deals <= d1.acct.deals <= d2.acct.deals
            && d1.acct.orders == d.acct.orders && d1.acct.positions.Keys <= d.acct.positions.Keys
            && d2.acct.positions.Keys <= d1.acct.positions.Keys + d.acct.orders.Keys
            && d2.acct.orders.Keys <= d.acct.orders.Keys
            && Liquidated(m, d2.acct, Evaluate(m, d).acct)
  {
    var d1 := CheckStops(m, d);
    var d2 := CheckPending(m, d1);
    hide Sound, StopsFrom, PendingFrom, StopOutFrom, Liquidated;
    StopsFromProper(m, d, Ascending(d.acct.positions.Keys));
    ProperLists(d, d1);
    StopsFromShrinks(m, d, Ascending(d.acct.positions.Keys));
    PendingFromProper(m, d1, Ascending(d1.acct.orders.Keys));
    ProperLists(d1, d2);
    PendingFromKeys(m, d1, Ascending(d1.acct.orders.Keys));
    StopOutLiquidates(m, d2, 0);
  }

  lemma OrderAfter(m: Feed, d: Desk, k: nat)
    requires Sound(d) && k < |Ascending(d.acct.orders.Keys)|
    ensures Verdict(m, d.acct.orders[Ascending(d.acct.orders.Keys)[k]], AtTurn(m, d, k), Evaluate(m, d).acct,
                    |d.acct.history|, |d.acct.deals|)
  {
    Between(m, d);
    var d1, d2, a := CheckStops(m, d), CheckPending(m, CheckStops(m, d)), Evaluate(m, d).acct;
    var tickets := Ascending(d.acct.orders.Keys);
    var o := d.acct.orders[tickets[k]];
    TicketIsKey(d, tickets[k]);
    hide Sound, CheckStops, CheckStopOut, Evaluate, Ascending;
    PendingFromVerdict(m, d1, tickets, k, |d.acct.history|, |d.acct.deals|);
    VerdictAfter(m, o, AtTurn(m, d, k), d2.acct, a, |d.acct.history|, |d.acct.deals|);
  }

  /** Liquidation leaves an order's verdict in place. */
  lemma VerdictAfter(m: Feed, o: Order, before: Account, a: Account, a': Account, mark: nat, deals: nat)
    requires Verdict(m, o, before, a, mark, deals) && Liquidated(m, a, a') && deals <= |a.deals|
    ensures Verdict(m, o, before, a', mark, deals)
  {
    hide MarginFor, FreeOf;
    var t := MarketOf(m, o.symbol);
    if t.Open? {
      var p := Became(o, before.login, t.tick, m.now);
      if Entered(a, p) { EnteredLater(a, a', p); }
      if p.ticket in a.positions && a.positions[p.ticket] == p {
        StandsSooner(m, a', |a.deals|, deals, p);
      } else if Stands(m, a, deals, p) {
        ForcedLater(m, a, a', deals, p);
      }
    }
  }

  lemma PositionAfter(m: Feed, d: Desk, u: int)
    requires Sound(d) && u in d.acct.positions
    ensures PositionDone(m, d.acct.positions[u], Evaluate(m, d).acct, |d.acct.deals|)
  {
    Between(m, d);
    var d1, d2, a := CheckStops(m, d), CheckPending(m, CheckStops(m, d)), Evaluate(m, d).acct;
    var p := d.acct.positions[u];
    KeyIsTicket(d, u);
    FreshOrWorking(d, u);
    CheckStopsExact(m, d, u);
    hide Sound, CheckStops, CheckStopOut, Evaluate, Ascending, StopDone, ClosedOut;
    PendingFromElsewhere(m, d1, Ascending(d.acct.orders.Keys), u);
    ClearStops(m, p);
    PositionKept(m, p, d.acct, d1.acct, d2.acct, a);
  }

  lemma FreshOrWorking(d: Desk, u: int)
    requires Sound(d) && u in d.acct.positions
    ensures u !in d.acct.orders && u !in Ascending(d.acct.orders.Keys)
  {
    PositionNotWorking(d, u);
  }

  /** The stop pass looks at the levels as they should be looked at. */
  lemma ClearStops(m: Feed, p: Position)
    requires p.action in {BUY, SELL}
    ensures StopTouched(m, p) <==> MarketOf(m, p.symbol).Open? && !Clear(p.action, p.priceSL, p.priceTP, MarketOf(m, p.symbol).tick)
    ensures StopTouched(m, p) ==>
              StopHit(p, MarketOf(m, p.symbol).tick).value == if StopFirst(p, MarketOf(m, p.symbol).tick) then "[sl]" else "[tp]"
  {
  }

  lemma PositionKept(m: Feed, p: Position, a0: Account, a1: Account, a2: Account, a3: Account)
    requires StopDone(m, p, true, a1, |a0.deals|) && SameAt(a1, a2, p.ticket) && Liquidated(m, a2, a3)
    requires |a0.deals| <= |a1.deals| && a1.deals <= a2.deals
    requires StopTouched(m, p) <==> MarketOf(m, p.symbol).Open? && !Clear(p.action, p.priceSL, p.priceTP, MarketOf(m, p.symbol).tick)
    requires StopTouched(m, p) ==>
               StopHit(p, MarketOf(m, p.symbol).tick).value == if StopFirst(p, MarketOf(m, p.symbol).tick) then "[sl]" else "[tp]"
    ensures PositionDone(m, p, a3, |a0.deals|)
  {
    hide StopHit, Clear;
    if StopTouched(m, p) {
      ClosedOutLater(m, p, a1, a3, |a0.deals|);
    } else {
      StandsSooner(m, a3, |a2.deals|, |a0.deals|, p);
    }
  }

  /** An evaluation closes every position whose stop or target is touched, deals
      with every working order as its lifetime, the market and the free margin
      call for, touches nothing else but what it has to liquidate, and leaves an
      account of at most 64 positions and orders out of danger. */
  lemma EvaluateOutcome(m: Feed, d: Desk)
    requires Sound(d)
    ensures Evaluated(m, d, Evaluate(m, d).acct)
  {
    var a := Evaluate(m, d).acct;
    hide PositionDone, Verdict, Evaluate, AtTurn;
    forall u | u in d.acct.positions
      ensures PositionDone(m, d.acct.positions[u], a, |d.acct.deals|)
    {
      PositionAfter(m, d, u);
    }
    forall k: nat | k < |Ascending(d.acct.orders.Keys)|
      ensures Verdict(m, d.acct.orders[Ascending(d.acct.orders.Keys)[k]], AtTurn(m, d, k), a, |d.acct.history|, |d.acct.deals|)
    {
      OrderAfter(m, d, k);
    }
    hide Sound, Endangered, Ascending;
    LevelAfter(m, d);
  }

  /** The keys and the level after the three passes. */
  lemma LevelAfter(m: Feed, d: Desk)
    requires Sound(d)
    ensures var a := Evaluate(m, d).acct;
            && a.positions.Keys <= d.acct.positions.Keys + d.acct.orders.Keys && a.orders.Keys <= d.acct.orders.Keys
            && (|d.acct.positions| + |d.acct.orders| <= 64 ==> !Endangered(m, a))
  {
    Between(m, d);
    var d2 := CheckPending(m, CheckStops(m, d));
    hide CheckStops, CheckPending, CheckStopOut, Evaluate, Sound, Endangered, Stands;
    QuotableAtMost(m, d2.acct.positions, d.acct.positions.Keys, d.acct.orders.Keys);
    if |d.acct.positions| + |d.acct.orders| <= 64 { StopOutRescues(m, d2); }
  }

  lemma QuotableAtMost(m: Feed, ps: map<int, Position>, s: set<int>, t: set<int>)
    requires ps.Keys <= s + t
    ensures |Quotable(m, ps)| <= |s| + |t|
  {
    SubsetSize(Quotable(m, ps), s + t);
    assert s + t == s + (t - s);
    SubsetSize(t - s, t);
  }

  lemma {:induction false} SubsetSize(s: set<int>, t: set<int>)
    requires s <= t
    ensures |s| <= |t|
    decreases |s|
  {
    assert t == s + (t - s);
  }

  // ---------- over the whole book ----------

  /** Whatever accounts are evaluated before and after it, an account on the walk
      is evaluated once, as it was at entry; only its tickets start later. */
  ghost predicate Visited(w: World, m: Feed, w': World, login: int)
    requires login in w.accounts
  {
    exists n :: n >= w.next && login in w'.accounts
                && w'.accounts[login] == Evaluate(m, Desk(w.accounts[login], n)).acct
  }

  lemma PutElsewhere(w: World, m: Feed, at: int, login: int)
    requires Consistent(w) && at in w.accounts && login != at
    ensures var w1 := Put(w, at, Evaluate(m, DeskOf(w, at)));
            && w.next <= w1.next && (login in w1.accounts <==> login in w.accounts)
            && (login in w.accounts ==> w1.accounts[login] == w.accounts[login])
  {
    hide Evaluate;
    assert Sound(DeskOf(w, at));
    EvaluateProper(m, DeskOf(w, at));
  }

  lemma {:induction false} EvaluateFromPast(w: World, m: Feed, walk: seq<int>, login: int)
    requires Consistent(w) && login in w.accounts && login !in walk
    ensures var w' := EvaluateFrom(w, m, walk);
            login in w'.accounts && w'.accounts[login] == w.accounts[login]
    decreases |walk|
  {
    hide Consistent, Evaluate, Put;
    if |walk| > 0 {
      if walk[0] in w.accounts {
        EvaluateOneSafe(w, m, walk[0], login);
        PutElsewhere(w, m, walk[0], login);
        EvaluateFromPast(Put(w, walk[0], Evaluate(m, DeskOf(w, walk[0]))), m, walk[1..], login);
      } else {
        EvaluateFromPast(w, m, walk[1..], login);
      }
    }
  }

  lemma {:induction false} EvaluateFromAt(w: World, m: Feed, walk: seq<int>, login: int)
    requires Consistent(w) && NoRepeats(walk) && login in walk && login in w.accounts
    ensures Visited(w, m, EvaluateFrom(w, m, walk), login)
    decreases |walk|
  {
    hide Consistent, Evaluate, Put;
    if walk[0] == login {
      EvaluateOneSafe(w, m, login, login);
      PutAt(w, login, Evaluate(m, DeskOf(w, login)));
      EvaluateFromPast(Put(w, login, Evaluate(m, DeskOf(w, login))), m, walk[1..], login);
      assert w.next >= w.next && Evaluate(m, Desk(w.accounts[login], w.next)) == Evaluate(m, DeskOf(w, login));
    } else if walk[0] in w.accounts {
      EvaluateOneSafe(w, m, walk[0], login);
      PutElsewhere(w, m, walk[0], login);
      EvaluateFromAt(Put(w, walk[0], Evaluate(m, DeskOf(w, walk[0]))), m, walk[1..], login);
    } else {
      EvaluateFromAt(w, m, walk[1..], login);
    }
  }

  lemma PutAt(w: World, login: int, d: Desk)
    requires login in w.accounts
    ensures login in Put(w, login, d).accounts && Put(w, login, d).accounts[login] == d.acct
  {
  }

  /** The account after the tick is one that an evaluation of it leaves. */
  ghost predicate Ticked(m: Feed, a: Account, next: int, a': Account) {
    exists n :: n >= next && Evaluated(m, Desk(a, n), a')
  }

  /** One tick over a consistent book does that to every account it visits. */
  lemma TickEvaluates(w: World, m: Feed, walk: seq<int>, login: int)
    requires Consistent(w) && NoRepeats(walk) && login in walk && login in w.accounts
    ensures var w' := Step(w, EvaluatePass(m, walk));
            login in w'.accounts && Ticked(m, w.accounts[login], w.next, w'.accounts[login])
  {
    hide Evaluate, EvaluateFrom, Evaluated;
    EvaluateFromAt(w, m, walk, login);
    var w' := EvaluateFrom(w, m, walk);
    var n :| n >= w.next && w'.accounts[login] == Evaluate(m, Desk(w.accounts[login], n)).acct;
    assert Sound(DeskOf(w, login));
    SoundLater(DeskOf(w, login), n);
    EvaluateOutcome(m, Desk(w.accounts[login], n));
  }
}
