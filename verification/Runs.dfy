/** The whole broker over any run of requests, evaluation passes, money
    movements and resets, on any accounts, at any quotes. */
module Runs {
  import opened Rounding
  import opened Market
  import opened Book
  import opened Engine
  import opened EngineProofs

  datatype User = User(balance: int, currency: string)

  /** The book, the ticket counter and the user store that mirrors balances. */
  datatype World = World(accounts: map<int, Account>, next: int, users: map<int, User>)

  datatype Event =
    | Submit(feed: Feed, login: int, request: Request)
    | EvaluatePass(feed: Feed, walk: seq<int>)
    | Move(feed: Feed, login: int, amount: real, comment: string)
    | SetLeverage(login: int, leverage: int)
    | Reset(login: int, balance: int)
    | Enroll(login: int, user: User)

  const FIRST_TICKET := 600001

  predicate Known(w: World, login: int) {
    login in w.accounts || login in w.users
  }

  function NewAccount(login: int, user: User): Account {
    Account(login, user.balance, 0, DEFAULT_LEVERAGE, if user.currency == "" then "USD" else user.currency,
            map[], map[], [], [])
  }

  /** The engine's record of a login, created from the user store on first
      touch. */
  function Touched(w: World, login: int): (w': World)
    ensures if Known(w, login) then login in w'.accounts else w' == w
  {
    if login in w.accounts || login !in w.users then w
    else w.(accounts := w.accounts[login := NewAccount(login, w.users[login])])
  }

  function DeskOf(w: World, login: int): Desk
    requires login in w.accounts
  {
    Desk(w.accounts[login], w.next)
  }

  /** Writes a desk back; a balance that moved is mirrored to the user store. */
  function Put(w: World, login: int, d: Desk): World
    requires login in w.accounts
  {
    var users :=
      if d.acct.balance != w.accounts[login].balance && login in w.users
      then w.users[login := w.users[login].(balance := d.acct.balance)] else w.users;
    World(w.accounts[login := d.acct], d.next, users)
  }

  ghost function EvaluateFrom(w: World, m: Feed, walk: seq<int>): World
    decreases |walk|
  {
    if |walk| == 0 then w
    else
      var login := walk[0];
      EvaluateFrom(if login in w.accounts then Put(w, login, Evaluate(m, DeskOf(w, login))) else w, m, walk[1..])
  }

  lemma {:induction false} EvaluateFromLast(w: World, m: Feed, walk: seq<int>, login: int)
    ensures var v := EvaluateFrom(w, m, walk);
            && EvaluateFrom(w, m, walk + [login]) == EvaluateFrom(v, m, [login])
            && EvaluateFrom(v, m, [login]) == if login in v.accounts then Put(v, login, Evaluate(m, DeskOf(v, login))) else v
    decreases |walk|
  {
    hide Evaluate, Put;
    if |walk| > 0 {
      var v := if walk[0] in w.accounts then Put(w, walk[0], Evaluate(m, DeskOf(w, walk[0]))) else w;
      assert (walk + [login])[1..] == walk[1..] + [login];
      EvaluateFromLast(v, m, walk[1..], login);
    } else {
      assert walk + [login] == [login];
    }
  }

  ghost function Step(w: World, e: Event): World {
    match e
    case EvaluatePass(m, walk) => EvaluateFrom(w, m, walk)
    case Enroll(login, user) => if Known(w, login) then w else w.(users := w.users[login := user])
    case _ =>
      if !Known(w, e.login) then w
      else
        var w1 := Touched(w, e.login);
        Put(w1, e.login, StepDesk(DeskOf(w1, e.login), e))
  }

  /** The events that reach one account's desk. An evaluation pass reaches all
      of them; enrolling a login only writes the user store, which hands out
      each login once. */
  predicate OnDesk(e: Event) {
    !e.EvaluatePass? && !e.Enroll?
  }

  ghost function StepDesk(d: Desk, e: Event): Desk
    requires OnDesk(e)
  {
    match e
    case Submit(m, _, r) => Handle(m, d, r).desk
    case Move(m, _, amount, comment) => BalanceOp(m, d, amount, comment)
    case SetLeverage(_, leverage) => Leveraged(d, leverage)
    case Reset(_, balance) => Emptied(d, balance)
  }

  lemma StepUnfold(w: World, e: Event)
    requires OnDesk(e)
    ensures !Known(w, e.login) ==> Step(w, e) == w
    ensures Known(w, e.login) ==>
              Step(w, e) == Put(Touched(w, e.login), e.login, StepDesk(DeskOf(Touched(w, e.login), e.login), e))
  {
  }

  ghost function Run(w: World, events: seq<Event>): World
    decreases |events|
  {
    if |events| == 0 then w else Run(Step(w, events[0]), events[1..])
  }

  // ---------- the invariant of every reachable world ----------

  ghost predicate Apart(a: Account, b: Account) {
    forall t: int :: t in Tickets(a) ==> t !in Tickets(b)
  }

  ghost predicate AccountsSound(w: World) {
    forall l | l in w.accounts :: w.accounts[l].login == l && Sound(DeskOf(w, l))
  }

  /** No ticket, of an order or a deal, belongs to two accounts. */
  ghost predicate AccountsApart(w: World) {
    forall l, k | l in w.accounts && k in w.accounts && l != k :: Apart(w.accounts[l], w.accounts[k])
  }

  predicate Mirrored(w: World) {
    forall l | l in w.accounts && l in w.users :: w.users[l].balance == w.accounts[l].balance
  }

  ghost predicate Consistent(w: World) {
    w.next > 0 && AccountsSound(w) && AccountsApart(w) && Mirrored(w)
  }

  lemma StartsConsistent(users: map<int, User>)
    ensures Consistent(World(map[], FIRST_TICKET, users))
  {
  }

  lemma SoundLater(d: Desk, next: int)
    requires Sound(d) && d.next <= next
    ensures Sound(d.(next := next))
  {
  }

  lemma BlankSound(a: Account, next: int)
    requires next > 0 && a.positions == map[] && a.orders == map[] && a.history == [] && a.deals == []
    ensures Sound(Desk(a, next)) && Tickets(a) == multiset{}
  {
  }

  // ---------- what one account keeps ----------

  /** Between two moments without a reset: history and deals only grow, working
      orders meet their fate, storage and commission are accounted for, and
      tickets are old ones or fresh from the counter. */
  ghost predicate Persists(a: Account, n: int, a': Account, n': int) {
    && n <= n' && a'.login == a.login
    && a.history <= a'.history && a.deals <= a'.deals
    && FatesKept(a, a') && CostsKept(a, a')
    && (forall t: int :: t in Tickets(a') ==> t in Tickets(a) || n <= t < n')
  }

  lemma AdvancesPersists(d: Desk, d': Desk)
    requires Advances(d, d')
    ensures Persists(d.acct, d.next, d'.acct, d'.next)
  {
  }

  lemma PersistsFate(o: Order, a: Account, n: int, a': Account, n': int, mark: nat)
    requires Sound(Desk(a, n)) && Persists(a, n, a', n') && Sound(Desk(a', n')) && mark <= |a.history| && Fate(o, a, mark)
    ensures Fate(o, a', mark)
  {
    if o.ticket in a.orders {
      var o1 := a.orders[o.ticket];
      assert OrderSound(a, o.ticket);
      assert Fate(o1, a', |a.history|);
      if o.ticket !in a'.orders {
        var i :| |a.history| <= i < |a'.history| && SameOrder(o1, a'.history[i]);
        assert SameOrder(o, a'.history[i]);
      }
    } else {
      var i :| mark <= i < |a.history| && SameOrder(o, a.history[i]);
      assert a'.history[i] == a.history[i];
      HistoricNotWorking(Desk(a', n'), i);
    }
  }

  /** No ticket is both working and historical, and history holds it once. */
  lemma HistoricNotWorking(d: Desk, i: nat)
    requires Sound(d) && i < |d.acct.history|
    ensures d.acct.history[i].ticket !in d.acct.orders
    ensures forall j | 0 <= j < |d.acct.history| && j != i :: d.acct.history[j].ticket != d.acct.history[i].ticket
  {
    var h := OrderTickets(d.acct.history);
    assert h[i] == d.acct.history[i].ticket;
    assert Tickets(d.acct)[h[i]] <= 1;
    assert h[i] in multiset(h);
    forall j | 0 <= j < |d.acct.history| && j != i
      ensures d.acct.history[j].ticket != d.acct.history[i].ticket
    {
      assert h[j] == d.acct.history[j].ticket;
      TwoPlaces(h, i, j);
    }
  }

  lemma TwoPlaces(s: seq<int>, i: nat, j: nat)
    requires i < |s| && j < |s| && i != j && multiset(s)[s[i]] <= 1
    ensures s[i] != s[j]
  {
    var lo, hi := if i < j then i else j, if i < j then j else i;
    assert s == s[..hi] + [s[hi]] + s[hi + 1..];
    assert s[lo] in s[..hi];
    assert multiset(s) == multiset(s[..hi]) + multiset{s[hi]} + multiset(s[hi + 1..]);
  }

  lemma FatesTrans(a: Account, n: int, b: Account, k: int, c: Account, j: int)
    requires Sound(Desk(b, k)) && Sound(Desk(c, j)) && Persists(b, k, c, j)
    requires FatesKept(a, b) && |a.history| <= |b.history|
    ensures FatesKept(a, c)
  {
    hide Sound, Persists;
    forall t | t in a.orders
      ensures Fate(a.orders[t], c, |a.history|)
    {
      PersistsFate(a.orders[t], b, k, c, j, |a.history|);
    }
  }

  lemma CostsTrans(a: Account, b: Account, c: Account)
    requires CostsKept(a, b) && CostsKept(b, c)
    ensures CostsKept(a, c)
  {
  }

  lemma PersistsTrans(a: Account, n: int, b: Account, k: int, c: Account, j: int)
    requires Sound(Desk(b, k)) && Sound(Desk(c, j)) && Persists(a, n, b, k) && Persists(b, k, c, j)
    ensures Persists(a, n, c, j)
  {
    hide Sound;
    FatesTrans(a, n, b, k, c, j);
    CostsTrans(a, b, c);
  }

  lemma PersistsRefl(a: Account, n: int, n': int)
    requires Sound(Desk(a, n)) && n <= n'
    ensures Persists(a, n, a, n')
  {
  }

  // ---------- steps ----------

  lemma BalanceDealTickets(a: Account, a': Account, deal: Deal)
    requires a'.orders == a.orders && a'.history == a.history && a'.deals == a.deals + [deal]
    ensures Tickets(a') == Tickets(a) + Issued(deal.ticket, deal.ticket + 1)
  {
    assert DealTickets(a'.deals) == DealTickets(a.deals) + [deal.ticket];
    IssuedNext(deal.ticket);
  }

  lemma BalanceDealSums(a: Account, a': Account, deal: Deal)
    requires VolumesMatch(a) && DealsSound(a) && a'.login == a.login
    requires a'.positions == a.positions && a'.history == a.history && a'.deals == a.deals + [deal]
    requires deal.volume == 0 && deal.order == 0 && deal.action == BALANCE_ACTION && deal.login == a.login
    requires deal.storage == 0 && deal.commission == 0
    ensures VolumesMatch(a') && CostsKept(a, a') && DealsSound(a')
  {
    forall pid: int
      ensures NetVolume(a'.deals, pid) == OpenVolume(a', pid)
      ensures StorageOf(a', pid) == StorageOf(a, pid) && CommissionOf(a', pid) == CommissionOf(a, pid)
    {
      SumsAppend(a.deals, deal, pid);
      assert NetVolume(a.deals, pid) == OpenVolume(a, pid);
    }
  }

  lemma CreditedAdvances(d: Desk, amount: real, comment: string, now: int)
    requires Sound(d)
    ensures Sound(Credited(d, amount, comment, now)) && Advances(d, Credited(d, amount, comment, now))
  {
    var d' := Credited(d, amount, comment, now);
    var deal := d'.acct.deals[|d.acct.deals|];
    BalanceDealTickets(d.acct, d'.acct, deal);
    DistinctKept(d.acct, d.next, d'.acct, d'.next);
    BalanceDealSums(d.acct, d'.acct, deal);
    KeptPositionsAndOrders(d.acct, d'.acct);
  }

  lemma KeptPositionsAndOrders(a: Account, a': Account)
    requires PositionsSound(a) && OrdersSound(a)
    requires a'.positions == a.positions && a'.orders == a.orders && a'.history == a.history && a'.login == a.login
    ensures PositionsSound(a') && OrdersSound(a') && FatesKept(a, a')
  {
  }

  lemma LeveragedProper(d: Desk, leverage: int)
    requires Sound(d)
    ensures Proper(d, Leveraged(d, leverage))
  {
    var d' := Leveraged(d, leverage);
    ProperRefl(d);
    KeptPositionsAndOrders(d.acct, d'.acct);
    assert Tickets(d'.acct) == Tickets(d.acct);
    forall pid: int
      ensures NetVolume(d'.acct.deals, pid) == OpenVolume(d'.acct, pid)
    {
      assert NetVolume(d.acct.deals, pid) == OpenVolume(d.acct, pid);
    }
  }

  /** A booked amount and the balance agree about a deposit or withdrawal
      exactly when it is not an exact half cent that the balance turns the
      other way: then, and only then, the account's base is kept. */
  lemma CreditedBase(d: Desk, amount: real, comment: string, now: int)
    ensures Base(Credited(d, amount, comment, now).acct) == Base(d.acct)
            <==> !IsHalf(amount) || (d.acct.balance as real + amount > 0.0 <==> amount > 0.0)
  {
    var d' := Credited(d, amount, comment, now);
    SumByAppend(d.acct.deals, d'.acct.deals[|d.acct.deals|], CashOf());
    RoundShift(d.acct.balance, amount);
  }

  /** With a dollar on the account, withdrawing half a cent leaves the balance as
      it was but books a deal of one cent. */
  lemma HalfCentDrift(a: Account)
    requires a.balance == 100
    ensures Base(Credited(Desk(a, 1), -0.5, "", 0).acct) != Base(a)
  {
  }

  predicate WholeCents(amount: real) {
    amount == amount.Floor as real
  }

  ghost predicate Resets(e: Event, login: int) {
    e.Reset? && e.login == login
  }

  lemma StepDeskPersists(d: Desk, e: Event)
    requires Sound(d) && OnDesk(e) && !e.Reset?
    ensures var d' := StepDesk(d, e);
            && Sound(d') && Persists(d.acct, d.next, d'.acct, d'.next)
            && ((e.Move? ==> WholeCents(e.amount)) ==> Base(d'.acct) == Base(d.acct))
  {
    hide Sound, Advances, Persists, Handle, Credited, Leveraged, Base;
    match e
    case Submit(m, _, r) =>
      HandleProper(m, d, r);
      ProperParts(d, Handle(m, d, r).desk);
    case Move(m, _, amount, comment) =>
      ProperRefl(d);
      ProperParts(d, d);
      CreditedAdvances(d, amount, comment, m.now);
      AdvancesPersists(d, Credited(d, amount, comment, m.now));
      CreditedBase(d, amount, comment, m.now);
    case SetLeverage(_, leverage) =>
      LeveragedProper(d, leverage);
      ProperParts(d, Leveraged(d, leverage));
  }

  lemma ProperParts(d: Desk, d': Desk)
    requires Proper(d, d')
    ensures Sound(d') && Base(d'.acct) == Base(d.acct) && Persists(d.acct, d.next, d'.acct, d'.next)
  {
    AdvancesPersists(d, d');
  }

  /** Every ticket of the desk is one the account had or a fresh one. */
  ghost predicate FreshOrOld(a: Account, d: Desk, next: int) {
    forall t: int :: t in Tickets(d.acct) ==> t in Tickets(a) || next <= t
  }

  /** Writing back a desk whose tickets are its old ones or fresh keeps the
      world consistent. */
  lemma PutConsistent(w: World, login: int, d: Desk)
    requires Consistent(w) && login in w.accounts
    requires Sound(d) && d.next >= w.next && d.acct.login == login
    requires FreshOrOld(w.accounts[login], d, w.next)
    ensures Consistent(Put(w, login, d))
  {
    PutSound(w, login, d);
    forall k | k in w.accounts && k != login
      ensures Apart(d.acct, w.accounts[k]) && Apart(w.accounts[k], d.acct)
    {
      PutApart(w, login, d, k);
    }
  }

  lemma PutSound(w: World, login: int, d: Desk)
    requires w.next > 0 && AccountsSound(w) && login in w.accounts
    requires Sound(d) && d.next >= w.next && d.acct.login == login
    ensures AccountsSound(Put(w, login, d))
  {
  }

  lemma PutApart(w: World, login: int, d: Desk, k: int)
    requires AccountsSound(w) && AccountsApart(w) && login in w.accounts && k in w.accounts && k != login
    requires FreshOrOld(w.accounts[login], d, w.next)
    ensures Apart(d.acct, w.accounts[k]) && Apart(w.accounts[k], d.acct)
  {
    assert Apart(w.accounts[login], w.accounts[k]);
    assert Distinct(DeskOf(w, k).acct, w.next);
  }

  lemma TouchedConsistent(w: World, login: int)
    requires Consistent(w)
    ensures Consistent(Touched(w, login))
  {
    var w' := Touched(w, login);
    if w' != w {
      var a := NewAccount(login, w.users[login]);
      BlankSound(a, w.next);
      forall l | l in w'.accounts
        ensures w'.accounts[l].login == l && Sound(DeskOf(w', l))
      {
        if l != login { assert DeskOf(w', l) == DeskOf(w, l); }
      }
      forall l, k | l in w'.accounts && k in w'.accounts && l != k
        ensures Apart(w'.accounts[l], w'.accounts[k])
      {
        if l != login && k != login { assert Apart(w.accounts[l], w.accounts[k]); }
      }
    }
  }

  /** What a run means for one account that nobody resets. */
  ghost predicate Continues(w: World, w': World, login: int, clean: bool) {
    && w.next <= w'.next
    && (login in w.accounts ==>
          && login in w'.accounts
          && Persists(w.accounts[login], w.next, w'.accounts[login], w'.next)
          && (clean ==> Base(w'.accounts[login]) == Base(w.accounts[login])))
  }

  lemma ContinuesRefl(w: World, login: int)
    requires Consistent(w)
    ensures Continues(w, w, login, true)
  {
  }

  lemma ContinuesTrans(w: World, v: World, u: World, login: int, clean: bool)
    requires Consistent(v) && Consistent(u) && Continues(w, v, login, clean) && Continues(v, u, login, clean)
    ensures Continues(w, u, login, clean)
  {
    hide Sound, Persists, Base;
    if login in w.accounts {
      assert Sound(DeskOf(v, login)) && Sound(DeskOf(u, login));
      PersistsTrans(w.accounts[login], w.next, v.accounts[login], v.next, u.accounts[login], u.next);
    }
  }

  lemma PutContinues(w: World, at: int, d: Desk, login: int, clean: bool)
    requires Consistent(w) && at in w.accounts && w.next <= d.next
    requires at == login ==> Persists(w.accounts[at], w.next, d.acct, d.next)
    requires at == login && clean ==> Base(d.acct) == Base(w.accounts[at])
    ensures Continues(w, Put(w, at, d), login, clean)
  {
  }

  lemma TouchedContinues(w: World, at: int, login: int)
    requires Consistent(w)
    ensures Continues(w, Touched(w, at), login, true)
  {
  }

  lemma {:induction false} EvaluateFromSafe(w: World, m: Feed, walk: seq<int>, login: int)
    requires Consistent(w)
    ensures Consistent(EvaluateFrom(w, m, walk)) && Continues(w, EvaluateFrom(w, m, walk), login, true)
    decreases |walk|
  {
    hide Consistent, Continues, Sound, Persists, Base, Evaluate, Put;
    ContinuesRefl(w, login);
    if |walk| > 0 {
      if walk[0] in w.accounts {
        var w1 := Put(w, walk[0], Evaluate(m, DeskOf(w, walk[0])));
        EvaluateOneSafe(w, m, walk[0], login);
        EvaluateFromSafe(w1, m, walk[1..], login);
        ContinuesTrans(w, w1, EvaluateFrom(w1, m, walk[1..]), login, true);
      } else {
        EvaluateFromSafe(w, m, walk[1..], login);
      }
    }
  }

  lemma EvaluateOneSafe(w: World, m: Feed, at: int, login: int)
    requires Consistent(w) && at in w.accounts
    ensures var w1 := Put(w, at, Evaluate(m, DeskOf(w, at)));
            Consistent(w1) && Continues(w, w1, login, true)
  {
    hide Evaluate, Put, Base, Continues, Sound;
    var d := DeskOf(w, at);
    assert Sound(d);
    EvaluateProper(m, d);
    ProperParts(d, Evaluate(m, d));
    PutConsistent(w, at, Evaluate(m, d));
    PutContinues(w, at, Evaluate(m, d), login, true);
  }

  /** Whole-cent movements are the ones the client area sends. */
  predicate Clean(e: Event, login: int) {
    e.Move? && e.login == login ==> WholeCents(e.amount)
  }

  lemma StepSafe(w: World, e: Event, login: int)
    requires Consistent(w)
    ensures Consistent(Step(w, e))
    ensures !Resets(e, login) ==> Continues(w, Step(w, e), login, Clean(e, login))
  {
    hide Consistent, Continues, Sound, Persists, Base, Put, Touched, EvaluateFrom, Known, StepDesk;
    if e.EvaluatePass? {
      EvaluateFromSafe(w, e.feed, e.walk, login);
      ContinuesWeaken(w, Step(w, e), login, Clean(e, login));
    } else if e.Enroll? {
      EnrollSafe(w, e, login);
    } else if Known(w, e.login) {
      StepKnownSafe(w, e, login);
    } else {
      ContinuesRefl(w, login);
      ContinuesWeaken(w, w, login, Clean(e, login));
    }
  }

  lemma EnrollSafe(w: World, e: Event, login: int)
    requires Consistent(w) && e.Enroll?
    ensures Consistent(Step(w, e)) && Continues(w, Step(w, e), login, true)
  {
    ContinuesRefl(w, login);
    var v := Step(w, e);
    hide Sound, Persists, Base, Apart;
    assert forall l | l in v.accounts :: DeskOf(v, l) == DeskOf(w, l);
  }

  lemma ContinuesWeaken(w: World, v: World, login: int, clean: bool)
    requires Continues(w, v, login, true)
    ensures Continues(w, v, login, clean)
  {
  }

  lemma StepKnownSafe(w: World, e: Event, login: int)
    requires Consistent(w) && OnDesk(e) && Known(w, e.login)
    ensures var w1 := Touched(w, e.login);
            var w2 := Put(w1, e.login, StepDesk(DeskOf(w1, e.login), e));
            Consistent(w2) && (!Resets(e, login) ==> Continues(w, w2, login, Clean(e, login)))
  {
    hide Sound, Persists, Base, Put, Touched, Continues, StepDesk;
    var w1 := Touched(w, e.login);
    TouchedConsistent(w, e.login);
    TouchedContinues(w, e.login, login);
    ContinuesWeaken(w, w1, login, Clean(e, login));
    var d := DeskOf(w1, e.login);
    assert Sound(d);
    var d' := StepDesk(d, e);
    StepDeskSafe(d, e);
    PutConsistent(w1, e.login, d');
    if !Resets(e, login) {
      PutContinues(w1, e.login, d', login, Clean(e, login));
      ContinuesTrans(w, w1, Put(w1, e.login, d'), login, Clean(e, login));
    }
  }

  lemma StepDeskSafe(d: Desk, e: Event)
    requires Sound(d) && OnDesk(e)
    ensures var d' := StepDesk(d, e);
            && Sound(d') && d'.next >= d.next && d'.acct.login == d.acct.login
            && FreshOrOld(d.acct, d', d.next)
            && (!e.Reset? ==> Persists(d.acct, d.next, d'.acct, d'.next))
            && (!e.Reset? && (e.Move? ==> WholeCents(e.amount)) ==> Base(d'.acct) == Base(d.acct))
  {
    if e.Reset? {
      BlankSound(Emptied(d, e.balance).acct, d.next);
    } else {
      hide Sound, Base, Handle, Credited, Leveraged, StepDesk;
      StepDeskPersists(d, e);
    }
  }

  // ---------- what the other events do ----------

  /** Nobody else's account or balance. */
  ghost predicate Elsewhere(w: World, w': World, login: int) {
    && (forall l | l != login :: (l in w'.accounts <==> l in w.accounts) && (l in w'.users <==> l in w.users))
    && (forall l | l != login && l in w.accounts :: w'.accounts[l] == w.accounts[l])
    && (forall l | l != login && l in w.users :: w'.users[l] == w.users[l])
  }

  /** A login that the user store knows is opened on first touch with that user's
      balance and currency, dollars if it names none, and the standard leverage. */
  lemma FirstTouchOpens(w: World, login: int)
    requires login in w.users && login !in w.accounts
    ensures var w' := Touched(w, login);
            && login in w'.accounts && Elsewhere(w, w', login) && w'.users == w.users && w'.next == w.next
            && var a := w'.accounts[login];
               && a.login == login && a.balance == w.users[login].balance && a.credit == 0 && a.leverage == 100
               && (w.users[login].currency != "" ==> a.currency == w.users[login].currency)
               && (w.users[login].currency == "" ==> a.currency == "USD")
               && a.positions == map[] && a.orders == map[] && a.history == [] && a.deals == []
  {
  }

  /** A reset leaves nothing of an account but its login, currency and credit, and
      sets its balance, in the user store too. */
  lemma ResetEmpties(w: World, login: int, balance: int)
    requires Consistent(w) && Known(w, login)
    ensures var w' := Step(w, Reset(login, balance));
            && login in w'.accounts && Elsewhere(w, w', login) && w'.next == w.next
            && (login in w'.users ==> w'.users[login].balance == balance)
            && var a := Touched(w, login).accounts[login];
               w'.accounts[login] == Account(login, balance, a.credit, 100, a.currency, map[], map[], [], [])
  {
    hide Step, Consistent, Touched, Put;
    StepUnfold(w, Reset(login, balance));
    TouchedConsistent(w, login);
    var w1 := Touched(w, login);
    MirroredAt(w1, login);
    TouchedElsewhere(w, login);
    PutSets(w1, login, StepDesk(DeskOf(w1, login), Reset(login, balance)));
  }

  lemma TouchedElsewhere(w: World, login: int)
    ensures Elsewhere(w, Touched(w, login), login) && Touched(w, login).users == w.users && Touched(w, login).next == w.next
  {
  }

  lemma PutSets(w: World, login: int, d: Desk)
    requires login in w.accounts
    ensures var w' := Put(w, login, d);
            && login in w'.accounts && w'.accounts[login] == d.acct && w'.next == d.next && Elsewhere(w, w', login)
            && (login in w'.users <==> login in w.users)
            && (login in w.users ==>
                  w'.users[login].balance == if d.acct.balance != w.accounts[login].balance then d.acct.balance else w.users[login].balance)
  {
  }

  lemma MirroredAt(w: World, login: int)
    requires Consistent(w) && login in w.accounts
    ensures w.accounts[login].login == login
    ensures login in w.users ==> w.users[login].balance == w.accounts[login].balance
  {
  }

  /** A positive leverage is set, any other is ignored; nothing else changes. */
  lemma LeverageSet(w: World, login: int, leverage: int)
    requires Known(w, login)
    ensures var w' := Step(w, SetLeverage(login, leverage));
            && login in w'.accounts && Elsewhere(w, w', login) && w'.users == w.users && w'.next == w.next
            && var a := Touched(w, login).accounts[login];
               w'.accounts[login] == a.(leverage := if leverage > 0 then leverage else a.leverage)
  {
    StepUnfold(w, SetLeverage(login, leverage));
    hide Step;
  }

  /** Enrolling makes an unknown login known, with its user's record, and does
      nothing to a known one. */
  lemma EnrollKnows(w: World, login: int, user: User)
    ensures var w' := Step(w, Enroll(login, user));
            && w'.accounts == w.accounts && w'.next == w.next && Elsewhere(w, w', login)
            && (Known(w, login) ==> w' == w)
            && (!Known(w, login) ==> login in w'.users && w'.users[login] == user)
  {
  }

  // ---------- runs ----------

  /** Every reachable world is consistent: each account sound, all tickets
      distinct and below the counter, the user store mirroring every balance. */
  lemma {:induction false} RunConsistent(w: World, events: seq<Event>)
    requires Consistent(w)
    ensures Consistent(Run(w, events)) && w.next <= Run(w, events).next
    decreases |events|
  {
    hide Consistent, Step;
    if |events| > 0 {
      StepSafe(w, events[0], 0);
      NextGrows(w, events[0]);
      RunConsistent(Step(w, events[0]), events[1..]);
    }
  }

  lemma NextGrows(w: World, e: Event)
    requires Consistent(w)
    ensures w.next <= Step(w, e).next
  {
    hide Consistent, Step;
    var other := if e.Reset? then e.login + 1 else 0;
    StepSafe(w, e, other);
    assert !Resets(e, other);
  }

  /** Over any run that does not reset an account, its history and deals only
      grow, each working order meets its one fate, costs are conserved, and,
      with whole-cent movements, its balance moves by exactly what its deals
      book. */
  lemma {:induction false} RunContinues(w: World, events: seq<Event>, login: int)
    requires Consistent(w) && forall i | 0 <= i < |events| :: !Resets(events[i], login)
    ensures Continues(w, Run(w, events), login, forall i | 0 <= i < |events| :: Clean(events[i], login))
    decreases |events|
  {
    hide Consistent, Continues, Step, Clean, Resets;
    ContinuesRefl(w, login);
    var clean := forall i | 0 <= i < |events| :: Clean(events[i], login);
    if |events| == 0 {
      ContinuesWeaken(w, w, login, clean);
    } else {
      var w1 := Step(w, events[0]);
      StepSafe(w, events[0], login);
      RunContinues(w1, events[1..], login);
      RunConsistent(w1, events[1..]);
      assert clean ==> Clean(events[0], login) && forall i | 0 <= i < |events[1..]| :: Clean(events[1..][i], login);
      ContinuesStrength(w, w1, login, Clean(events[0], login), clean);
      ContinuesStrength(w1, Run(w1, events[1..]), login, forall i | 0 <= i < |events[1..]| :: Clean(events[1..][i], login), clean);
      ContinuesTrans(w, w1, Run(w, events), login, clean);
    }
  }

  lemma ContinuesStrength(w: World, v: World, login: int, strong: bool, weak: bool)
    requires Continues(w, v, login, strong) && (weak ==> strong)
    ensures Continues(w, v, login, weak)
  {
  }

  /** The money law from first touch: after any run of events without a reset
      and with whole-cent movements, an account the run started holds its
      opening balance plus the sum of profit, storage and commission over all
      its deals, and the user store says the same. */
  lemma MoneyConserved(w: World, events: seq<Event>, login: int)
    requires Consistent(w) && login in w.accounts && w.accounts[login].deals == []
    requires forall i | 0 <= i < |events| :: !Resets(events[i], login) && Clean(events[i], login)
    ensures var w' := Run(w, events);
            && login in w'.accounts
            && w'.accounts[login].balance == w.accounts[login].balance + SumBy(w'.accounts[login].deals, CashOf())
            && (login in w'.users ==> w'.users[login].balance == w'.accounts[login].balance)
  {
    hide Step;
    RunContinues(w, events, login);
    RunConsistent(w, events);
  }

  lemma {:induction false} EvaluateUntouched(w: World, m: Feed, walk: seq<int>, login: int)
    requires login !in w.accounts
    ensures var v := EvaluateFrom(w, m, walk);
            login !in v.accounts && (login in v.users <==> login in w.users)
            && (login in w.users ==> v.users[login] == w.users[login])
    decreases |walk|
  {
    hide Evaluate;
    if |walk| > 0 {
      var v := if walk[0] in w.accounts then Put(w, walk[0], Evaluate(m, DeskOf(w, walk[0]))) else w;
      EvaluateUntouched(v, m, walk[1..], login);
    }
  }

  /** The balance that the user store first holds for a login over a run: from
      the start, or from when the login is enrolled. */
  ghost function FirstBalance(w: World, events: seq<Event>, login: int): Option<int>
    decreases |events|
  {
    if login in w.users then Some(w.users[login].balance)
    else if |events| == 0 then None else FirstBalance(Step(w, events[0]), events[1..], login)
  }

  /** A step that does not reach a login leaves it untouched, and its user's
      balance too. */
  lemma StepElsewhere(w: World, e: Event, login: int)
    requires login !in w.accounts && !(OnDesk(e) && Known(w, e.login) && e.login == login)
    ensures var w' := Step(w, e);
            login !in w'.accounts && (login in w.users ==> login in w'.users && w'.users[login] == w.users[login])
  {
    hide StepDesk;
    if e.EvaluatePass? { EvaluateUntouched(w, e.feed, e.walk, login); }
  }

  /** A step either leaves an account that the engine has not touched alone, its
      user's balance included, or opens it with that balance as its base. */
  lemma StepFirstTouch(w: World, e: Event, login: int)
    requires Consistent(w) && login !in w.accounts && !Resets(e, login) && Clean(e, login)
    ensures var w' := Step(w, e);
            if login in w'.accounts then login in w.users && Base(w'.accounts[login]) == w.users[login].balance
            else login in w.users ==> login in w'.users && w'.users[login] == w.users[login]
  {
    if OnDesk(e) && Known(w, e.login) && e.login == login {
      StepUnfold(w, e);
      TouchedConsistent(w, login);
      var d := DeskOf(Touched(w, login), login);
      hide Sound, StepDesk, Step;
      StepDeskPersists(d, e);
    } else {
      hide Step;
      StepElsewhere(w, e, login);
    }
  }

  /** The same for an account that the engine does not know yet: whether its
      user is there or is enrolled on the way, from whatever step first touches
      it, it starts from the balance its user was given. */
  lemma {:induction false} MoneyFromFirstTouch(w: World, events: seq<Event>, login: int)
    requires Consistent(w) && login !in w.accounts
    requires forall i | 0 <= i < |events| :: !Resets(events[i], login) && Clean(events[i], login)
    ensures var w', first := Run(w, events), FirstBalance(w, events, login);
            login in w'.accounts ==>
              first.Some? && w'.accounts[login].balance == first.value + SumBy(w'.accounts[login].deals, CashOf())
    decreases |events|
  {
    hide Step, Consistent, Resets, Clean;
    if |events| > 0 {
      var w1 := Step(w, events[0]);
      StepFirstTouch(w, events[0], login);
      StepSafe(w, events[0], login);
      assert forall i | 0 <= i < |events[1..]| :: events[1..][i] == events[i + 1];
      if login in w1.accounts {
        RunContinues(w1, events[1..], login);
      } else {
        MoneyFromFirstTouch(w1, events[1..], login);
      }
    }
  }

  /** Tickets are never reissued: whatever happens in between, resets included,
      a ticket an account holds was either held by the same account before or
      is fresh from the counter. */
  lemma {:induction false} NeverReissued(w: World, events: seq<Event>, login: int, t: int)
    requires Consistent(w)
    requires login in Run(w, events).accounts && t in Tickets(Run(w, events).accounts[login])
    ensures (login in w.accounts && t in Tickets(w.accounts[login])) || w.next <= t
    decreases |events|
  {
    hide Consistent, Step;
    if |events| > 0 {
      var w1 := Step(w, events[0]);
      StepSafe(w, events[0], login);
      NextGrows(w, events[0]);
      NeverReissued(w1, events[1..], login, t);
      if login in w1.accounts && t in Tickets(w1.accounts[login]) {
        StepTickets(w, events[0], login, t);
      }
    }
  }

  lemma StepTickets(w: World, e: Event, login: int, t: int)
    requires Consistent(w) && login in Step(w, e).accounts && t in Tickets(Step(w, e).accounts[login])
    ensures (login in w.accounts && t in Tickets(w.accounts[login])) || w.next <= t
  {
    if Resets(e, login) {
      StepUnfold(w, e);
      hide Step, Consistent, Touched, Tickets;
      BlankTickets(w, e);
    } else if login in w.accounts {
      hide Step, Consistent;
      StepSafe(w, e, login);
    } else {
      hide Step, Consistent;
      StepTicketsOfNew(w, e, login, t);
    }
  }

  lemma BlankTickets(w: World, e: Event)
    requires Consistent(w) && e.Reset? && Known(w, e.login)
    ensures var w1 := Touched(w, e.login); Tickets(StepDesk(DeskOf(w1, e.login), e).acct) == multiset{}
  {
    hide Touched;
    BlankSound(StepDesk(DeskOf(Touched(w, e.login), e.login), e).acct, w.next);
  }

  lemma StepTicketsOfNew(w: World, e: Event, login: int, t: int)
    requires Consistent(w) && login !in w.accounts && login in Step(w, e).accounts && t in Tickets(Step(w, e).accounts[login])
    ensures w.next <= t
  {
    if OnDesk(e) && Known(w, e.login) && e.login == login {
      StepUnfold(w, e);
      var w1 := Touched(w, login);
      TouchedConsistent(w, login);
      hide StepDesk, Sound, Step;
      BlankSound(w1.accounts[login], w.next);
      StepDeskSafe(DeskOf(w1, login), e);
    } else {
      hide Step;
      StepElsewhere(w, e, login);
    }
  }

  lemma {:induction false} EvaluateKeys(w: World, m: Feed, walk: seq<int>)
    ensures EvaluateFrom(w, m, walk).accounts.Keys == w.accounts.Keys
    decreases |walk|
  {
    if |walk| > 0 {
      EvaluateKeys(if walk[0] in w.accounts then Put(w, walk[0], Evaluate(m, DeskOf(w, walk[0]))) else w, m, walk[1..]);
    }
  }

  /** Over any run without a reset, an order working at the start is either
      still working, Placed and not in history, or it has left the working set
      for exactly one history entry in a final state, with nothing left to fill
      exactly when it was filled. Its kind moved at most from stop-limit to
      limit. */
  lemma OrderLife(w: World, events: seq<Event>, login: int, t: int)
    requires Consistent(w) && login in w.accounts && t in w.accounts[login].orders
    requires forall i | 0 <= i < |events| :: !Resets(events[i], login)
    ensures var o, w' := w.accounts[login].orders[t], Run(w, events);
            && login in w'.accounts
            && var a' := w'.accounts[login];
               if t in a'.orders then
                 && SameOrder(o, a'.orders[t]) && a'.orders[t].state == Placed
                 && forall j | 0 <= j < |a'.history| :: a'.history[j].ticket != t
               else
                 exists i :: |w.accounts[login].history| <= i < |a'.history| && SameOrder(o, a'.history[i])
                   && a'.history[i].state != Placed
                   && (a'.history[i].volumeCurrent == 0 <==> a'.history[i].state == Filled)
                   && forall j | 0 <= j < |a'.history| && j != i :: a'.history[j].ticket != t
  {
    hide Step;
    RunContinues(w, events, login);
    RunConsistent(w, events);
    var a, w' := w.accounts[login], Run(w, events);
    var a' := w'.accounts[login];
    assert Sound(DeskOf(w, login)) && Sound(DeskOf(w', login));
    assert OrderSound(a, t) && Fate(a.orders[t], a', |a.history|);
    if t in a'.orders {
      assert OrderSound(a', t);
      forall j | 0 <= j < |a'.history|
        ensures a'.history[j].ticket != t
      {
        HistoricNotWorking(DeskOf(w', login), j);
      }
    } else {
      var i :| |a.history| <= i < |a'.history| && SameOrder(a.orders[t], a'.history[i]);
      HistoricNotWorking(DeskOf(w', login), i);
      assert FinalSound(a'.history[i], a'.login);
    }
  }

  /** A position that was open and is gone has booked exactly the storage and
      commission it carried, however many partial closes it took. */
  lemma CostsBooked(w: World, events: seq<Event>, login: int, pid: int)
    requires Consistent(w) && login in w.accounts && pid in w.accounts[login].positions
    requires forall i | 0 <= i < |events| :: !Resets(events[i], login)
    requires login in Run(w, events).accounts && pid !in Run(w, events).accounts[login].positions
    ensures var a, a' := w.accounts[login], Run(w, events).accounts[login];
            && SumBy(a'.deals, StorageInto(pid)) - SumBy(a.deals, StorageInto(pid)) == a.positions[pid].storage
            && SumBy(a'.deals, CommissionInto(pid)) - SumBy(a.deals, CommissionInto(pid)) == a.positions[pid].commission
            && NetVolume(a'.deals, pid) == 0
  {
    hide Step;
    RunContinues(w, events, login);
    RunConsistent(w, events);
    var a, a' := w.accounts[login], Run(w, events).accounts[login];
    assert StorageOf(a', pid) == StorageOf(a, pid) && CommissionOf(a', pid) == CommissionOf(a, pid);
    assert Sound(DeskOf(Run(w, events), login));
    assert NetVolume(a'.deals, pid) == OpenVolume(a', pid);
  }
}
