/** Moving money between the accounts of one client: deposits, withdrawals and
    the two legs of a transfer, with whatever else the broker does in between. */
module Wallet {
  import opened Rounding
  import opened Market
  import opened Book
  import opened Engine
  import opened EngineProofs
  import opened Runs
  import Broker

  const MAX_CENTS := 100000000

  datatype Kind = Real | Demo

  datatype Outcome = Done | BadAmount | NotOwned | SameAccount | MixedKinds | NoFreeMargin | ServerRefused

  /** A login's balance as the client area reports it; zero when unknown. */
  function BalanceAt(w: World, login: int): int {
    if login in w.accounts then w.accounts[login].balance
    else if login in w.users then w.users[login].balance
    else 0
  }

  ghost function Leg(w: World, m: Feed, login: int, cents: int, comment: string): World {
    Step(w, Move(m, login, cents as real, comment))
  }

  ghost predicate LegDone(w: World, m: Feed, login: int, cents: int) {
    Known(w, login) && Affordable(m, Touched(w, login).accounts[login], cents as real)
  }

  /** A leg moves exactly its amount on exactly its account, or nothing. */
  lemma LegMoves(w: World, m: Feed, login: int, cents: int, comment: string)
    requires Consistent(w)
    ensures var w' := Leg(w, m, login, cents, comment);
            && BalanceAt(w', login) == BalanceAt(w, login) + (if LegDone(w, m, login, cents) then cents else 0)
            && forall l | l != login :: BalanceAt(w', l) == BalanceAt(w, l)
  {
    hide Consistent;
    if Known(w, login) {
      var w1 := Touched(w, login);
      RoundWhole(w1.accounts[login].balance + cents);
      assert (w1.accounts[login].balance + cents) as real == w1.accounts[login].balance as real + cents as real;
    }
  }

  /** A known login stays known. */
  lemma StepKnown(w: World, e: Event, login: int)
    requires Known(w, login)
    ensures Known(Step(w, e), login)
  {
    if e.EvaluatePass? { EvaluateKeys(w, e.feed, e.walk); EvaluateUsers(w, e.feed, e.walk); }
  }

  lemma {:induction false} EvaluateUsers(w: World, m: Feed, walk: seq<int>)
    ensures EvaluateFrom(w, m, walk).users.Keys == w.users.Keys
    decreases |walk|
  {
    hide Evaluate;
    if |walk| > 0 {
      EvaluateUsers(if walk[0] in w.accounts then Put(w, walk[0], Evaluate(m, DeskOf(w, walk[0]))) else w, m, walk[1..]);
    }
  }

  lemma {:induction false} RunKnown(w: World, events: seq<Event>, login: int)
    requires Known(w, login)
    ensures Known(Run(w, events), login)
    decreases |events|
  {
    hide Step;
    if |events| > 0 {
      StepKnown(w, events[0], login);
      RunKnown(Step(w, events[0]), events[1..], login);
    }
  }

  /** A transfer whose legs are separated by any other activity: what the source
      loses the target gains; or, when the target cannot be credited, the
      reversal gives back exactly what was taken and always succeeds; or the
      first leg was refused and nothing moved. No leg touches a third account. */
  lemma TransferConserves(w: World, m1: Feed, between: seq<Event>, m2: Feed, meanwhile: seq<Event>, m3: Feed,
                          from: int, to: int, cents: int, comment: string)
    requires Consistent(w) && cents > 0 && from != to
    ensures var w1 := Leg(w, m1, from, -cents, comment);
            var v1 := Run(w1, between);
            var w2 := Leg(v1, m2, to, cents, comment);
            var v2 := Run(w2, meanwhile);
            var w3 := Leg(v2, m3, from, cents, comment);
            && (forall l | l != from :: BalanceAt(w1, l) == BalanceAt(w, l))
            && (forall l | l != to :: BalanceAt(w2, l) == BalanceAt(v1, l))
            && if !LegDone(w, m1, from, -cents) then BalanceAt(w1, from) == BalanceAt(w, from)
               else if LegDone(v1, m2, to, cents) then
                 (BalanceAt(w1, from) - BalanceAt(w, from)) + (BalanceAt(w2, to) - BalanceAt(v1, to)) == 0
               else
                 && BalanceAt(w2, to) == BalanceAt(v1, to) && LegDone(v2, m3, from, cents)
                 && (BalanceAt(w1, from) - BalanceAt(w, from)) + (BalanceAt(w3, from) - BalanceAt(v2, from)) == 0
                 && forall l | l != from :: BalanceAt(w3, l) == BalanceAt(v2, l)
  {
    hide Consistent, Step, Affordable;
    var w1 := Leg(w, m1, from, -cents, comment);
    var v1 := Run(w1, between);
    var w2 := Leg(v1, m2, to, cents, comment);
    var v2 := Run(w2, meanwhile);
    LegMoves(w, m1, from, -cents, comment);
    StepSafe(w, Move(m1, from, -cents as real, comment), 0);
    RunConsistent(w1, between);
    LegMoves(v1, m2, to, cents, comment);
    StepSafe(v1, Move(m2, to, cents as real, comment), 0);
    RunConsistent(w2, meanwhile);
    LegMoves(v2, m3, from, cents, comment);
    if Known(w, from) {
      StepKnown(w, Move(m1, from, -cents as real, comment), from);
      RunKnown(w1, between, from);
      StepKnown(v1, Move(m2, to, cents as real, comment), from);
      RunKnown(w2, meanwhile, from);
      GainAffordable(m3, Touched(v2, from).accounts[from], cents);
    }
  }

  lemma GainAffordable(m: Feed, a: Account, cents: int)
    requires cents > 0
    ensures Affordable(m, a, cents as real)
  {
  }

  /** Moving money makes no login known. */
  lemma MoveKnows(w: World, m: Feed, login: int, amount: real, comment: string, l: int)
    ensures Known(Step(w, Move(m, login, amount, comment)), l) <==> Known(w, l)
  {
    hide StepDesk;
  }

  /** Moving money makes no login known and forgets none. */
  ghost predicate SameLogins(w: World, w': World) {
    forall l :: Known(w', l) <==> Known(w, l)
  }

  lemma LegLogins(w: World, m: Feed, login: int, cents: int, comment: string)
    ensures SameLogins(w, Leg(w, m, login, cents, comment))
  {
    hide Known, Step;
    forall l
      ensures Known(Leg(w, m, login, cents, comment), l) <==> Known(w, l)
    {
      MoveKnows(w, m, login, cents as real, comment, l);
    }
  }

  /** One leg on the broker. */
  method MoveCents(b: Broker.DemoBroker, m: Feed, login: int, cents: int, comment: string) returns (moved: bool)
    requires b.Valid()
    modifies b, b.Objects()
    ensures b.Valid() && fresh(b.Objects() - old(b.Objects())) && SameLogins(old(b.World()), b.World())
    ensures moved <==> LegDone(old(b.World()), m, login, cents)
    ensures BalanceAt(b.World(), login) == old(BalanceAt(b.World(), login)) + if moved then cents else 0
    ensures forall l | l != login :: BalanceAt(b.World(), l) == old(BalanceAt(b.World(), l))
  {
    hide Runs.Consistent, Affordable, Step, Known, BalanceAt, Touched, SameLogins;
    LegMoves(b.World(), m, login, cents, comment);
    LegLogins(b.World(), m, login, cents, comment);
    moved := b.MoveMoney(m, login, cents as real, comment);
  }

  /** A transfer request as the client area handles it. */
  method Transfer(b: Broker.DemoBroker, m: Feed, own: map<int, Kind>, from: int, to: int, dollars: real)
    returns (outcome: Outcome)
    requires b.Valid()
    modifies b, b.Objects()
    ensures b.Valid() && fresh(b.Objects() - old(b.Objects()))
    ensures BalanceAt(b.World(), from) + BalanceAt(b.World(), to) == old(BalanceAt(b.World(), from) + BalanceAt(b.World(), to))
    ensures forall l | l != from && l != to :: BalanceAt(b.World(), l) == old(BalanceAt(b.World(), l))
    ensures outcome == Done
            <==> && from in own && to in own && from != to && own[from] == own[to]
                 && 0 < Round(dollars * 100.0) <= MAX_CENTS
                 && LegDone(old(b.World()), m, from, -Round(dollars * 100.0)) && Known(old(b.World()), to)
    ensures outcome == NoFreeMargin ==>
              && Known(old(b.World()), from)
              && !Affordable(m, Touched(old(b.World()), from).accounts[from], -Round(dollars * 100.0) as real)
    ensures BalanceAt(b.World(), to)
            == old(BalanceAt(b.World(), to)) + if outcome == Done then Round(dollars * 100.0) else 0
  {
    hide Runs.Consistent, Affordable, Step, Round, BalanceAt, Touched;
    var cents := Round(dollars * 100.0);
    if cents <= 0 || cents > MAX_CENTS { return BadAmount; }
    if from !in own || to !in own { return NotOwned; }
    if from == to { return SameAccount; }
    if own[from] != own[to] { return MixedKinds; }
    var held := from in b.accounts || from in b.users;
    var taken := MoveCents(b, m, from, -cents, "Transfer");
    if !held { return ServerRefused; }
    if !taken { return NoFreeMargin; }
    ghost var w1 := b.World();
    var given := MoveCents(b, m, to, cents, "Transfer");
    if Known(w1, to) { GainAffordable(m, Touched(w1, to).accounts[to], cents); }
    if !given {
      GainAffordable(m, Touched(b.World(), from).accounts[from], cents);
      var returned := MoveCents(b, m, from, cents, "Transfer reversal");
      return ServerRefused;
    }
    outcome := Done;
  }
}
