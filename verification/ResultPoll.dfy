/** Polling the dealer for the result of a submitted request: growing delays
    inside one waiting budget. Times are milliseconds. */
module ResultPoll {
  import opened Market

  const BACKOFF: seq<int> := [100, 150, 200, 300, 400, 500, 600]
  const DEFAULT_BUDGET := 3000

  /** What the n-th poll finds: a populated result, or not yet one. */
  type Dealer = nat -> Option<string>

  function Delay(attempt: nat, remaining: int): int {
    var d := BACKOFF[if attempt < |BACKOFF| then attempt else |BACKOFF| - 1];
    if d > remaining then remaining else d
  }

  /** How many polls fit when none finds a result: one more than the delays. */
  function Polls(attempt: nat, waited: int, budget: int): nat
    decreases budget - waited
  {
    if waited >= budget then 1 else 1 + Polls(attempt + 1, waited + Delay(attempt, budget - waited), budget)
  }

  /** The first populated result wins. Giving up means that no poll found one
      and that either the caller left or the budget was spent to the last
      millisecond, with one more poll after the last delay. */
  method Poll(dealer: Dealer, budget: int, stays: nat -> bool) returns (result: Option<string>, polls: nat, waited: int)
    requires budget >= 0
    ensures polls > 0 && 0 <= waited <= budget && polls <= Polls(0, 0, budget)
    ensures forall n | 0 <= n < polls - 1 :: dealer(n) == None && stays(n)
    ensures result == dealer(polls - 1)
    ensures result == None ==> !stays(polls - 1) || (waited == budget && polls == Polls(0, 0, budget))
  {
    polls, waited := 0, 0;
    while true
      invariant 0 <= waited <= budget
      invariant polls + Polls(polls, waited, budget) == Polls(0, 0, budget)
      invariant forall n | 0 <= n < polls :: dealer(n) == None && stays(n)
      decreases budget - waited, if waited < budget then 1 else 0
    {
      result := dealer(polls);
      polls := polls + 1;
      if result.Some? || waited >= budget { return; }
      var delay := Delay(polls - 1, budget - waited);
      if !stays(polls - 1) { return; }
      waited := waited + delay;
    }
  }

  /** With the default budget that is ten polls. */
  lemma DefaultPolls()
    ensures Polls(0, 0, DEFAULT_BUDGET) == 10
  {
    assert Polls(8, 2850, 3000) == 2;
    assert Polls(4, 750, 3000) == 6;
  }
}
