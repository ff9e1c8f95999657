/** Idempotent trade submission: any number of callers, in any interleaving,
    run load, claim, submit and store over one expiring store that may fail. */
module Submission {
  import opened Market
  import opened Idempotency

  /** What became of a request. Fresh is the dealer's own answer. */
  datatype Outcome =
    | Fresh(payload: Payload)
    | Replayed(payload: Payload)
    | NotSubmitted
    | StillUnknown

  datatype Phase =
    | Loading
    | Claiming
    | Submitting
    | Storing(answer: Payload)
    | Awaiting(left: nat)
    | Finished(outcome: Outcome)

  /** claimedAt is when the caller was granted the key; sends counts its dealer
      submissions. */
  datatype Caller = Caller(key: Key, phase: Phase, claimedAt: Option<int>, sends: nat)

  datatype System = System(ttl: int, entries: Entries, callers: seq<Caller>, clock: int)

  /** Unreached: the store did not act. Unheard: it acted, and the caller was
      told it failed. Gone: the caller's context ended. */
  datatype Fault = Fine | Unreached | Unheard | Gone

  /** One step of one caller; the dealer's answer comes from outside. */
  datatype Event = Event(who: nat, now: int, fault: Fault, answer: Payload)

  const ATTEMPTS: nat := 10

  function Apply(m: Entries, c: Call, e: Event): Entries {
    if e.fault == Unreached then m else Update(m, c, e.now)
  }

  function CallerStep(s: System, c: Caller, e: Event): (Caller, Entries) {
    var m := s.entries;
    match c.phase
    case Loading =>
      (match Answer(m, Load(c.key), e.now)
       case Found(p) => if e.fault == Fine then (c.(phase := Finished(Replayed(p))), m) else (c.(phase := Claiming), m)
       case _ => (c.(phase := Claiming), m))
    case Claiming =>
      var claim := Claim(c.key, s.ttl);
      if e.fault != Fine then (c.(phase := Finished(NotSubmitted)), Apply(m, claim, e))
      else if Answer(m, claim, e.now) == Granted then (c.(phase := Submitting, claimedAt := Some(e.now)), Apply(m, claim, e))
      else (c.(phase := Awaiting(ATTEMPTS)), m)
    case Submitting => (c.(phase := Storing(e.answer), sends := c.sends + 1), m)
    case Storing(p) => (c.(phase := Finished(Fresh(p))), Apply(m, Store(c.key, p, s.ttl), e))
    case Awaiting(left) =>
      if left == 0 || e.fault == Gone then (c.(phase := Finished(StillUnknown)), m)
      else
        (match Answer(m, Load(c.key), e.now)
         case Found(p) => if e.fault == Fine then (c.(phase := Finished(Replayed(p))), m) else (c.(phase := Awaiting(left - 1)), m)
         case _ => (c.(phase := Awaiting(left - 1)), m))
    case Finished(_) => (c, m)
  }

  function Step(s: System, e: Event): (s': System)
    ensures |s'.callers| == |s.callers|
  {
    if e.who >= |s.callers| then s.(clock := e.now)
    else
      var r := CallerStep(s, s.callers[e.who], e);
      s.(entries := r.1, callers := s.callers[e.who := r.0], clock := e.now)
  }

  predicate Forward(s: System, events: seq<Event>)
    decreases |events|
  {
    |events| > 0 ==> s.clock <= events[0].now && Forward(Step(s, events[0]), events[1..])
  }

  function Run(s: System, events: seq<Event>): (s': System)
    ensures |s'.callers| == |s.callers|
    decreases |events|
  {
    if |events| == 0 then s else Run(Step(s, events[0]), events[1..])
  }

  function Start(ttl: int, keys: seq<Key>, now: int): System {
    System(ttl, map[], seq(|keys|, i requires 0 <= i < |keys| => Caller(keys[i], Loading, None, 0)), now)
  }

  // ---------- the invariant ----------

  predicate PhaseFits(c: Caller) {
    match c.phase
    case Submitting => c.sends == 0 && c.claimedAt.Some?
    case Storing(_) => c.sends == 1 && c.claimedAt.Some?
    case Finished(Fresh(_)) => c.sends == 1 && c.claimedAt.Some?
    case _ => c.sends == 0 && c.claimedAt.None?
  }

  /** The claim is in the past, and its key is held until at least one lifetime
      after it. */
  predicate Covers(s: System, c: Caller) {
    c.claimedAt.Some? ==>
      && c.claimedAt.value <= s.clock
      && c.key in s.entries && s.entries[c.key].expires >= c.claimedAt.value + s.ttl
  }

  predicate FarApart(c: Caller, d: Caller, ttl: int) {
    c.key == d.key && c.claimedAt.Some? && d.claimedAt.Some? ==>
      c.claimedAt.value > d.claimedAt.value + ttl || d.claimedAt.value > c.claimedAt.value + ttl
  }

  /** Some caller sent the request under the key and got this answer. */
  ghost predicate Answered(s: System, key: Key, p: Payload) {
    exists i :: 0 <= i < |s.callers| && s.callers[i].key == key && s.callers[i].phase == Finished(Fresh(p))
  }

  ghost predicate Inv(s: System) {
    && (forall i | 0 <= i < |s.callers| :: PhaseFits(s.callers[i]) && Covers(s, s.callers[i]))
    && (forall i, j | 0 <= i < |s.callers| && 0 <= j < |s.callers| && i != j :: FarApart(s.callers[i], s.callers[j], s.ttl))
    && (forall k | k in s.entries && s.entries[k].payload.Some? :: Answered(s, k, s.entries[k].payload.value))
    && (forall i | 0 <= i < |s.callers| && s.callers[i].phase.Finished? && s.callers[i].phase.outcome.Replayed? ::
          Answered(s, s.callers[i].key, s.callers[i].phase.outcome.payload))
  }

  lemma StartInv(ttl: int, keys: seq<Key>, now: int)
    ensures Inv(Start(ttl, keys, now))
  {
  }

  /** The store only ever extends what a key is held for. */
  lemma EntriesExtend(s: System, c: Caller, e: Event, k: Key)
    requires s.clock <= e.now && k in s.entries
    ensures var m := CallerStep(s, c, e).1;
            k in m && (m[k].expires >= s.entries[k].expires || m[k].expires >= e.now + s.ttl)
  {
  }

  lemma AnsweredKept(s: System, e: Event, key: Key, p: Payload)
    requires Answered(s, key, p)
    ensures Answered(Step(s, e), key, p)
  {
    var i :| 0 <= i < |s.callers| && s.callers[i].key == key && s.callers[i].phase == Finished(Fresh(p));
    assert Step(s, e).callers[i] == s.callers[i];
  }

  /** A claim is granted only when every earlier claim of the key has lapsed. */
  lemma ClaimLapsed(s: System, e: Event, c: Caller, d: Caller)
    requires Covers(s, d) && s.clock <= e.now && c.key == d.key && d.claimedAt.Some?
    requires Answer(s.entries, Claim(c.key, s.ttl), e.now) == Granted
    ensures e.now > d.claimedAt.value + s.ttl
  {
  }

  /** The caller that acts still fits its phase, and its claim is held. */
  lemma ActorFits(s: System, e: Event, c: Caller)
    requires s.clock <= e.now && s.ttl >= 0 && PhaseFits(c) && Covers(s, c)
    ensures var (c', m) := CallerStep(s, c, e);
            c'.key == c.key && PhaseFits(c') && Covers(s.(entries := m, clock := e.now), c')
  {
    if c.key in s.entries { EntriesExtend(s, c, e, c.key); }
  }

  /** What is held for another caller stays held. */
  lemma OtherHeld(s: System, e: Event, c: Caller, d: Caller)
    requires s.clock <= e.now && s.ttl >= 0 && Covers(s, d)
    ensures Covers(s.(entries := CallerStep(s, c, e).1, clock := e.now), d)
  {
    hide CallerStep;
    if d.key in s.entries { EntriesExtend(s, c, e, d.key); }
  }

  lemma ActorApart(s: System, e: Event, c: Caller, d: Caller)
    requires s.clock <= e.now && s.ttl >= 0 && Covers(s, d) && FarApart(c, d, s.ttl)
    ensures FarApart(CallerStep(s, c, e).0, d, s.ttl) && FarApart(d, CallerStep(s, c, e).0, s.ttl)
  {
    if CallerStep(s, c, e).0.claimedAt != c.claimedAt && c.key == d.key && d.claimedAt.Some? { ClaimLapsed(s, e, c, d); }
  }

  lemma StepApart(s: System, e: Event)
    requires Inv(s) && s.clock <= e.now && s.ttl >= 0
    ensures var s' := Step(s, e);
            && (forall i | 0 <= i < |s'.callers| :: PhaseFits(s'.callers[i]) && Covers(s', s'.callers[i]))
            && (forall i, j | 0 <= i < |s'.callers| && 0 <= j < |s'.callers| && i != j :: FarApart(s'.callers[i], s'.callers[j], s'.ttl))
  {
    hide CallerStep, PhaseFits, FarApart, Answered;
    var s' := Step(s, e);
    if e.who < |s.callers| {
      var c := s.callers[e.who];
      ActorFits(s, e, c);
      forall i | 0 <= i < |s'.callers| && i != e.who
        ensures Covers(s', s'.callers[i])
        ensures FarApart(s'.callers[i], s'.callers[e.who], s.ttl) && FarApart(s'.callers[e.who], s'.callers[i], s.ttl)
      {
        OtherHeld(s, e, c, s.callers[i]);
        ActorApart(s, e, c, s.callers[i]);
      }
    }
  }

  /** A payload that the acting caller stores is its own answer. */
  lemma StoredByActor(s: System, e: Event, c: Caller, k: Key)
    ensures var (c', m) := CallerStep(s, c, e);
            k in m && m[k].payload.Some? ==>
              || (k in s.entries && m[k] == s.entries[k])
              || (c.key == k && c'.key == k && c'.phase == Finished(Fresh(m[k].payload.value)))
  {
  }

  /** An answer that the acting caller replays is one that the store has. */
  lemma ReplayedFromStore(s: System, e: Event, c: Caller)
    ensures var c' := CallerStep(s, c, e).0;
            c'.key == c.key
            && (c'.phase.Finished? && c'.phase.outcome.Replayed? ==>
                  c' == c || (c.key in s.entries && s.entries[c.key].payload == Some(c'.phase.outcome.payload)))
  {
  }

  lemma StepAnswered(s: System, e: Event)
    requires Inv(s) && s.clock <= e.now
    ensures var s' := Step(s, e);
            && (forall k | k in s'.entries && s'.entries[k].payload.Some? :: Answered(s', k, s'.entries[k].payload.value))
            && (forall i | 0 <= i < |s'.callers| && s'.callers[i].phase.Finished? && s'.callers[i].phase.outcome.Replayed? ::
                  Answered(s', s'.callers[i].key, s'.callers[i].phase.outcome.payload))
  {
    hide CallerStep, PhaseFits, Covers, FarApart;
    var s' := Step(s, e);
    forall k | k in s'.entries && s'.entries[k].payload.Some?
      ensures Answered(s', k, s'.entries[k].payload.value)
    {
      if e.who < |s.callers| { StoredByActor(s, e, s.callers[e.who], k); }
      if k in s.entries && s'.entries[k] == s.entries[k] {
        AnsweredKept(s, e, k, s.entries[k].payload.value);
      } else {
        assert s'.callers[e.who].phase == Finished(Fresh(s'.entries[k].payload.value));
      }
    }
    forall i | 0 <= i < |s'.callers| && s'.callers[i].phase.Finished? && s'.callers[i].phase.outcome.Replayed?
      ensures Answered(s', s'.callers[i].key, s'.callers[i].phase.outcome.payload)
    {
      ReplayedFromStore(s, e, s.callers[i]);
      assert Answered(s, s'.callers[i].key, s'.callers[i].phase.outcome.payload);
      AnsweredKept(s, e, s'.callers[i].key, s'.callers[i].phase.outcome.payload);
    }
  }

  lemma {:induction false} RunInv(s: System, events: seq<Event>)
    requires Inv(s) && Forward(s, events) && s.ttl >= 0
    ensures Inv(Run(s, events)) && Run(s, events).ttl == s.ttl && |Run(s, events).callers| == |s.callers|
    decreases |events|
  {
    if |events| > 0 {
      StepApart(s, events[0]);
      StepAnswered(s, events[0]);
      RunInv(Step(s, events[0]), events[1..]);
    }
  }

  /** At most one submission per lifetime: whatever the interleaving and
      whichever store calls fail, each caller reaches the dealer at most once,
      and the claims behind two submissions under one key lie more than the
      lifetime apart. */
  lemma AtMostOnce(ttl: int, keys: seq<Key>, now: int, events: seq<Event>, i: nat, j: nat)
    requires ttl >= 0 && Forward(Start(ttl, keys, now), events)
    requires i < |keys| && j < |keys| && i != j
    ensures var s := Run(Start(ttl, keys, now), events);
            var c, d := s.callers[i], s.callers[j];
            && c.sends <= 1 && d.sends <= 1
            && (c.sends == 1 && d.sends == 1 && c.key == d.key ==>
                  && c.claimedAt.Some? && d.claimedAt.Some?
                  && (c.claimedAt.value > d.claimedAt.value + ttl || d.claimedAt.value > c.claimedAt.value + ttl))
  {
    StartInv(ttl, keys, now);
    RunInv(Start(ttl, keys, now), events);
    var s := Run(Start(ttl, keys, now), events);
    assert FarApart(s.callers[i], s.callers[j], s.ttl);
    assert PhaseFits(s.callers[i]) && PhaseFits(s.callers[j]);
  }

  /** Every replayed answer is the dealer's answer to another caller of the same
      key; the replaying caller itself never reached the dealer. */
  lemma ReplaysAreAnswers(ttl: int, keys: seq<Key>, now: int, events: seq<Event>, i: nat)
    requires ttl >= 0 && Forward(Start(ttl, keys, now), events) && i < |keys|
    ensures var s := Run(Start(ttl, keys, now), events);
            s.callers[i].phase.Finished? && s.callers[i].phase.outcome.Replayed? ==>
              && s.callers[i].sends == 0
              && exists j :: 0 <= j < |keys| && j != i && s.callers[j].key == s.callers[i].key && s.callers[j].sends == 1
                   && s.callers[j].phase == Finished(Fresh(s.callers[i].phase.outcome.payload))
  {
    StartInv(ttl, keys, now);
    RunInv(Start(ttl, keys, now), events);
    var s := Run(Start(ttl, keys, now), events);
    var c := s.callers[i];
    assert PhaseFits(c);
    if c.phase.Finished? && c.phase.outcome.Replayed? {
      var j :| 0 <= j < |s.callers| && s.callers[j].key == c.key && s.callers[j].phase == Finished(Fresh(c.phase.outcome.payload));
      assert PhaseFits(s.callers[j]);
    }
  }

  /** The bound is tight: when the dealer takes longer than the lifetime, a
      second caller submits one instant after the first claim has lapsed. */
  lemma BoundIsTight(ttl: int, key: Key, p: Payload)
    requires ttl >= 0
    ensures var events := [Event(0, 0, Fine, p), Event(0, 0, Fine, p), Event(0, 0, Fine, p),
                           Event(1, ttl + 1, Fine, p), Event(1, ttl + 1, Fine, p), Event(1, ttl + 1, Fine, p)];
            var s := Run(Start(ttl, [key, key], 0), events);
            && Forward(Start(ttl, [key, key], 0), events)
            && s.callers[0].sends == 1 && s.callers[1].sends == 1
            && s.callers[1].claimedAt == Some(ttl + 1) && s.callers[0].claimedAt == Some(0)
  {
    var s0 := Start(ttl, [key, key], 0);
    var early, late := Event(0, 0, Fine, p), Event(1, ttl + 1, Fine, p);
    var s3 := Step(Step(Step(s0, early), early), early);
    var s6 := Step(Step(Step(s3, late), late), late);
    assert s3.callers == [Caller(key, Storing(p), Some(0), 1), Caller(key, Loading, None, 0)];
    assert s3.entries == map[key := Entry(None, ttl)];
    assert s6.callers == [Caller(key, Storing(p), Some(0), 1), Caller(key, Storing(p), Some(ttl + 1), 1)];
    ThreeMore(s0, early, [late, late, late]);
    ThreeMore(s3, late, []);
    assert [late, late, late] + [] == [late, late, late];
    assert [early, early, early] + [late, late, late] == [early, early, early, late, late, late];
  }

  lemma ThreeMore(s: System, e: Event, rest: seq<Event>)
    requires s.clock <= e.now
    ensures var s' := Step(Step(Step(s, e), e), e);
            && Run(s, [e, e, e] + rest) == Run(s', rest)
            && (Forward(s', rest) ==> Forward(s, [e, e, e] + rest))
  {
    assert ([e, e, e] + rest)[1..] == [e, e] + rest;
    assert ([e, e] + rest)[1..] == [e] + rest;
    assert ([e] + rest)[1..] == rest;
    assert Run(s, [e, e, e] + rest) == Run(Step(s, e), [e, e] + rest);
    assert Run(Step(s, e), [e, e] + rest) == Run(Step(Step(s, e), e), [e] + rest);
  }

  // ---------- that a result is replayed ----------

  /** The store has this result for the key. */
  predicate Held(s: System, key: Key, p: Payload, until: int) {
    key in s.entries && s.entries[key] == Entry(Some(p), until)
  }

  /** No other result of the key is stored on the way. */
  predicate Undisturbed(s: System, key: Key, events: seq<Event>)
    decreases |events|
  {
    |events| > 0 ==>
      && !Stores(s, key, events[0])
      && Undisturbed(Step(s, events[0]), key, events[1..])
  }

  predicate Stores(s: System, key: Key, e: Event) {
    && e.who < |s.callers| && s.callers[e.who].key == key && s.callers[e.who].phase.Storing?
    && e.fault != Unreached
  }

  lemma HeldStep(s: System, key: Key, p: Payload, until: int, e: Event)
    requires Held(s, key, p, until) && e.now <= until && !Stores(s, key, e)
    ensures Held(Step(s, e), key, p, until)
  {
  }

  lemma {:induction false} ClockGrows(s: System, events: seq<Event>)
    requires Forward(s, events)
    ensures s.clock <= Run(s, events).clock && Run(s, events).ttl == s.ttl
    decreases |events|
  {
    if |events| > 0 { ClockGrows(Step(s, events[0]), events[1..]); }
  }

  lemma {:induction false} HeldOn(s: System, key: Key, p: Payload, until: int, events: seq<Event>)
    requires Held(s, key, p, until) && Forward(s, events) && Undisturbed(s, key, events) && Run(s, events).clock <= until
    ensures Held(Run(s, events), key, p, until)
    decreases |events|
  {
    hide Held;
    if |events| > 0 {
      var s1 := Step(s, events[0]);
      ClockGrows(s1, events[1..]);
      HeldStep(s, key, p, until, events[0]);
      HeldOn(s1, key, p, until, events[1..]);
    }
  }

  /** The caller is about to look for a result, at first or while it awaits one. */
  predicate Looks(c: Caller) {
    c.phase.Loading? || (c.phase.Awaiting? && c.phase.left > 0)
  }

  /** Once a caller has its answer stored, every caller of the key that looks for
      a result within the lifetime, whatever happened in between short of another
      result being stored, ends with that answer replayed. */
  lemma ResultReplayed(s: System, e: Event, between: seq<Event>, look: Event)
    requires e.who < |s.callers| && Stores(s, s.callers[e.who].key, e)
    requires Forward(Step(s, e), between) && Undisturbed(Step(s, e), s.callers[e.who].key, between)
    requires var s2 := Run(Step(s, e), between);
             && look.who < |s2.callers| && s2.callers[look.who].key == s.callers[e.who].key && Looks(s2.callers[look.who])
             && look.fault == Fine && s2.clock <= look.now <= e.now + s.ttl
    ensures var c, p := s.callers[e.who], s.callers[e.who].phase.answer;
            && Step(s, e).callers[e.who].phase == Finished(Fresh(p))
            && Step(Run(Step(s, e), between), look).callers[look.who].phase == Finished(Replayed(p))
  {
    var key, p := s.callers[e.who].key, s.callers[e.who].phase.answer;
    var s1 := Step(s, e);
    assert Held(s1, key, p, e.now + s.ttl);
    HeldOn(s1, key, p, e.now + s.ttl, between);
  }

  /** Nothing happens to a caller that has finished. */
  lemma {:induction false} FinishedStays(s: System, events: seq<Event>, i: nat)
    requires i < |s.callers| && s.callers[i].phase.Finished?
    ensures Run(s, events).callers[i] == s.callers[i]
    decreases |events|
  {
    if |events| > 0 { FinishedStays(Step(s, events[0]), events[1..], i); }
  }

  /** A caller whose claim fails, whether or not the store acted on it, has not
      reached the dealer and never will. */
  lemma FailedClaimNeverSends(s: System, e: Event, events: seq<Event>)
    requires Inv(s) && e.who < |s.callers| && s.callers[e.who].phase.Claiming? && e.fault != Fine
    ensures var c := Run(Step(s, e), events).callers[e.who];
            c.phase == Finished(NotSubmitted) && c.sends == 0
  {
    assert PhaseFits(s.callers[e.who]);
    FinishedStays(Step(s, e), events, e.who);
  }

  /** A caller refused the claim, because another's is live, waits for that one's
      result with ten polls. */
  lemma RefusedAwaits(s: System, e: Event)
    requires e.who < |s.callers| && s.callers[e.who].phase.Claiming? && e.fault == Fine
    requires s.callers[e.who].key in s.entries && e.now <= s.entries[s.callers[e.who].key].expires
    ensures Step(s, e).callers[e.who].phase == Awaiting(10) && Step(s, e).entries == s.entries
  {
  }

  function StepsOf(events: seq<Event>, i: nat): nat {
    if |events| == 0 then 0 else (if events[0].who == i then 1 else 0) + StepsOf(events[1..], i)
  }

  /** A caller that awaits another's result looks at most as often as it has polls
      left, and then gives up. */
  lemma {:induction false} AwaitEnds(s: System, events: seq<Event>, i: nat)
    requires i < |s.callers| && s.callers[i].phase.Awaiting? && StepsOf(events, i) > s.callers[i].phase.left
    ensures var phase := Run(s, events).callers[i].phase;
            phase.Finished? && (phase.outcome == StillUnknown || phase.outcome.Replayed?)
    decreases |events|
  {
    var s1 := Step(s, events[0]);
    if s1.callers[i].phase.Finished? { FinishedStays(s1, events[1..], i); } else { AwaitEnds(s1, events[1..], i); }
  }

  /** Until then it goes on waiting, unless it has its result or goes away. */
  lemma {:induction false} AwaitsOn(s: System, events: seq<Event>, i: nat)
    requires i < |s.callers| && s.callers[i].phase.Awaiting? && StepsOf(events, i) <= s.callers[i].phase.left
    ensures var phase := Run(s, events).callers[i].phase;
            || phase == Awaiting(s.callers[i].phase.left - StepsOf(events, i))
            || (phase.Finished? && phase.outcome.Replayed?)
            || (phase == Finished(StillUnknown) && exists k :: 0 <= k < |events| && events[k].who == i && events[k].fault == Gone)
    decreases |events|
  {
    if |events| > 0 {
      var s1 := Step(s, events[0]);
      if s1.callers[i].phase.Finished? {
        FinishedStays(s1, events[1..], i);
      } else {
        AwaitsOn(s1, events[1..], i);
        if k :| 0 <= k < |events[1..]| && events[1..][k].who == i && events[1..][k].fault == Gone {
          assert events[k + 1] == events[1..][k];
        }
      }
    }
  }

  /** Going away ends the wait. */
  lemma GoneGivesUp(s: System, e: Event)
    requires e.who < |s.callers| && s.callers[e.who].phase.Awaiting? && e.fault == Gone
    ensures Step(s, e).callers[e.who].phase == Finished(StillUnknown)
  {
  }
}
