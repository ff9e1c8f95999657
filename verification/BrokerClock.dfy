/** Estimating the trade server's clock offset from tick times, which may be any
    amount too old, and ahead by the time that reading them took. Times are in
    seconds; offsets are whole hours. */
module BrokerClock {
  const HOUR := 3600
  const TTL := 30
  const MAX_PLAUSIBLE := 14 * 3600
  const ASSUMED := 3 * 3600
  const REANCHOR := 24 * 3600

  /** Nearest hour, half an hour rounding away from zero. */
  function RoundToHour(seconds: int): int
    decreases seconds < 0
  {
    if seconds < 0 then -RoundToHour(-seconds) else (seconds + HOUR / 2) / HOUR * HOUR
  }

  datatype Clock = Clock(offset: int, cached: int, confirmedAt: int, known: bool)

  /** A tick's broker time as read at a UTC instant; zero when unreadable.
      Background refreshes skip the lifetime check. */
  datatype Reading = Reading(broker: int, now: int, background: bool)

  predicate Plausible(offset: int) {
    -MAX_PLAUSIBLE <= offset <= MAX_PLAUSIBLE
  }

  function Accept(c: Clock, broker: int, now: int): Clock {
    var rounded := RoundToHour(broker - now);
    if !Plausible(rounded) then c
    else if c.known && rounded < c.offset && now - c.confirmedAt < REANCHOR then c.(cached := now)
    else Clock(rounded, now, now, true)
  }

  predicate Examined(c: Clock, r: Reading) {
    r.broker > 0 && (r.background || !c.known || r.now - c.cached >= TTL)
  }

  function Observe(c: Clock, r: Reading): Clock {
    if Examined(c, r) then Accept(c, r.broker, r.now) else c
  }

  function InForce(c: Clock): int {
    if c.known then c.offset else ASSUMED
  }

  /** The resolver's fields, updated in place. */
  class Resolver {
    var offset: int
    var cached: int
    var confirmedAt: int
    var known: bool

    constructor ()
      ensures View() == Clock(0, 0, 0, false)
    {
      offset, cached, confirmedAt, known := 0, 0, 0, false;
    }

    function View(): Clock
      reads this
    {
      Clock(offset, cached, confirmedAt, known)
    }

    method AcceptReading(broker: int, now: int)
      modifies this
      ensures View() == Accept(old(View()), broker, now)
    {
      var rounded := RoundToHour(broker - now);
      if rounded > MAX_PLAUSIBLE || rounded < -MAX_PLAUSIBLE { return; }
      if known && rounded < offset && now - confirmedAt < REANCHOR {
        cached := now;
        return;
      }
      offset, cached, known := rounded, now, true;
      confirmedAt := now;
    }

    method ObserveTick(broker: int, now: int) returns (inForce: int)
      modifies this
      ensures View() == Observe(old(View()), Reading(broker, now, false)) && inForce == InForce(View())
      ensures !View().known ==> inForce == 3 * 3600
    {
      if broker > 0 && (!known || now - cached >= TTL) { AcceptReading(broker, now); }
      inForce := if known then offset else ASSUMED;
    }

    method Refresh(broker: int, now: int)
      modifies this
      ensures View() == Observe(old(View()), Reading(broker, now, true))
    {
      if broker > 0 { AcceptReading(broker, now); }
    }
  }

  // ---------- rounding a stale reading ----------

  predicate WholeHours(h: int) {
    h % HOUR == 0
  }

  lemma RoundBounds(x: int) returns (k: int)
    ensures RoundToHour(x) == k * HOUR
    ensures x >= 0 ==> k >= 0 && k * HOUR - HOUR / 2 <= x < k * HOUR + HOUR / 2
    ensures x < 0 ==> k <= 0 && k * HOUR - HOUR / 2 < x <= k * HOUR + HOUR / 2
  {
    var y := if x < 0 then -x else x;
    var r := (y + HOUR / 2) / HOUR;
    k := if x < 0 then -r else r;
  }

  /** What a reading of a whole-hour offset rounds to when its tick is so many
      seconds old, or, if negative, ahead. It is never above the offset exactly
      when it is less than half an hour ahead, or exactly half an hour with a
      negative offset; and it recovers the offset exactly when it is less than
      half an hour off either way, or half an hour off towards zero. */
  lemma RoundStale(h: int, stale: int)
    requires WholeHours(h)
    ensures RoundToHour(h - stale) <= h <==> stale > -HOUR / 2 || (stale == -HOUR / 2 && h < 0)
    ensures RoundToHour(h - stale) == h
            <==> -HOUR / 2 < stale < HOUR / 2 || (stale == HOUR / 2 && h > 0) || (stale == -HOUR / 2 && h < 0)
    ensures WholeHours(RoundToHour(h - stale))
  {
    var q := h / HOUR;
    assert h == q * HOUR;
    var k := RoundBounds(h - stale);
    hide RoundToHour;
    WholeMultiple(k);
    assert k <= q <==> k * HOUR <= h;
    assert k >= q <==> k * HOUR >= h;
  }

  lemma WholeMultiple(k: int)
    ensures WholeHours(k * HOUR)
  {
  }

  /** The reading was taken while the true offset was h: its tick may be old, and
      the instant it is compared with may lie before the tick by however long
      the upstream took to answer, as long as that is under half an hour. */
  predicate Reads(r: Reading, h: int) {
    r.broker - r.now < h + HOUR / 2
  }

  /** The reading is less than half an hour off. */
  predicate Fresh(r: Reading, h: int) {
    Reads(r, h) && h - HOUR / 2 < r.broker - r.now
  }

  // ---------- runs ----------

  function Run(c: Clock, rs: seq<Reading>): Clock
    decreases |rs|
  {
    if |rs| == 0 then c else Run(Observe(c, rs[0]), rs[1..])
  }

  /** While the true offset is one whole number of hours, the held offset never
      exceeds it, however stale the readings, whatever symbols they are from and
      however long, short of half an hour, they took to arrive. */
  lemma {:induction false} NeverAhead(c: Clock, rs: seq<Reading>, h: int)
    requires WholeHours(h) && (c.known ==> c.offset <= h)
    requires forall i | 0 <= i < |rs| :: Reads(rs[i], h)
    ensures Run(c, rs).known ==> Run(c, rs).offset <= h
    decreases |rs|
  {
    if |rs| > 0 {
      RoundStale(h, h - (rs[0].broker - rs[0].now));
      NeverAhead(Observe(c, rs[0]), rs[1..], h);
    }
  }

  /** One reading less than half an hour off sets the offset exactly. */
  lemma FreshSets(c: Clock, r: Reading, h: int)
    requires WholeHours(h) && -14 * 3600 <= h <= 14 * 3600 && (c.known ==> c.offset <= h)
    requires Fresh(r, h) && r.broker > 0 && (r.background || !c.known || r.now - c.cached >= 30)
    ensures Observe(c, r) == Clock(h, r.now, r.now, true)
  {
    RoundStale(h, h - (r.broker - r.now));
  }

  /** For thirty seconds after a plausible reading was examined, no reading but a
      background one is. */
  lemma {:induction false} Throttled(c: Clock, r: Reading, rs: seq<Reading>)
    requires Examined(c, r) && Plausible(RoundToHour(r.broker - r.now))
    requires forall i | 0 <= i < |rs| :: !rs[i].background && rs[i].now < r.now + 30
    ensures Run(Observe(c, r), rs) == Observe(c, r)
    decreases |rs|
  {
    hide RoundToHour;
    if |rs| > 0 {
      assert Observe(Observe(c, r), rs[0]) == Observe(c, r);
      Throttled(c, r, rs[1..]);
    }
  }

  /** An offset held exactly survives an examined reading if and only if the
      reading agrees, is implausible, or comes within a day of the last
      confirmation. */
  lemma ExactSurvives(c: Clock, r: Reading, h: int)
    requires WholeHours(h) && c.known && c.offset == h && Reads(r, h) && Examined(c, r)
    ensures Observe(c, r).offset == h
            <==> (var rounded := RoundToHour(r.broker - r.now);
                  rounded == h || !Plausible(rounded) || r.now - c.confirmedAt < REANCHOR)
  {
    RoundStale(h, h - (r.broker - r.now));
  }

  /** Every examined reading comes within a day of the last fresh one. */
  predicate Confirmed(c: Clock, rs: seq<Reading>, h: int, last: int)
    decreases |rs|
  {
    |rs| > 0 ==>
      && (Examined(c, rs[0]) ==> rs[0].now - last < REANCHOR)
      && Confirmed(Observe(c, rs[0]), rs[1..], h, if Examined(c, rs[0]) && Fresh(rs[0], h) then rs[0].now else last)
  }

  /** Once exact, the offset stays exact through any readings, however stale, as
      long as fresh ones keep coming less than a day apart. */
  lemma {:induction false} StaysExact(c: Clock, rs: seq<Reading>, h: int, last: int)
    requires WholeHours(h) && Plausible(h) && c.known && c.offset == h && last <= c.confirmedAt
    requires forall i | 0 <= i < |rs| :: Reads(rs[i], h)
    requires forall i | 0 <= i < |rs| :: last <= rs[i].now
    requires forall i, j | 0 <= i < j < |rs| :: rs[i].now <= rs[j].now
    requires Confirmed(c, rs, h, last)
    ensures Run(c, rs).known && Run(c, rs).offset == h
    decreases |rs|
  {
    if |rs| > 0 {
      var r := rs[0];
      RoundStale(h, h - (r.broker - r.now));
      StaysExact(Observe(c, r), rs[1..], h, if Examined(c, r) && Fresh(r, h) then r.now else last);
    }
  }

  /** After the true offset has dropped, the old one is held through every
      reading examined within a day of its last confirmation... */
  lemma {:induction false} DecreaseWaits(c: Clock, rs: seq<Reading>, h: int)
    requires WholeHours(h) && c.known && h < c.offset
    requires forall i | 0 <= i < |rs| :: Reads(rs[i], h) && rs[i].now - c.confirmedAt < 24 * 3600
    ensures Run(c, rs).known && Run(c, rs).offset == c.offset && Run(c, rs).confirmedAt == c.confirmedAt
    decreases |rs|
  {
    if |rs| > 0 {
      RoundStale(h, h - (rs[0].broker - rs[0].now));
      DecreaseWaits(Observe(c, rs[0]), rs[1..], h);
    }
  }

  /** ...and gives way at the first reading examined a day or more after it: a
      fresh one lands the new offset exactly. */
  lemma DecreaseLands(c: Clock, rs: seq<Reading>, r: Reading, h: int)
    requires WholeHours(h) && Plausible(h) && c.known && h < c.offset
    requires forall i | 0 <= i < |rs| :: Reads(rs[i], h) && rs[i].now - c.confirmedAt < 24 * 3600
    requires Fresh(r, h) && r.now - c.confirmedAt >= 24 * 3600 && Examined(Run(c, rs), r)
    ensures Run(c, rs).offset == c.offset
    ensures Observe(Run(c, rs), r) == Clock(h, r.now, r.now, true)
  {
    DecreaseWaits(c, rs, h);
    RoundStale(h, h - (r.broker - r.now));
  }

  /** An offset no server can have changes nothing at all. */
  lemma ImplausibleIgnored(c: Clock, r: Reading)
    requires !(-14 * 3600 <= RoundToHour(r.broker - r.now) <= 14 * 3600)
    ensures Observe(c, r) == c
  {
  }
}
