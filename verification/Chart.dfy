/** Rolling one-minute bars into wider buckets aligned to the broker's clock. */
module Chart {
  import opened Market

  datatype Bar = Bar(time: int, open: real, high: real, low: real, close: real, volume: Option<int>)

  /** Integer division that truncates toward zero. */
  function Quot(a: int, b: int): int
    requires b > 0
  {
    if a >= 0 then a / b else -((-a) / b)
  }

  /** The broker-aligned start of a bucket, restated in UTC. */
  function Key(t: int, step: int, offset: int): int
    requires step > 0
  {
    Quot(t + offset, step) * step - offset
  }

  /** The bucket width for a resolution in minutes; zero means no aggregation. */
  function StepSeconds(minutes: Option<int>): (step: int)
    ensures step == 0 || (120 <= step <= 43200 && step % 60 == 0)
    ensures step > 0 <==> minutes.Some? && 2 <= minutes.value <= 12 * 60
    ensures step > 0 ==> step / 60 == minutes.value
  {
    match minutes
    case Some(m) => if m <= 1 || m > 720 then 0 else m * 60
    case None => 0
  }

  // ---------- ordering ----------

  /** Puts a bar behind all bars that are not later. */
  function Insert(s: seq<Bar>, b: Bar): seq<Bar> {
    if |s| == 0 || s[|s| - 1].time <= b.time then s + [b]
    else Insert(s[..|s| - 1], b) + [s[|s| - 1]]
  }

  function SortByTime(bars: seq<Bar>): seq<Bar> {
    if |bars| == 0 then [] else Insert(SortByTime(bars[..|bars| - 1]), bars[|bars| - 1])
  }

  predicate Ordered(s: seq<Bar>) {
    forall i, j | 0 <= i < j < |s| :: s[i].time <= s[j].time
  }

  function At(s: seq<Bar>, t: int): seq<Bar> {
    if |s| == 0 then []
    else At(s[..|s| - 1], t) + if s[|s| - 1].time == t then [s[|s| - 1]] else []
  }

  lemma {:induction false} InsertMembers(s: seq<Bar>, b: Bar)
    ensures multiset(Insert(s, b)) == multiset(s) + multiset{b}
  {
    if |s| > 0 && s[|s| - 1].time > b.time {
      InsertMembers(s[..|s| - 1], b);
      assert s == s[..|s| - 1] + [s[|s| - 1]];
    }
  }

  lemma {:induction false} InsertOrdered(s: seq<Bar>, b: Bar)
    requires Ordered(s)
    ensures Ordered(Insert(s, b))
    ensures |s| > 0 ==> forall i | 0 <= i < |Insert(s, b)| :: Insert(s, b)[i].time <= if b.time > s[|s| - 1].time then b.time else s[|s| - 1].time
  {
    if |s| > 0 && s[|s| - 1].time > b.time {
      InsertOrdered(s[..|s| - 1], b);
    }
  }

  lemma AtLast(s: seq<Bar>, b: Bar, t: int)
    ensures At(s + [b], t) == At(s, t) + if b.time == t then [b] else []
  {
  }

  lemma {:induction false} InsertStable(s: seq<Bar>, b: Bar, t: int)
    requires Ordered(s)
    ensures At(Insert(s, b), t) == At(s, t) + if b.time == t then [b] else []
  {
    hide At;
    if |s| > 0 && s[|s| - 1].time > b.time {
      var rest, last := s[..|s| - 1], s[|s| - 1];
      InsertStable(rest, b, t);
      AtLast(Insert(rest, b), last, t);
      AtLast(rest, last, t);
      assert s == rest + [last];
    } else {
      AtLast(s, b, t);
    }
  }

  /** Sorting keeps every bar and puts times in order. */
  lemma {:induction false} SortOrdered(bars: seq<Bar>)
    ensures Ordered(SortByTime(bars)) && multiset(SortByTime(bars)) == multiset(bars)
  {
    if |bars| > 0 {
      var rest, b := bars[..|bars| - 1], bars[|bars| - 1];
      SortOrdered(rest);
      InsertOrdered(SortByTime(rest), b);
      InsertMembers(SortByTime(rest), b);
      assert bars == rest + [b];
    }
  }

  /** Bars of one time stay in the order they came. */
  lemma {:induction false} SortStable(bars: seq<Bar>, t: int)
    ensures At(SortByTime(bars), t) == At(bars, t)
  {
    if |bars| > 0 {
      var rest := bars[..|bars| - 1];
      SortStable(rest, t);
      SortOrdered(rest);
      InsertStable(SortByTime(rest), bars[|bars| - 1], t);
    }
  }

  /** Bars already in order are left alone. */
  lemma {:induction false} SortIdle(s: seq<Bar>)
    requires Ordered(s)
    ensures SortByTime(s) == s
  {
    hide Insert, Ordered;
    if |s| > 0 {
      var rest, last := s[..|s| - 1], s[|s| - 1];
      assert s == rest + [last];
      LastIsLatest(s, rest, last);
      SortIdle(rest);
      InsertLast(rest, last);
    }
  }

  lemma LastIsLatest(s: seq<Bar>, rest: seq<Bar>, last: Bar)
    requires s == rest + [last] && Ordered(s)
    ensures Ordered(rest) && forall i | 0 <= i < |rest| :: rest[i].time <= last.time
  {
    assert s[|rest|] == last;
    forall i | 0 <= i < |rest|
      ensures rest[i].time <= last.time && forall j | i < j < |rest| :: rest[i].time <= rest[j].time
    {
      assert s[i] == rest[i];
      assert forall j | i < j < |rest| :: s[j] == rest[j];
    }
  }

  lemma InsertLast(s: seq<Bar>, b: Bar)
    requires forall i | 0 <= i < |s| :: s[i].time <= b.time
    ensures Insert(s, b) == s + [b]
  {
  }

  // ---------- aggregation ----------

  function Max(a: real, b: real): real {
    if b > a then b else a
  }

  function Min(a: real, b: real): real {
    if b < a then b else a
  }

  function AddVolume(cur: Option<int>, v: Option<int>): Option<int> {
    match v
    case None => cur
    case Some(x) => Some(match cur case None => x case Some(y) => x + y)
  }

  /** A bar folded into the bucket it falls in. */
  function Merge(cur: Bar, b: Bar): Bar {
    Bar(cur.time, cur.open, Max(cur.high, b.high), Min(cur.low, b.low), b.close, AddVolume(cur.volume, b.volume))
  }

  function Extend(out: seq<Bar>, b: Bar, step: int, offset: int): seq<Bar>
    requires step > 0
  {
    var key := Key(b.time, step, offset);
    if |out| > 0 && out[|out| - 1].time == key then out[..|out| - 1] + [Merge(out[|out| - 1], b)]
    else out + [b.(time := key)]
  }

  function Roll(s: seq<Bar>, step: int, offset: int): seq<Bar>
    requires step > 0
  {
    if |s| == 0 then [] else Extend(Roll(s[..|s| - 1], step, offset), s[|s| - 1], step, offset)
  }

  function Aggregate(bars: seq<Bar>, step: int, offset: int): seq<Bar>
    requires step > 0
  {
    Roll(SortByTime(bars), step, offset)
  }

  /** The aggregation loop. A width under a minute makes its capacity estimate
      divide by zero, so callers pass at least one minute. */
  method AggregateIntraday(bars: seq<Bar>, step: int, offset: int) returns (out: seq<Bar>)
    requires step >= 60
    ensures out == Aggregate(bars, step, offset)
  {
    if |bars| == 0 { return []; }
    var sorted := SortByTime(bars);
    out := [];
    for i := 0 to |sorted|
      invariant out == Roll(sorted[..i], step, offset)
    {
      assert sorted[..i + 1][..i] == sorted[..i];
      var b := sorted[i];
      var key := Key(b.time, step, offset);
      var n := |out|;
      if n > 0 && out[n - 1].time == key {
        var cur := out[n - 1];
        if b.high > cur.high { cur := cur.(high := b.high); }
        if b.low < cur.low { cur := cur.(low := b.low); }
        cur := cur.(close := b.close);
        if b.volume.Some? {
          var sum := b.volume.value;
          if cur.volume.Some? { sum := sum + cur.volume.value; }
          cur := cur.(volume := Some(sum));
        }
        out := out[n - 1 := cur];
        assert out == out[..n - 1] + [cur];
      } else {
        out := out + [b.(time := key)];
      }
    }
    assert sorted[..|sorted|] == sorted;
  }

  // ---------- keys ----------

  lemma MulMonotone(x: int, y: int, b: int)
    requires b >= 0 && x <= y
    ensures x * b <= y * b
  {
  }

  lemma DivAtMost(x: int, b: int, q: int)
    requires b > 0 && x < q * b + b
    ensures x / b <= q
  {
    if x / b >= q + 1 { MulMonotone(q + 1, x / b, b); }
  }

  lemma DivAtLeast(x: int, b: int, q: int)
    requires b > 0 && q * b <= x
    ensures q <= x / b
  {
    if x / b + 1 <= q { MulMonotone(x / b + 1, q, b); }
  }

  lemma DivMonotone(x: int, y: int, b: int)
    requires b > 0 && x <= y
    ensures x / b <= y / b
  {
    DivAtLeast(y, b, x / b);
  }

  lemma QuotMonotone(x: int, y: int, b: int)
    requires b > 0 && x <= y
    ensures Quot(x, b) <= Quot(y, b)
  {
    if 0 <= x {
      DivMonotone(x, y, b);
    } else if y < 0 {
      DivMonotone(-y, -x, b);
    } else {
      DivAtLeast(-x, b, 0);
      DivAtLeast(y, b, 0);
    }
  }

  lemma KeyMonotone(t: int, u: int, step: int, offset: int)
    requires step > 0 && t <= u
    ensures Key(t, step, offset) <= Key(u, step, offset)
  {
    QuotMonotone(t + offset, u + offset, step);
    MulMonotone(Quot(t + offset, step), Quot(u + offset, step), step);
  }

  /** A coarser bucket's key is the same whether computed from a bar or from the
      finer bucket the bar is in. */
  lemma KeyOfKey(t: int, a: int, k: int, offset: int)
    requires a > 0 && k > 0
    ensures k * a > 0
    ensures Key(Key(t, a, offset), k * a, offset) == Key(t, k * a, offset)
  {
    MulMonotone(1, k, a);
    QuotOfQuot(t + offset, a, k);
  }

  lemma QuotOfQuot(x: int, a: int, k: int)
    requires a > 0 && k > 0 && k * a > 0
    ensures Quot(Quot(x, a) * a, k * a) == Quot(x, k * a)
  {
    if x >= 0 {
      DivOfDiv(x, a, k);
    } else {
      DivOfDiv(-x, a, k);
      QuotNegated((-x) / a * a, k * a);
      Negate((-x) / a, a);
    }
  }

  lemma QuotNegated(y: int, b: int)
    requires b > 0 && y >= 0
    ensures Quot(-y, b) == -(y / b)
  {
  }

  lemma Negate(x: int, y: int)
    ensures (-x) * y == -(x * y)
  {
  }

  lemma DivOfDiv(x: int, a: int, k: int)
    requires x >= 0 && a > 0 && k > 0
    ensures k * a > 0 && x / a * a >= 0
    ensures (x / a * a) / (k * a) == x / (k * a)
  {
    MulMonotone(1, k, a);
    var q := x / a;
    var p := q / k;
    DivAtLeast(x, a, 0);
    MulMonotone(0, q, a);
    MulMonotone(p * k, q, a);
    MulMonotone(q + 1, p * k + k, a);
    Regroup(p, k, a, q);
    DivAtLeast(q * a, k * a, p);
    DivAtMost(q * a, k * a, p);
    DivAtLeast(x, k * a, p);
    DivAtMost(x, k * a, p);
  }

  lemma Regroup(p: int, k: int, a: int, q: int)
    ensures p * k * a == p * (k * a) && (p * k + k) * a == p * (k * a) + k * a && (q + 1) * a == q * a + a
  {
  }

  // ---------- what aggregation promises ----------

  predicate Ascending(s: seq<Bar>) {
    forall i, j | 0 <= i < j < |s| :: s[i].time < s[j].time
  }

  lemma ExtendAscending(out: seq<Bar>, b: Bar, step: int, offset: int)
    requires step > 0 && Ascending(out)
    requires |out| > 0 ==> out[|out| - 1].time <= Key(b.time, step, offset)
    ensures var after := Extend(out, b, step, offset);
            Ascending(after) && |after| > 0 && after[|after| - 1].time == Key(b.time, step, offset)
  {
  }

  /** Times come out strictly ascending, each the key of its bars. */
  lemma {:induction false} RollAscending(s: seq<Bar>, step: int, offset: int)
    requires step > 0 && Ordered(s)
    ensures var out := Roll(s, step, offset);
            && Ascending(out)
            && (|s| > 0 ==> |out| > 0 && out[|out| - 1].time == Key(s[|s| - 1].time, step, offset))
            && (|s| == 0 ==> out == [])
  {
    hide Key, Extend;
    if |s| > 0 {
      var rest := s[..|s| - 1];
      RollAscending(rest, step, offset);
      if |rest| > 0 { KeyMonotone(rest[|rest| - 1].time, s[|s| - 1].time, step, offset); }
      ExtendAscending(Roll(rest, step, offset), s[|s| - 1], step, offset);
    }
  }

  lemma KeyAligned(t: int, step: int, offset: int)
    requires step > 0
    ensures (Key(t, step, offset) + offset) % step == 0
  {
    MultipleOf(Quot(t + offset, step), step);
  }

  lemma MultipleOf(q: int, step: int)
    requires step > 0
    ensures (q * step) % step == 0
  {
    DivAtLeast(q * step, step, q);
    DivAtMost(q * step, step, q);
  }

  /** Every output time starts a bucket on the broker's clock. */
  lemma {:induction false} RollAligned(s: seq<Bar>, step: int, offset: int, i: nat)
    requires step > 0 && i < |Roll(s, step, offset)|
    ensures (Roll(s, step, offset)[i].time + offset) % step == 0
  {
    hide Key;
    if |s| > 0 {
      var rest, b := s[..|s| - 1], s[|s| - 1];
      KeyAligned(b.time, step, offset);
      if i < |Roll(rest, step, offset)| { RollAligned(rest, step, offset, i); }
    }
  }

  // ---------- splitting ----------

  lemma {:induction false} InsertPast(p: seq<Bar>, s: seq<Bar>, b: Bar)
    requires forall i | 0 <= i < |p| :: p[i].time <= b.time
    ensures Insert(p + s, b) == p + Insert(s, b)
  {
    if |s| > 0 && s[|s| - 1].time > b.time {
      var rest := s[..|s| - 1];
      InsertPast(p, rest, b);
      assert (p + s)[..|p + s| - 1] == p + rest;
    }
  }

  lemma {:induction false} SortSplit(x: seq<Bar>, y: seq<Bar>)
    requires forall b, c | b in x && c in y :: b.time < c.time
    ensures SortByTime(x + y) == SortByTime(x) + SortByTime(y)
  {
    if |y| == 0 {
      assert x + y == x;
    } else {
      var rest, c := y[..|y| - 1], y[|y| - 1];
      SortSplit(x, rest);
      assert (x + y)[..|x + y| - 1] == x + rest;
      SortOrdered(x);
      forall i | 0 <= i < |SortByTime(x)|
        ensures SortByTime(x)[i].time <= c.time
      {
        assert SortByTime(x)[i] in multiset(SortByTime(x));
      }
      InsertPast(SortByTime(x), SortByTime(rest), c);
    }
  }

  lemma ExtendPast(p: seq<Bar>, s: seq<Bar>, b: Bar, step: int, offset: int)
    requires step > 0 && (|s| == 0 && |p| > 0 ==> p[|p| - 1].time != Key(b.time, step, offset))
    ensures Extend(p + s, b, step, offset) == p + Extend(s, b, step, offset)
  {
  }

  lemma {:induction false} RollSplit(x: seq<Bar>, y: seq<Bar>, step: int, offset: int)
    requires step > 0 && Ordered(x) && Ordered(y)
    requires forall b, c | b in x && c in y :: Key(b.time, step, offset) < Key(c.time, step, offset)
    ensures Roll(x + y, step, offset) == Roll(x, step, offset) + Roll(y, step, offset)
  {
    hide Key, Extend;
    if |y| == 0 {
      assert x + y == x;
    } else {
      var rest, c := y[..|y| - 1], y[|y| - 1];
      RollSplit(x, rest, step, offset);
      assert (x + y)[..|x + y| - 1] == x + rest;
      RollAscending(x, step, offset);
      RollAscending(rest, step, offset);
      if |x| > 0 { assert x[|x| - 1] in x && c in y; }
      ExtendPast(Roll(x, step, offset), Roll(rest, step, offset), c, step, offset);
    }
  }

  /** Aggregating two sets of bars that no bucket straddles is aggregating each
      and joining the results. */
  lemma AggregateSplit(x: seq<Bar>, y: seq<Bar>, step: int, offset: int)
    requires step > 0
    requires forall b, c | b in x && c in y :: Key(b.time, step, offset) < Key(c.time, step, offset)
    ensures Aggregate(x + y, step, offset) == Aggregate(x, step, offset) + Aggregate(y, step, offset)
  {
    hide Key;
    forall b, c | b in x && c in y
      ensures b.time < c.time
    {
      if c.time <= b.time { KeyMonotone(c.time, b.time, step, offset); }
    }
    SortSplit(x, y);
    SortOrdered(x);
    SortOrdered(y);
    var sx, sy := SortByTime(x), SortByTime(y);
    forall b, c | b in sx && c in sy
      ensures Key(b.time, step, offset) < Key(c.time, step, offset)
    {
      assert b in multiset(sx) && c in multiset(sy);
    }
    RollSplit(sx, sy, step, offset);
  }

  // ---------- coarser buckets ----------

  /** Folding a merged bar is folding its two parts in turn. */
  lemma ExtendMerged(out: seq<Bar>, l: Bar, b: Bar, step: int, offset: int)
    requires step > 0 && Key(l.time, step, offset) == Key(b.time, step, offset)
    ensures Extend(out, Merge(l, b), step, offset) == Extend(Extend(out, l, step, offset), b, step, offset)
  {
  }

  lemma RollExtended(fine: seq<Bar>, b: Bar, a: int, k: int, offset: int)
    requires a > 0 && k > 0 && k * a > 0
    ensures Roll(Extend(fine, b, a, offset), k * a, offset) == Extend(Roll(fine, k * a, offset), b, k * a, offset)
  {
    KeyOfKey(b.time, a, k, offset);
    ExtendCases(fine, b, a, offset);
    hide Key, Roll, Merge, Extend;
    var key := Key(b.time, a, offset);
    if |fine| > 0 && fine[|fine| - 1].time == key {
      var before, l := fine[..|fine| - 1], fine[|fine| - 1];
      RollLast(before, Merge(l, b), k * a, offset);
      RollLast(before, l, k * a, offset);
      assert fine == before + [l];
      ExtendMerged(Roll(before, k * a, offset), l, b, k * a, offset);
    } else {
      RollLast(fine, b.(time := key), k * a, offset);
      ExtendSameKey(Roll(fine, k * a, offset), b, key, k * a, offset);
    }
  }

  lemma ExtendCases(out: seq<Bar>, b: Bar, step: int, offset: int)
    requires step > 0
    ensures var key := Key(b.time, step, offset);
            Extend(out, b, step, offset)
            == if |out| > 0 && out[|out| - 1].time == key then out[..|out| - 1] + [Merge(out[|out| - 1], b)]
               else out + [b.(time := key)]
  {
  }

  lemma ExtendSameKey(out: seq<Bar>, b: Bar, time: int, step: int, offset: int)
    requires step > 0 && Key(time, step, offset) == Key(b.time, step, offset)
    ensures Extend(out, b.(time := time), step, offset) == Extend(out, b, step, offset)
  {
  }

  /** Aggregating to a width and then to a multiple of it is aggregating to the
      multiple at once: open, high, low, close and volume alike. */
  lemma {:induction false} RollRoll(s: seq<Bar>, a: int, k: int, offset: int)
    requires a > 0 && k > 0 && k * a > 0
    ensures Roll(Roll(s, a, offset), k * a, offset) == Roll(s, k * a, offset)
  {
    hide Extend;
    if |s| > 0 {
      RollRoll(s[..|s| - 1], a, k, offset);
      RollExtended(Roll(s[..|s| - 1], a, offset), s[|s| - 1], a, k, offset);
    }
  }

  lemma RollLast(s: seq<Bar>, b: Bar, step: int, offset: int)
    requires step > 0
    ensures Roll(s + [b], step, offset) == Extend(Roll(s, step, offset), b, step, offset)
  {
  }

  lemma AggregateTwice(bars: seq<Bar>, a: int, k: int, offset: int)
    requires a > 0 && k > 0 && k * a > 0
    ensures Aggregate(Aggregate(bars, a, offset), k * a, offset) == Aggregate(bars, k * a, offset)
  {
    SortOrdered(bars);
    RollAscending(SortByTime(bars), a, offset);
    SortIdle(Aggregate(bars, a, offset));
    RollRoll(SortByTime(bars), a, k, offset);
  }

  // ---------- what a bucket says ----------

  function Bucket(s: seq<Bar>, step: int, offset: int, key: int): seq<Bar>
    requires step > 0
  {
    if |s| == 0 then []
    else
      var before := Bucket(s[..|s| - 1], step, offset, key);
      if Key(s[|s| - 1].time, step, offset) == key then before + [s[|s| - 1]] else before
  }

  function VolumeIn(g: seq<Bar>): int {
    if |g| == 0 then 0
    else VolumeIn(g[..|g| - 1]) + match g[|g| - 1].volume case Some(v) => v case None => 0
  }

  /** The bar opens with the first of the group, closes with the last, spans the
      highest high and lowest low, and carries the total volume when any of the
      group carries one. */
  ghost predicate Describes(o: Bar, g: seq<Bar>) {
    && |g| > 0
    && o.open == g[0].open && o.close == g[|g| - 1].close
    && (forall i | 0 <= i < |g| :: o.low <= g[i].low && g[i].high <= o.high)
    && (exists i :: 0 <= i < |g| && g[i].high == o.high)
    && (exists i :: 0 <= i < |g| && g[i].low == o.low)
    && (o.volume.None? <==> forall i | 0 <= i < |g| :: g[i].volume.None?)
    && (o.volume.Some? ==> o.volume.value == VolumeIn(g))
  }

  lemma {:induction false} NoVolume(g: seq<Bar>)
    requires forall i | 0 <= i < |g| :: g[i].volume.None?
    ensures VolumeIn(g) == 0
  {
    if |g| > 0 { NoVolume(g[..|g| - 1]); }
  }

  lemma DescribesMerge(o: Bar, g: seq<Bar>, b: Bar)
    requires Describes(o, g)
    ensures Describes(Merge(o, b), g + [b])
  {
    var g', o' := g + [b], Merge(o, b);
    assert g'[..|g|] == g;
    if o.volume.None? { NoVolume(g); }
    var h :| 0 <= h < |g| && g[h].high == o.high;
    var l :| 0 <= l < |g| && g[l].low == o.low;
    assert g'[h] == g[h] && g'[l] == g[l] && g'[|g|] == b;
    assert forall i | 0 <= i < |g'| :: g'[i] == if i < |g| then g[i] else b;
    assert (forall i | 0 <= i < |g'| :: g'[i].volume.None?) <==> (forall i | 0 <= i < |g| :: g[i].volume.None?) && b.volume.None?;
  }

  lemma DescribesOne(b: Bar, key: int)
    ensures Describes(b.(time := key), [b])
  {
  }

  lemma RollNext(s: seq<Bar>, step: int, offset: int, i: nat)
    requires step > 0 && |s| > 0 && Ordered(s) && i < |Roll(s, step, offset)|
    ensures var rest, b := s[..|s| - 1], s[|s| - 1];
            var before, o, key := Roll(rest, step, offset), Roll(s, step, offset)[i], Key(b.time, step, offset);
            && Ordered(rest)
            && (i < |before| && o.time != key ==> o == before[i])
            && (i < |before| && o.time == key ==> o == Merge(before[i], b) && before[i].time == key)
            && (i >= |before| ==> o == b.(time := key) && (|rest| > 0 ==> Key(rest[|rest| - 1].time, step, offset) < key))
  {
    hide Key, Merge;
    var rest := s[..|s| - 1];
    RollAscending(rest, step, offset);
    RollAscending(s, step, offset);
    if |rest| > 0 { KeyMonotone(rest[|rest| - 1].time, s[|s| - 1].time, step, offset); }
  }

  lemma BucketNext(s: seq<Bar>, step: int, offset: int, key: int)
    requires step > 0 && |s| > 0
    ensures var rest, b := s[..|s| - 1], s[|s| - 1];
            Bucket(s, step, offset, key)
            == if Key(b.time, step, offset) == key then Bucket(rest, step, offset, key) + [b] else Bucket(rest, step, offset, key)
  {
  }

  /** Each output bar describes exactly the bars of its bucket. */
  lemma {:induction false} BucketDescribed(s: seq<Bar>, step: int, offset: int, i: nat)
    requires step > 0 && Ordered(s) && i < |Roll(s, step, offset)|
    ensures var o := Roll(s, step, offset)[i];
            Describes(o, Bucket(s, step, offset, o.time))
  {
    if |s| > 0 {
      hide *;
      var rest, b, o := s[..|s| - 1], s[|s| - 1], Roll(s, step, offset)[i];
      RollNext(s, step, offset, i);
      BucketNext(s, step, offset, o.time);
      if i < |Roll(rest, step, offset)| {
        BucketDescribed(rest, step, offset, i);
        var was := Roll(rest, step, offset)[i];
        if o.time == Key(b.time, step, offset) { DescribesMerge(was, Bucket(rest, step, offset, was.time), b); }
      } else {
        BucketEmpty(rest, step, offset, o.time);
        DescribesOne(b, o.time);
        assert [] + [b] == [b];
      }
    }
  }

  lemma {:induction false} BucketEmpty(s: seq<Bar>, step: int, offset: int, key: int)
    requires step > 0 && Ordered(s)
    requires |s| > 0 ==> Key(s[|s| - 1].time, step, offset) < key
    ensures Bucket(s, step, offset, key) == []
  {
    if |s| > 1 {
      KeyMonotone(s[|s| - 2].time, s[|s| - 1].time, step, offset);
      BucketEmpty(s[..|s| - 1], step, offset, key);
    }
  }

  lemma ExtendTimes(out: seq<Bar>, b: Bar, step: int, offset: int)
    requires step > 0
    ensures var after := Extend(out, b, step, offset);
            |out| <= |after| && forall i | 0 <= i < |out| :: after[i].time == out[i].time
  {
  }

  /** No bar is lost: every bar's bucket is in the output. */
  lemma {:induction false} EveryBarCounted(s: seq<Bar>, step: int, offset: int, j: nat)
    requires step > 0 && Ordered(s) && j < |s|
    ensures exists i :: 0 <= i < |Roll(s, step, offset)| && Roll(s, step, offset)[i].time == Key(s[j].time, step, offset)
  {
    RollAscending(s, step, offset);
    if j < |s| - 1 {
      hide Key, Extend;
      var rest := s[..|s| - 1];
      EveryBarCounted(rest, step, offset, j);
      ExtendTimes(Roll(rest, step, offset), s[|s| - 1], step, offset);
      var i :| 0 <= i < |Roll(rest, step, offset)| && Roll(rest, step, offset)[i].time == Key(rest[j].time, step, offset);
      assert Roll(s, step, offset)[i].time == Roll(rest, step, offset)[i].time;
    }
  }

  // ---------- the widened window ----------

  function WidenFrom(from: int, step: int, offset: int): int
    requires step > 0
  {
    Quot(from + offset, step) * step - offset
  }

  function WidenTo(to: int, step: int, offset: int): int
    requires step > 0
  {
    (Quot(to + offset, step) + 1) * step - offset - 1
  }

  /** Every minute of every bucket that the asked-for window touches lies in the
      widened one. */
  ghost predicate HoldsWholeBuckets(from: int, to: int, step: int, offset: int)
    requires step > 0
  {
    forall u, t | from <= u <= to && Key(t, step, offset) == Key(u, step, offset) ::
      WidenFrom(from, step, offset) <= t <= WidenTo(to, step, offset)
  }

  lemma KeyBounds(t: int, step: int, offset: int)
    requires step > 0
    ensures t + offset >= 0 ==> 0 <= Key(t, step, offset) + offset <= t + offset < Key(t, step, offset) + offset + step
    ensures t + offset < 0 ==> Key(t, step, offset) + offset <= 0
  {
    var x := t + offset;
    if x >= 0 {
      DivAtLeast(x, step, 0);
      MulMonotone(0, x / step, step);
    } else {
      DivAtLeast(-x, step, 0);
      MulMonotone(0, (-x) / step, step);
    }
  }

  lemma WidenedKeys(from: int, to: int, step: int, offset: int)
    requires step > 0
    ensures WidenFrom(from, step, offset) == Key(from, step, offset)
    ensures WidenTo(to, step, offset) == Key(to, step, offset) + step - 1
  {
  }

  /** Division truncates toward zero, so the buckets around and before the
      broker's epoch are cut; past the first whole bucket the window is right. */
  lemma WindowWhole(from: int, to: int, step: int, offset: int)
    requires step >= 60 && from <= to
    ensures HoldsWholeBuckets(from, to, step, offset) <==> from + offset >= step
  {
    if from + offset >= step {
      forall u, t | from <= u <= to && Key(t, step, offset) == Key(u, step, offset)
        ensures WidenFrom(from, step, offset) <= t <= WidenTo(to, step, offset)
      {
        WindowHolds(from, to, step, offset, u, t);
      }
    } else {
      WindowCut(from, to, step, offset);
    }
  }

  lemma WindowHolds(from: int, to: int, step: int, offset: int, u: int, t: int)
    requires step > 0 && from + offset >= step && from <= u <= to && Key(t, step, offset) == Key(u, step, offset)
    ensures WidenFrom(from, step, offset) <= t <= WidenTo(to, step, offset)
  {
    FirstKey(from, step, offset);
    hide Key, WidenFrom, WidenTo;
    WidenedKeys(from, to, step, offset);
    KeyMonotone(from, u, step, offset);
    KeyMonotone(u, to, step, offset);
    KeyBounds(t, step, offset);
  }

  lemma FirstKey(from: int, step: int, offset: int)
    requires step > 0 && from + offset >= step
    ensures Key(from, step, offset) + offset >= step
  {
    DivAtLeast(from + offset, step, 1);
    MulMonotone(1, (from + offset) / step, step);
  }

  lemma WindowCut(from: int, to: int, step: int, offset: int)
    requires step >= 60 && from + offset < step && from <= to
    ensures !HoldsWholeBuckets(from, to, step, offset)
  {
    var k := Key(from, step, offset);
    var p := -Quot(from + offset, step);
    if from + offset >= 0 {
      DivAtMost(from + offset, step, 0);
      DivAtLeast(from + offset, step, 0);
    } else {
      DivAtLeast(-(from + offset), step, 0);
    }
    MulMonotone(0, p, step);
    var x := p * step + 1;
    assert k + offset == -(p * step);
    DivAtLeast(x, step, p);
    DivAtMost(x, step, p);
    assert Key(k - 1, step, offset) == k;
  }
}
