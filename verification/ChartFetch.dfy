/** Fetching a long window of one-minute bars in bounded chunks, newest first. */
module ChartFetch {
  import opened Market
  import opened Chart

  const CHUNK_SECONDS := 10_368_000
  const MAX_CHUNKS: nat := 25

  /** The upstream's bars whose time lies in a window, both ends included. */
  function Window(all: seq<Bar>, lo: int, hi: int): seq<Bar> {
    if |all| == 0 then []
    else
      var before := Window(all[..|all| - 1], lo, hi);
      if lo <= all[|all| - 1].time <= hi then before + [all[|all| - 1]] else before
  }

  lemma {:induction false} WindowMembers(all: seq<Bar>, lo: int, hi: int)
    requires Ascending(all)
    ensures var w := Window(all, lo, hi);
            Ascending(w) && forall b :: b in w <==> b in all && lo <= b.time <= hi
  {
    if |all| > 0 {
      var rest, last := all[..|all| - 1], all[|all| - 1];
      assert all == rest + [last];
      AscendingRest(all, rest, last);
      WindowMembers(rest, lo, hi);
      WindowLast(Window(rest, lo, hi), rest, last, lo, hi);
    }
  }

  lemma AscendingRest(all: seq<Bar>, rest: seq<Bar>, last: Bar)
    requires all == rest + [last] && Ascending(all)
    ensures Ascending(rest) && forall b | b in rest :: b.time < last.time
  {
    assert all[|rest|] == last;
    forall i | 0 <= i < |rest|
      ensures rest[i].time < last.time && forall j | i < j < |rest| :: rest[i].time < rest[j].time
    {
      assert all[i] == rest[i];
      assert forall j | i < j < |rest| :: all[j] == rest[j];
    }
  }

  lemma WindowLast(w: seq<Bar>, rest: seq<Bar>, last: Bar, lo: int, hi: int)
    requires Ascending(w) && (forall b :: b in w <==> b in rest && lo <= b.time <= hi)
    requires forall b | b in rest :: b.time < last.time
    ensures var w' := if lo <= last.time <= hi then w + [last] else w;
            Ascending(w') && forall b :: b in w' <==> b in rest + [last] && lo <= b.time <= hi
  {
  }

  lemma {:induction false} WindowSplit(all: seq<Bar>, lo: int, mid: int, hi: int)
    requires Ascending(all) && lo <= mid + 1 && mid <= hi
    ensures Window(all, lo, hi) == Window(all, lo, mid) + Window(all, mid + 1, hi)
  {
    if |all| > 0 {
      var rest, b := all[..|all| - 1], all[|all| - 1];
      WindowSplit(rest, lo, mid, hi);
      if b.time <= mid { WindowBelow(rest, mid + 1, hi, b.time); }
    }
  }

  lemma {:induction false} WindowBelow(all: seq<Bar>, lo: int, hi: int, bound: int)
    requires (forall i | 0 <= i < |all| :: all[i].time < bound) && bound <= lo
    ensures Window(all, lo, hi) == []
  {
    if |all| > 0 { WindowBelow(all[..|all| - 1], lo, hi, bound); }
  }

  lemma SomeBar(s: seq<Bar>)
    ensures s == [] || exists b :: b in s
  {
    if s != [] { assert s[0] in s; }
  }

  lemma LastSame(s: seq<Bar>, t: seq<Bar>)
    requires Ordered(s) && Ascending(t) && multiset(s) == multiset(t) && |s| > 0
    ensures |t| > 0 && s[|s| - 1] == t[|t| - 1]
  {
    var x := s[|s| - 1];
    assert x in multiset(t);
    var i :| 0 <= i < |t| && t[i] == x;
    var y := t[|t| - 1];
    assert y in multiset(s);
    var j :| 0 <= j < |s| && s[j] == y;
  }

  lemma DropLast(s: seq<Bar>)
    requires |s| > 0
    ensures multiset(s[..|s| - 1]) == multiset(s) - multiset{s[|s| - 1]}
    ensures Ordered(s) ==> Ordered(s[..|s| - 1])
    ensures Ascending(s) ==> Ascending(s[..|s| - 1])
  {
    assert s == s[..|s| - 1] + [s[|s| - 1]];
  }

  lemma {:induction false} AscendingUnique(s: seq<Bar>, t: seq<Bar>)
    requires Ordered(s) && Ascending(t) && multiset(s) == multiset(t)
    ensures s == t
  {
    hide Ordered, Ascending;
    if |s| > 0 {
      LastSame(s, t);
      DropLast(s);
      DropLast(t);
      AscendingUnique(s[..|s| - 1], t[..|t| - 1]);
      assert s == s[..|s| - 1] + [s[|s| - 1]] && t == t[..|t| - 1] + [t[|t| - 1]];
    }
  }

  /** The first instant that the walk did not reach, walking down from end. */
  function Stop(all: seq<Bar>, fails: nat -> bool, from: int, end: int, chunk: nat): (r: int)
    ensures r <= end && (end >= from ==> r >= from - 1)
    decreases MAX_CHUNKS - chunk
  {
    if chunk >= MAX_CHUNKS || end <= from then end
    else
      var start := if end - CHUNK_SECONDS < from then from else end - CHUNK_SECONDS;
      if fails(chunk) || Window(all, start, end) == [] then end
      else Stop(all, fails, from, start - 1, chunk + 1)
  }

  function Dedup(s: seq<Bar>): seq<Bar> {
    if |s| == 0 then []
    else if |s| > 1 && s[|s| - 1].time == s[|s| - 2].time then Dedup(s[..|s| - 1])
    else Dedup(s[..|s| - 1]) + [s[|s| - 1]]
  }

  lemma {:induction false} DedupIdle(s: seq<Bar>)
    requires Ascending(s)
    ensures Dedup(s) == s
  {
    if |s| > 0 {
      DedupIdle(s[..|s| - 1]);
      assert s == s[..|s| - 1] + [s[|s| - 1]];
    }
  }

  method DropRepeats(s: seq<Bar>) returns (out: seq<Bar>)
    ensures out == Dedup(s)
  {
    out := [];
    for i := 0 to |s|
      invariant out == Dedup(s[..i])
    {
      assert s[..i + 1][..i] == s[..i];
      if i > 0 && s[i].time == s[i - 1].time { continue; }
      out := out + [s[i]];
    }
    assert s[..|s|] == s;
  }

  lemma Limits()
    ensures MAX_CHUNKS > 0 && CHUNK_SECONDS > 0
  {
  }

  /** The chunk loop: false when the very first chunk fails. */
  method WalkChunks(all: seq<Bar>, fails: nat -> bool, from: int, to: int) returns (ok: bool, collected: seq<Bar>, end: int)
    requires Ascending(all) && from < to
    ensures ok <==> !fails(0)
    ensures ok ==> end == Stop(all, fails, from, to, 0) && Gathered(all, collected, end + 1, to)
  {
    Limits();
    hide *;
    collected, end := [], to;
    var chunk := 0;
    GatheredNone(all, to);
    while chunk < MAX_CHUNKS && end > from
      invariant chunk == 0 ==> end == to && collected == []
      invariant chunk > 0 ==> |collected| > 0 && !fails(0)
      invariant end <= to && Gathered(all, collected, end + 1, to)
      invariant Stop(all, fails, from, end, chunk) == Stop(all, fails, from, to, 0)
      decreases MAX_CHUNKS - chunk
    {
      var start := end - CHUNK_SECONDS;
      if start < from { start := from; }
      StopStep(all, fails, from, end, chunk, start);
      if fails(chunk) {
        ok := |collected| > 0;
        return;
      }
      var got := Window(all, start, end);
      if |got| == 0 {
        ok := true;
        return;
      }
      GatheredMore(all, collected, start, end, to);
      collected, end, chunk := collected + got, start - 1, chunk + 1;
    }
    StopDone(all, fails, from, end, chunk);
    ok := true;
  }

  /** Over an upstream that answers a window with exactly its bars, the result
      is the bars of a window that ends where asked: never a hole, ascending,
      no time twice, whatever chunks fail after the first. */
  method FetchRange(all: seq<Bar>, fails: nat -> bool, from: int, to: int) returns (ok: bool, bars: seq<Bar>)
    requires Ascending(all)
    ensures ok <==> !fails(0)
    ensures ok ==> bars == Window(all, if to - from <= CHUNK_SECONDS then from else Stop(all, fails, from, to, 0) + 1, to)
    ensures !ok ==> bars == []
  {
    if to - from <= CHUNK_SECONDS {
      if fails(0) { return false, []; }
      return true, Window(all, from, to);
    }
    var collected, end;
    ok, collected, end := WalkChunks(all, fails, from, to);
    if !ok { return false, []; }
    CollectedExact(all, collected, end + 1, to);
    bars := DropRepeats(SortByTime(collected));
  }

  ghost predicate Gathered(all: seq<Bar>, collected: seq<Bar>, lo: int, hi: int) {
    multiset(collected) == multiset(Window(all, lo, hi))
  }

  lemma GatheredNone(all: seq<Bar>, to: int)
    requires Ascending(all)
    ensures Gathered(all, [], to + 1, to)
  {
    WindowEmpty(all, to + 1, to);
  }

  lemma GatheredMore(all: seq<Bar>, collected: seq<Bar>, start: int, end: int, to: int)
    requires Ascending(all) && start <= end + 1 && end <= to && Gathered(all, collected, end + 1, to)
    ensures Gathered(all, collected + Window(all, start, end), start, to)
  {
    WindowSplit(all, start, end, to);
  }

  lemma StopStep(all: seq<Bar>, fails: nat -> bool, from: int, end: int, chunk: nat, start: int)
    requires chunk < MAX_CHUNKS && end > from && start == if end - CHUNK_SECONDS < from then from else end - CHUNK_SECONDS
    ensures Stop(all, fails, from, end, chunk)
            == if fails(chunk) || |Window(all, start, end)| == 0 then end else Stop(all, fails, from, start - 1, chunk + 1)
  {
  }

  lemma CollectedExact(all: seq<Bar>, collected: seq<Bar>, lo: int, hi: int)
    requires Ascending(all) && Gathered(all, collected, lo, hi)
    ensures Dedup(SortByTime(collected)) == Window(all, lo, hi)
  {
    SortOrdered(collected);
    WindowMembers(all, lo, hi);
    AscendingUnique(SortByTime(collected), Window(all, lo, hi));
    DedupIdle(Window(all, lo, hi));
  }

  lemma WindowEmpty(all: seq<Bar>, lo: int, hi: int)
    requires Ascending(all) && hi < lo
    ensures Window(all, lo, hi) == []
  {
  }

  // ---------- completeness ----------

  const STRIDE := CHUNK_SECONDS + 1

  /** Every chunk the walk asks for has a bar. */
  predicate AllFull(all: seq<Bar>, from: int, end: int, chunk: nat)
    decreases MAX_CHUNKS - chunk
  {
    chunk < MAX_CHUNKS && end > from ==>
      var start := if end - CHUNK_SECONDS < from then from else end - CHUNK_SECONDS;
      Window(all, start, end) != [] && AllFull(all, from, start - 1, chunk + 1)
  }

  /** How far above the window's first second an undisturbed walk of at most n
      chunks ends, starting at a distance d: at the chunk limit, or one second
      below, or, when strides fill the distance exactly, right on it. */
  function Rest(d: int, n: nat): int {
    if d > n * STRIDE then d - n * STRIDE else if d % STRIDE == 0 then 0 else -1
  }

  lemma RestNext(d: int, n: nat)
    requires n > 0
    ensures Rest(d - STRIDE, n - 1) == Rest(d, n)
    ensures 0 < d < STRIDE ==> Rest(d, n) == -1
    ensures Rest(0, n) == 0
    ensures d >= 0 ==> Rest(d, 0) == d
  {
    assert (d - STRIDE) % STRIDE == d % STRIDE;
    assert (n - 1) * STRIDE == n * STRIDE - STRIDE;
  }

  lemma StopNext(all: seq<Bar>, fails: nat -> bool, from: int, end: int, chunk: nat)
    requires chunk < MAX_CHUNKS && end > from && AllFull(all, from, end, chunk) && !fails(chunk)
    ensures var next := if end - from < STRIDE then from - 1 else end - STRIDE;
            Stop(all, fails, from, end, chunk) == Stop(all, fails, from, next, chunk + 1) && AllFull(all, from, next, chunk + 1)
  {
  }

  lemma StopDone(all: seq<Bar>, fails: nat -> bool, from: int, end: int, chunk: nat)
    ensures chunk >= MAX_CHUNKS || end <= from ==> Stop(all, fails, from, end, chunk) == end
  {
  }

  lemma {:induction false} StopExact(all: seq<Bar>, fails: nat -> bool, from: int, end: int, chunk: nat)
    requires chunk <= MAX_CHUNKS && end >= from && AllFull(all, from, end, chunk)
    requires forall k | chunk <= k < MAX_CHUNKS :: !fails(k)
    ensures Stop(all, fails, from, end, chunk) == from + Rest(end - from, MAX_CHUNKS - chunk)
    decreases MAX_CHUNKS - chunk
  {
    hide Stop, AllFull, Rest;
    if chunk < MAX_CHUNKS {
      RestNext(end - from, MAX_CHUNKS - chunk);
      if end > from {
        StopNext(all, fails, from, end, chunk);
        if end - from < STRIDE {
          StopDone(all, fails, from, from - 1, chunk + 1);
        } else {
          StopExact(all, fails, from, end - STRIDE, chunk + 1);
        }
      } else {
        StopDone(all, fails, from, end, chunk);
      }
    } else {
      RestNext(end - from, 1);
      StopDone(all, fails, from, end, chunk);
    }
  }

  /** A long window with no failing and no empty chunk comes back complete if and
      only if 25 chunks reach it and it is not an exact number of strides with a
      bar on its first second: the loop stops short of that second. */
  lemma CompleteIff(all: seq<Bar>, fails: nat -> bool, from: int, to: int)
    requires Ascending(all) && to - from > CHUNK_SECONDS && AllFull(all, from, to, 0)
    requires forall k | 0 <= k < MAX_CHUNKS :: !fails(k)
    ensures to - from <= MAX_CHUNKS * STRIDE ==>
              (Window(all, Stop(all, fails, from, to, 0) + 1, to) == Window(all, from, to)
               <==> (to - from) % STRIDE != 0 || forall b | b in all :: b.time != from)
    ensures to - from > MAX_CHUNKS * STRIDE ==> Stop(all, fails, from, to, 0) == to - MAX_CHUNKS * STRIDE
  {
    RestCases(to - from);
    Limits();
    hide *;
    StopExact(all, fails, from, to, 0);
    FirstSecond(all, from, to);
  }

  lemma RestCases(d: int)
    ensures Rest(d, MAX_CHUNKS)
            == if d > MAX_CHUNKS * STRIDE then d - MAX_CHUNKS * STRIDE else if d % STRIDE == 0 then 0 else -1
  {
  }

  lemma FirstSecond(all: seq<Bar>, from: int, to: int)
    requires Ascending(all) && from <= to
    ensures Window(all, from + 1, to) == Window(all, from, to) <==> forall b | b in all :: b.time != from
  {
    WindowSplit(all, from, from, to);
    WindowMembers(all, from, from);
    var first := Window(all, from, from);
    if b :| b in all && b.time == from {
      assert b in first;
    } else {
      SomeBar(first);
    }
  }

  function Minute(t: int): Bar {
    Bar(t, 1.0, 1.0, 1.0, 1.0, None)
  }

  /** A window one stride long with a bar on its first second loses that bar. */
  lemma FirstBarLost()
    ensures var all := [Minute(0), Minute(60)];
            && Window(all, Stop(all, _ => false, 0, STRIDE, 0) + 1, STRIDE) == [Minute(60)]
            && Window(all, 0, STRIDE) == all
  {
    WindowTwo(Minute(0), Minute(60), 1, STRIDE);
    WindowTwo(Minute(0), Minute(60), 0, STRIDE);
  }

  lemma WindowTwo(a: Bar, b: Bar, lo: int, hi: int)
    ensures Window([a, b], lo, hi)
            == (if lo <= a.time <= hi then [a] else []) + (if lo <= b.time <= hi then [b] else [])
  {
    assert [a, b][..1] == [a] && [a][..0] == [];
    assert Window([a], lo, hi) == if lo <= a.time <= hi then [a] else [];
  }
}
