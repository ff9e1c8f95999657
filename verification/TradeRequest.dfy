/** Rewriting a client's trade request into the dealer's field names and its
    order-duration pair. A request is its parsed fields. */
module TradeRequest {
  import opened Market

  /** A field's lower-case name. */
  datatype Name =
    | TypeTime | TypeTimeSnake
    | Expiration | TimeExpiration | Expiry | ExpireTime
    | Duration
    | ClientRequestId | IdempotencyKey | IdempotencyKeySnake
    | Action | Login | Symbol | Volume | TypeFill | OrderType | PriceOrder | Digits | PriceTrigger
    | OrderTicket | PositionTicket | PriceSL | PriceTP
    | Unknown(lower: string)

  /** How the key was written: the dealer's own way, or some other casing. */
  datatype Spelling = Dealer | Variant(text: string)

  datatype Key = Key(name: Name, spelling: Spelling)

  /** A JSON value, as far as it matters here. Numbers may arrive quoted. A block
      is an object with a type and perhaps a datetime. */
  datatype Value =
    | Null
    | Number(v: real)
    | QuotedNumber(v: real)
    | Quoted(text: string)
    | Block(text: string, kind: string, at: Option<int>)
    | Other(text: string)

  type Fields = map<Key, Value>

  const TYPE_TIME := Key(TypeTime, Dealer)
  const TIME_EXPIRATION := Key(TimeExpiration, Dealer)
  const ACTION := Key(Action, Dealer)

  const TYPE_TIME_NAMES: seq<Name> := [TypeTime, TypeTimeSnake]
  const EXPIRATION_NAMES: seq<Name> := [Expiration, TimeExpiration, Expiry, ExpireTime]

  predicate ClientOnly(n: Name) {
    n in {ClientRequestId, IdempotencyKey, IdempotencyKeySnake}
  }

  /** The names that the dealer's parser knows. */
  predicate DealerField(n: Name) {
    n in {Action, Login, Symbol, Volume, TypeFill, OrderType, PriceOrder, Digits, PriceTrigger,
          OrderTicket, PositionTicket, PriceSL, PriceTP, TypeTime, TimeExpiration}
  }

  const GTC := 0
  const DAY := 1
  const SPECIFIED := 2
  const SPECIFIED_DAY := 3

  predicate IsSpecified(typeTime: int) {
    typeTime == SPECIFIED || typeTime == SPECIFIED_DAY
  }

  // ---------- values ----------

  /** Fractions are cut off. */
  function Truncated(v: real): int {
    if v >= 0.0 then v.Floor else -((-v).Floor)
  }

  lemma TruncatesTowardZero(v: real)
    ensures v >= 0.0 ==> 0 <= Truncated(v) && v - 1.0 < Truncated(v) as real <= v
    ensures v <= 0.0 ==> Truncated(v) <= 0 && v <= Truncated(v) as real < v + 1.0
  {
  }

  function AsInt(v: Value): Option<int> {
    match v
    case Number(x) => Some(Truncated(x))
    case QuotedNumber(x) => Some(Truncated(x))
    case _ => None
  }

  function IntValue(n: int): Value {
    Number(n as real)
  }

  lemma IntValueReads(n: int)
    ensures AsInt(IntValue(n)) == Some(n)
  {
  }

  function UpperChar(c: char): char {
    if 'a' <= c <= 'z' then (c as int - 32) as char else c
  }

  function Upper(s: string): string {
    if |s| == 0 then "" else [UpperChar(s[0])] + Upper(s[1..])
  }

  function TrimLeft(s: string): string {
    if |s| > 0 && s[0] in {' ', '\t', '\n', '\r'} then TrimLeft(s[1..]) else s
  }

  function TrimRight(s: string): string {
    if |s| > 0 && s[|s| - 1] in {' ', '\t', '\n', '\r'} then TrimRight(s[..|s| - 1]) else s
  }

  /** The order lifetime that a client's duration name stands for. */
  function FromDuration(kind: string, at: int): (int, int) {
    var name := Upper(TrimRight(TrimLeft(kind)));
    if name == "DAY" then (DAY, 0)
    else if name == "GTD" || name == "SPECIFIED" then (if at > 0 then (SPECIFIED, at) else (GTC, 0))
    else (GTC, 0)
  }

  // ---------- looking fields up ----------

  /** The key of each lower-case name; of several, the last one walked. */
  function Index(walk: seq<Key>): map<Name, Key> {
    if |walk| == 0 then map[] else Index(walk[..|walk| - 1])[walk[|walk| - 1].name := walk[|walk| - 1]]
  }

  function Lookup(f: Fields, index: map<Name, Key>, names: seq<Name>): Option<int> {
    if |names| == 0 then None
    else if names[0] in index && index[names[0]] in f && AsInt(f[index[names[0]]]).Some? then AsInt(f[index[names[0]]])
    else Lookup(f, index, names[1..])
  }

  function LookupDuration(f: Fields, index: map<Name, Key>): Option<(string, int)> {
    if Duration in index && index[Duration] in f && f[index[Duration]].Block? && f[index[Duration]].kind != ""
    then Some((f[index[Duration]].kind, match f[index[Duration]].at case Some(t) => t case None => 0))
    else None
  }

  /** TypeTime and TimeExpiration to be written, where each is to be. */
  datatype Lifetime = Lifetime(typeTime: Option<int>, expiration: Option<int>)

  function Decide(f: Fields, index: map<Name, Key>): Lifetime {
    var typeTime := Lookup(f, index, TYPE_TIME_NAMES);
    var expiration := Lookup(f, index, EXPIRATION_NAMES);
    var l :=
      match LookupDuration(f, index)
      case Some((kind, at)) =>
        if typeTime.Some? then Lifetime(typeTime, expiration)
        else
          var r := FromDuration(kind, match expiration case Some(e) => e case None => at);
          Lifetime(Some(r.0), Some(r.1))
      case None => Lifetime(typeTime, expiration);
    var e := match l.expiration case Some(e) => e case None => 0;
    var t := if l.expiration.Some? && l.typeTime.None? && e > 0 then Some(SPECIFIED) else l.typeTime;
    var u := if t.Some? && IsSpecified(t.value) && e <= 0 then Some(GTC) else t;
    Lifetime(u, if u.Some? || l.expiration.Some?
                then Some(if u.Some? && IsSpecified(u.value) then e else 0) else None)
  }

  /** Keys that the rewrite drops: client spellings of the duration fields, the
      duration block and what only the gateway reads. */
  predicate Dropped(k: Key) {
    || (k.name in TYPE_TIME_NAMES && k != TYPE_TIME)
    || (k.name in EXPIRATION_NAMES && k != TIME_EXPIRATION)
    || k.name == Duration || ClientOnly(k.name)
  }

  function Written(f: Fields, l: Lifetime): Fields {
    var f1 := if l.typeTime.Some? then f[TYPE_TIME := IntValue(l.typeTime.value)] else f;
    if l.expiration.Some? then f1[TIME_EXPIRATION := IntValue(l.expiration.value)] else f1
  }

  function Rewritten(f: Fields, index: map<Name, Key>): Fields {
    var g := Written(f, Decide(f, index));
    map k | k in g && !(Dropped(k) && k.name in index && index[k.name] == k) :: g[k]
  }

  // ---------- the dealer's spelling ----------

  function Respelled(k: Key): Key {
    if DealerField(k.name) then Key(k.name, Dealer) else k
  }

  function RespellOne(f: Fields, k: Key): Fields {
    if k !in f || Respelled(k) == k then f
    else if Respelled(k) in f then f - {k}
    else f[Respelled(k) := f[k]] - {k}
  }

  function Respell(f: Fields, walk: seq<Key>): Fields {
    if |walk| == 0 then f else RespellOne(Respell(f, walk[..|walk| - 1]), walk[|walk| - 1])
  }

  /** The dealer wants Action as a string. */
  function QuotedValue(v: Value): Value {
    match v
    case Number(x) => QuotedNumber(x)
    case Block(text, _, _) => Quoted(text)
    case Other(text) => Quoted(text)
    case _ => v
  }

  function QuoteAction(f: Fields): Fields {
    if ACTION in f then f[ACTION := QuotedValue(f[ACTION])] else f
  }

  function Normalized(f: Fields, indexing: seq<Key>, respelling: seq<Key>): Fields {
    QuoteAction(Respell(Rewritten(f, Index(indexing)), respelling))
  }

  /** A walk meets every key of the map once. */
  predicate Covers(walk: seq<Key>, f: Fields) {
    && (forall i | 0 <= i < |walk| :: walk[i] in f) && (forall k | k in f :: k in walk)
    && (forall i, j | 0 <= i < j < |walk| :: walk[i] != walk[j])
  }

  lemma HasKey(s: set<Key>)
    ensures s == {} || exists k :: k in s
  {
  }

  /** A walk so far: some of the keys, each once. */
  predicate Walked(walk: seq<Key>, done: set<Key>) {
    && (forall i | 0 <= i < |walk| :: walk[i] in done) && (forall k | k in done :: k in walk)
    && (forall i, j | 0 <= i < j < |walk| :: walk[i] != walk[j])
  }

  lemma WalkedMore(walk: seq<Key>, done: set<Key>, k: Key)
    requires Walked(walk, done) && k !in done
    ensures Walked(walk + [k], done + {k})
  {
    assert forall i | 0 <= i < |walk| :: walk[i] in done;
  }

  lemma NothingWalked(f: Fields)
    ensures Walked([], f.Keys - f.Keys) && Respell(f, []) == f
  {
  }

  lemma WalkedAll(walk: seq<Key>, f: Fields)
    requires Walked(walk, f.Keys)
    ensures Covers(walk, f)
  {
  }

  lemma RespellMore(f: Fields, walk: seq<Key>, k: Key)
    ensures Respell(f, walk + [k]) == RespellOne(Respell(f, walk), k)
  {
    assert (walk + [k])[..|walk|] == walk;
  }

  method IndexKeys(f: Fields) returns (index: map<Name, Key>, ghost walk: seq<Key>)
    ensures Covers(walk, f) && index == Index(walk)
    ensures CaseDistinct(f) ==> forall k | k in f :: k.name in index && index[k.name] == k
  {
    index, walk := map[], [];
    var rest := f.Keys;
    while rest != {}
      invariant rest <= f.Keys && index == Index(walk)
      invariant Walked(walk, f.Keys - rest)
      decreases rest
    {
      HasKey(rest);
      var k :| k in rest;
      WalkedMore(walk, f.Keys - rest, k);
      assert f.Keys - rest + {k} == f.Keys - (rest - {k});
      assert (walk + [k])[..|walk|] == walk;
      index, walk, rest := index[k.name := k], walk + [k], rest - {k};
    }
    if CaseDistinct(f) {
      forall k | k in f
        ensures k.name in index && index[k.name] == k
      {
        IndexOwn(walk, f, k);
      }
    }
  }

  /** The loop over a map that it adds to and deletes from: keys it adds are the
      dealer's own and are left alone when met. */
  method RespellKeys(f: Fields) returns (out: Fields, ghost walk: seq<Key>)
    ensures Covers(walk, f) && out == Respell(f, walk)
    ensures CaseDistinct(f) ==> forall k | k in f :: Respelled(k) in out && out[Respelled(k)] == f[k]
  {
    hide Respell, Walked, Covers, CaseDistinct, Respelt, Index;
    out, walk := f, [];
    var rest := f.Keys;
    NothingWalked(f);
    while rest != {}
      invariant rest <= f.Keys && out == Respell(f, walk)
      invariant Walked(walk, f.Keys - rest)
      decreases rest
    {
      HasKey(rest);
      var k :| k in rest;
      WalkedMore(walk, f.Keys - rest, k);
      assert f.Keys - rest + {k} == f.Keys - (rest - {k});
      RespellMore(f, walk, k);
      if k in out && DealerField(k.name) && k.spelling != Dealer {
        if Key(k.name, Dealer) !in out { out := out[Key(k.name, Dealer) := out[k]]; }
        out := out - {k};
      }
      walk, rest := walk + [k], rest - {k};
    }
    assert f.Keys - rest == f.Keys;
    WalkedAll(walk, f);
    if CaseDistinct(f) {
      RespellEnds(f, walk);
      forall k | k in f
        ensures Respelled(k) in out && out[Respelled(k)] == f[k]
      {
        OneSpelling(f, out, k);
      }
    }
  }

  method DropNames(f: Fields, index: map<Name, Key>, names: seq<Name>) returns (out: Fields)
    ensures out == map k | k in f && !(k.name in names && k.name in index && index[k.name] == k && k != TYPE_TIME && k != TIME_EXPIRATION) :: f[k]
  {
    out := f;
    for i := 0 to |names|
      invariant out == map k | k in f && !(k.name in names[..i] && k.name in index && index[k.name] == k && k != TYPE_TIME && k != TIME_EXPIRATION) :: f[k]
    {
      var n := names[i];
      assert names[..i + 1] == names[..i] + [n];
      if n in index && index[n].name == n && index[n] != TYPE_TIME && index[n] != TIME_EXPIRATION {
        out := out - {index[n]};
      }
    }
    assert names[..|names|] == names;
  }

  const DROPPED_NAMES: seq<Name> := TYPE_TIME_NAMES + EXPIRATION_NAMES + [Duration, ClientRequestId, IdempotencyKey, IdempotencyKeySnake]

  method Normalize(f: Fields) returns (out: Fields, ghost indexing: seq<Key>, ghost respelling: seq<Key>)
    ensures Covers(indexing, f) && Covers(respelling, Rewritten(f, Index(indexing)))
    ensures out == Normalized(f, indexing, respelling)
    ensures CaseDistinct(f) ==> Settled(out) && StandsFor(f, Read(out, TYPE_TIME), Read(out, TIME_EXPIRATION))
  {
    hide StandsFor, Read, Covers, Index, Decide, CaseDistinct, Rewritten, Respell, Settled, Respelled;
    var index;
    index, indexing := IndexKeys(f);
    var l := Decide(f, index);
    out := f;
    if l.typeTime.Some? { out := out[TYPE_TIME := IntValue(l.typeTime.value)]; }
    if l.expiration.Some? { out := out[TIME_EXPIRATION := IntValue(l.expiration.value)]; }
    assert out == Written(f, l);
    out := DropNames(out, index, DROPPED_NAMES);
    DropsAll(f, index);
    out, respelling := RespellKeys(out);
    if ACTION in out { out := out[ACTION := QuotedValue(out[ACTION])]; }
    if CaseDistinct(f) {
      NormalizeSettles(f, indexing, respelling);
      LifetimeSent(f, indexing, respelling);
    }
  }

  lemma DropsAll(f: Fields, index: map<Name, Key>)
    ensures var g := Written(f, Decide(f, index));
            Rewritten(f, index)
            == map k | k in g && !(k.name in DROPPED_NAMES && k.name in index && index[k.name] == k && k != TYPE_TIME && k != TIME_EXPIRATION) :: g[k]
  {
    hide Decide, Written;
    forall k: Key
      ensures Dropped(k) <==> k.name in DROPPED_NAMES && k != TYPE_TIME && k != TIME_EXPIRATION
    {
    }
  }

  // ---------- requests that are already normal ----------

  /** Only dealer spellings, nothing for the gateway, Action a string, and a
      duration pair in which the deadline is set exactly for the lifetimes that
      need one. */
  ghost predicate Settled(f: Fields) {
    && (forall k | k in f :: !Dropped(k) && Respelled(k) == k)
    && (ACTION in f ==> QuotedValue(f[ACTION]) == f[ACTION])
    && PairSettled(f)
  }

  function Read(f: Fields, k: Key): Option<int> {
    if k in f then AsInt(f[k]) else None
  }

  predicate PairSettled(f: Fields) {
    match Read(f, TYPE_TIME)
    case Some(t) =>
      f[TYPE_TIME] == IntValue(t)
      && (match Read(f, TIME_EXPIRATION)
          case Some(e) => f[TIME_EXPIRATION] == IntValue(e) && (if IsSpecified(t) then e > 0 else e == 0)
          case None => false)
    case None =>
      (match Read(f, TIME_EXPIRATION)
       case Some(e) => f[TIME_EXPIRATION] == IntValue(e) && e == 0
       case None => true)
  }

  /** No two keys differ only by case. */
  predicate CaseDistinct(f: Fields) {
    forall j, k | j in f && k in f && j.name == k.name :: j == k
  }

  lemma {:induction false} IndexHas(walk: seq<Key>, n: Name)
    ensures n in Index(walk) <==> exists i :: 0 <= i < |walk| && walk[i].name == n
    ensures n in Index(walk) ==> Index(walk)[n] in walk && Index(walk)[n].name == n
  {
    if |walk| > 0 {
      var rest, last := walk[..|walk| - 1], walk[|walk| - 1];
      IndexHas(rest, n);
      assert walk == rest + [last];
      if last.name == n { assert walk[|walk| - 1].name == n; }
    }
  }

  lemma IndexOwn(walk: seq<Key>, f: Fields, k: Key)
    requires CaseDistinct(f) && Covers(walk, f) && k in f
    ensures k.name in Index(walk) && Index(walk)[k.name] == k
  {
    IndexHas(walk, k.name);
    var i :| 0 <= i < |walk| && walk[i] == k;
  }

  // ---------- respelling ----------

  lemma RespelledKey(k: Key)
    ensures Respelled(k).name == k.name && Respelled(Respelled(k)) == Respelled(k)
    ensures Respelled(k) == if DealerField(k.name) then Key(k.name, Dealer) else k
  {
  }

  /** The value under j is that of a key that is spelled so, or respelled so; if
      the request had j itself, its own. */
  ghost predicate Stems(g: Fields, j: Key, v: Value) {
    exists k :: k in g && Respelled(k) == j && g[k] == v && (j in g ==> k == j)
  }

  /** Part of the way: the keys met have given way to the dealer's spelling, the
      others are as they were. */
  ghost predicate Partway(g: Fields, met: seq<Key>, r: Fields) {
    && (forall j | j in r :: if Respelled(j) == j then Stems(g, j, r[j]) else j in g && j !in met && r[j] == g[j])
    && (forall k | k in g :: if k in met then Respelled(k) in r else k in r)
  }

  /** Only the dealer's spellings are left, each with a value of its field. */
  ghost predicate Respelt(g: Fields, r: Fields) {
    && (forall j | j in r :: Respelled(j) == j && Stems(g, j, r[j]))
    && (forall k | k in g :: Respelled(k) in r)
  }

  lemma PartwayStep(g: Fields, met: seq<Key>, r: Fields, k: Key)
    requires Partway(g, met, r) && k in g
    ensures Partway(g, met + [k], RespellOne(r, k))
  {
    RespelledKey(k);
    hide Respelled;
    var q, r' := Respelled(k), RespellOne(r, k);
    if k in r && q != k && q !in r {
      assert q in g ==> q !in met;
      assert Stems(g, q, g[k]);
    }
    forall j | j in g
      ensures if j in met + [k] then Respelled(j) in r' else j in r'
    {
      RespelledKey(j);
    }
  }

  lemma {:induction false} RespellPartway(g: Fields, walk: seq<Key>)
    requires forall i | 0 <= i < |walk| :: walk[i] in g
    ensures Partway(g, walk, Respell(g, walk))
  {
    if |walk| > 0 {
      var rest, last := walk[..|walk| - 1], walk[|walk| - 1];
      hide RespellOne, Partway;
      RespellPartway(g, rest);
      assert walk == rest + [last];
      PartwayStep(g, rest, Respell(g, rest), last);
    } else {
      forall j | j in g && Respelled(j) == j
        ensures Stems(g, j, g[j])
      {
      }
    }
  }

  /** What respelling leaves, however the keys are walked. */
  lemma RespellEnds(g: Fields, walk: seq<Key>)
    requires Covers(walk, g)
    ensures Respelt(g, Respell(g, walk))
  {
    RespellPartway(g, walk);
    hide Respelled, Respell;
  }

  lemma {:induction false} RespellKeeps(r: Fields, walk: seq<Key>, q: Key)
    requires q in r && Respelled(q) == q
    ensures q in Respell(r, walk) && Respell(r, walk)[q] == r[q]
  {
    if |walk| > 0 { RespellKeeps(r, walk[..|walk| - 1], q); }
  }

  lemma {:induction false} RespellCons(r: Fields, k: Key, rest: seq<Key>)
    ensures Respell(r, [k] + rest) == Respell(RespellOne(r, k), rest)
    decreases |rest|
  {
    hide RespellOne;
    if |rest| > 0 {
      RespellCons(r, k, rest[..|rest| - 1]);
      assert ([k] + rest)[..|[k] + rest| - 1] == [k] + rest[..|rest| - 1];
    } else {
      assert [k] + rest == [k] && [k][..0] == [];
      assert Respell(r, []) == r;
    }
  }

  /** Of several spellings of a field that the request does not spell as the
      dealer does, the one met first keeps its value. */
  lemma FirstSpellingWins(g: Fields, k: Key, rest: seq<Key>)
    requires k in g && Respelled(k) !in g
    ensures var out := Respell(g, [k] + rest);
            Respelled(k) in out && out[Respelled(k)] == g[k]
  {
    RespelledKey(k);
    RespellCons(g, k, rest);
    RespellKeeps(RespellOne(g, k), rest, Respelled(k));
  }

  lemma OneSpelling(g: Fields, r: Fields, k: Key)
    requires CaseDistinct(g) && Respelt(g, r) && k in g
    ensures Respelled(k) in r && r[Respelled(k)] == g[k]
  {
    assert Stems(g, Respelled(k), r[Respelled(k)]);
  }

  // ---------- the rewrite ----------

  lemma LookupFirst(f: Fields, index: map<Name, Key>, names: seq<Name>, n: Name)
    requires Lookup(f, index, names) == None && n in names && n in index && index[n] in f
    ensures AsInt(f[index[n]]) == None
  {
  }

  /** What the decision promises about the pair it writes. */
  lemma DecideFits(f: Fields, index: map<Name, Key>)
    ensures var l := Decide(f, index);
            && (l.typeTime.Some? ==> l.expiration.Some?)
            && (l.expiration.Some? ==>
                  if l.typeTime.Some? && IsSpecified(l.typeTime.value) then l.expiration.value > 0 else l.expiration.value == 0)
            && (l.typeTime.None? ==> Lookup(f, index, TYPE_TIME_NAMES).None?)
            && (l.expiration.None? ==> Lookup(f, index, EXPIRATION_NAMES).None?)
  {
  }

  lemma RewrittenKeys(f: Fields, walk: seq<Key>)
    requires CaseDistinct(f) && Covers(walk, f)
    ensures forall k | k in Rewritten(f, Index(walk)) :: !Dropped(k)
  {
    hide *;
    forall k | k in Rewritten(f, Index(walk))
      ensures !Dropped(k)
    {
      RewrittenAt(f, Index(walk), k);
      Kinds(k);
      PairDealer();
      if k in f { IndexOwn(walk, f, k); }
    }
  }

  lemma PairDealer()
    ensures !Dropped(TYPE_TIME) && !Dropped(TIME_EXPIRATION)
  {
  }

  /** The index has the dealer's spelling of a field of the pair, if any. */
  predicate ReadsOwn(f: Fields, index: map<Name, Key>, k: Key) {
    k in f ==> k.name in index && index[k.name] == k
  }

  lemma WrittenPair(f: Fields, index: map<Name, Key>)
    requires ReadsOwn(f, index, TYPE_TIME) && ReadsOwn(f, index, TIME_EXPIRATION)
    ensures PairSettled(Written(f, Decide(f, index)))
  {
    DecideFits(f, index);
    var l := Decide(f, index);
    if TYPE_TIME in f && l.typeTime.None? { LookupFirst(f, index, TYPE_TIME_NAMES, TypeTime); }
    if TIME_EXPIRATION in f && l.expiration.None? { LookupFirst(f, index, EXPIRATION_NAMES, TimeExpiration); }
    hide Decide, Lookup;
    if l.typeTime.Some? { IntValueReads(l.typeTime.value); }
    if l.expiration.Some? { IntValueReads(l.expiration.value); }
  }

  lemma RewrittenPair(f: Fields, walk: seq<Key>)
    requires CaseDistinct(f) && Covers(walk, f)
    ensures PairSettled(Rewritten(f, Index(walk)))
  {
    hide *;
    var index := Index(walk);
    OwnRead(f, walk, TYPE_TIME);
    OwnRead(f, walk, TIME_EXPIRATION);
    WrittenPair(f, index);
    PairKept(f, index);
  }

  lemma OwnRead(f: Fields, walk: seq<Key>, k: Key)
    requires CaseDistinct(f) && Covers(walk, f)
    ensures ReadsOwn(f, Index(walk), k)
  {
    if k in f { IndexOwn(walk, f, k); }
  }

  lemma PairKept(f: Fields, index: map<Name, Key>)
    requires PairSettled(Written(f, Decide(f, index)))
    ensures PairSettled(Rewritten(f, index))
  {
    hide Written, Decide;
  }

  /** Normalising settles every request in which no two keys differ only by
      case: duration values need not even be numeric. */
  lemma NormalizeSettles(f: Fields, v: seq<Key>, x: seq<Key>)
    requires CaseDistinct(f) && Covers(v, f) && Covers(x, Rewritten(f, Index(v)))
    ensures Settled(Normalized(f, v, x))
  {
    var g := Rewritten(f, Index(v));
    RewrittenKeys(f, v);
    RewrittenPair(f, v);
    RespellEnds(g, x);
    hide Rewritten, Index;
    RespelledSettled(g, Respell(g, x));
  }

  lemma RespeltClean(g: Fields, r: Fields, j: Key)
    requires Respelt(g, r) && j in r && forall k | k in g :: !Dropped(k)
    ensures !Dropped(j) && Respelled(j) == j
  {
  }

  ghost predicate Clean(f: Fields) {
    forall k | k in f :: !Dropped(k) && Respelled(k) == k
  }

  lemma RespelledSettled(g: Fields, r: Fields)
    requires Respelt(g, r) && PairSettled(g) && forall k | k in g :: !Dropped(k)
    ensures Settled(QuoteAction(r))
  {
    assert Clean(r) by {
      forall j | j in r
        ensures !Dropped(j) && Respelled(j) == j
      {
        RespeltClean(g, r, j);
      }
    }
    KeyKept(g, r, TYPE_TIME);
    KeyKept(g, r, TIME_EXPIRATION);
    hide Respelt, Clean;
    QuoteActionSettles(r);
  }

  lemma QuoteActionSettles(r: Fields)
    requires Clean(r) && PairSettled(r)
    ensures Settled(QuoteAction(r))
  {
    hide Dropped, Respelled;
  }

  lemma KeyKept(g: Fields, r: Fields, key: Key)
    requires Respelt(g, r) && key in {TYPE_TIME, TIME_EXPIRATION} && forall k | k in g :: !Dropped(k)
    ensures key in r <==> key in g
    ensures key in g ==> r[key] == g[key]
  {
  }

  // ---------- normalising again ----------

  lemma IndexSettled(m: Fields, walk: seq<Key>, n: Name)
    requires Settled(m) && Covers(walk, m)
    ensures n in {TypeTime, TimeExpiration} ==> (n in Index(walk) <==> Key(n, Dealer) in m)
    ensures n in {TypeTime, TimeExpiration} && n in Index(walk) ==> Index(walk)[n] == Key(n, Dealer)
    ensures n in {TypeTimeSnake, Expiration, Expiry, ExpireTime, Duration} ==> n !in Index(walk)
  {
    IndexHas(walk, n);
    if n in Index(walk) {
      var k := Index(walk)[n];
      assert k in m && !Dropped(k) && Respelled(k) == k;
    }
    if Key(n, Dealer) in m {
      var i :| 0 <= i < |walk| && walk[i] == Key(n, Dealer);
    }
  }

  lemma DecideSettled(m: Fields, walk: seq<Key>)
    requires Settled(m) && Covers(walk, m)
    ensures Decide(m, Index(walk)) == Lifetime(Read(m, TYPE_TIME), Read(m, TIME_EXPIRATION))
  {
    var index := Index(walk);
    IndexSettled(m, walk, TypeTime);
    IndexSettled(m, walk, TypeTimeSnake);
    IndexSettled(m, walk, Expiration);
    IndexSettled(m, walk, TimeExpiration);
    IndexSettled(m, walk, Expiry);
    IndexSettled(m, walk, ExpireTime);
    IndexSettled(m, walk, Duration);
    hide Index, Settled;
    LookupPair(m, index);
    LookupFour(m, index);
    assert PairSettled(m) by { SettledPair(m); }
  }

  lemma SettledPair(m: Fields)
    requires Settled(m)
    ensures PairSettled(m)
  {
  }

  lemma LookupPair(m: Fields, index: map<Name, Key>)
    requires TypeTime in index <==> TYPE_TIME in m
    requires TypeTime in index ==> index[TypeTime] == TYPE_TIME
    requires TypeTimeSnake !in index
    ensures Lookup(m, index, TYPE_TIME_NAMES) == Read(m, TYPE_TIME)
  {
    assert TYPE_TIME_NAMES[1..] == [TypeTimeSnake];
    assert Lookup(m, index, [TypeTimeSnake]) == None;
  }

  lemma LookupFour(m: Fields, index: map<Name, Key>)
    requires TimeExpiration in index <==> TIME_EXPIRATION in m
    requires TimeExpiration in index ==> index[TimeExpiration] == TIME_EXPIRATION
    requires Expiration !in index && Expiry !in index && ExpireTime !in index
    ensures Lookup(m, index, EXPIRATION_NAMES) == Read(m, TIME_EXPIRATION)
  {
    assert EXPIRATION_NAMES[1..] == [TimeExpiration, Expiry, ExpireTime];
    assert [TimeExpiration, Expiry, ExpireTime][1..] == [Expiry, ExpireTime];
    assert [Expiry, ExpireTime][1..] == [ExpireTime];
    assert Lookup(m, index, [ExpireTime]) == None;
    assert Lookup(m, index, [Expiry, ExpireTime]) == None;
  }

  /** A settled request comes out as it went in. */
  lemma SettledFixed(m: Fields, v: seq<Key>, x: seq<Key>)
    requires Settled(m) && Covers(v, m) && Covers(x, Rewritten(m, Index(v)))
    ensures Normalized(m, v, x) == m
  {
    DecideSettled(m, v);
    WrittenSame(m);
    RewrittenSame(m, Index(v));
    RespellIdle(m, x);
    hide Decide, Index, Rewritten, Written, Respell, Covers, Dropped, Respelled;
  }

  lemma WrittenSame(m: Fields)
    requires Settled(m)
    ensures Written(m, Lifetime(Read(m, TYPE_TIME), Read(m, TIME_EXPIRATION))) == m
  {
  }

  lemma RewrittenSame(m: Fields, index: map<Name, Key>)
    requires Settled(m) && Written(m, Decide(m, index)) == m
    ensures Rewritten(m, index) == m
  {
  }

  lemma {:induction false} RespellIdle(m: Fields, walk: seq<Key>)
    requires forall k | k in m :: Respelled(k) == k
    ensures Respell(m, walk) == m
  {
    if |walk| > 0 { RespellIdle(m, walk[..|walk| - 1]); }
  }

  /** Normalising twice is normalising once. */
  lemma Idempotent(f: Fields, v: seq<Key>, x: seq<Key>, w: seq<Key>, y: seq<Key>)
    requires CaseDistinct(f) && Covers(v, f) && Covers(x, Rewritten(f, Index(v)))
    requires Covers(w, Normalized(f, v, x)) && Covers(y, Rewritten(Normalized(f, v, x), Index(w)))
    ensures Normalized(Normalized(f, v, x), w, y) == Normalized(f, v, x)
  {
    NormalizeSettles(f, v, x);
    SettledFixed(Normalized(f, v, x), w, y);
  }

  /** The deadline is positive exactly for the lifetimes that need one. */
  lemma DeadlineMatchesLifetime(f: Fields, v: seq<Key>, x: seq<Key>)
    requires CaseDistinct(f) && Covers(v, f) && Covers(x, Rewritten(f, Index(v)))
    ensures var out := Normalized(f, v, x);
            (Read(out, TIME_EXPIRATION).Some? && Read(out, TIME_EXPIRATION).value > 0)
            <==> (Read(out, TYPE_TIME).Some? && IsSpecified(Read(out, TYPE_TIME).value))
  {
    NormalizeSettles(f, v, x);
  }

  // ---------- when the order of the walks matters ----------

  /** Fields that the rewrite takes out and the dealer does not know. */
  predicate Consumed(n: Name) {
    n in {TypeTimeSnake, Expiration, Expiry, ExpireTime, Duration} || ClientOnly(n)
  }

  /** The two fields that the rewrite itself may write. */
  predicate Paired(n: Name) {
    n == TypeTime || n == TimeExpiration
  }

  lemma Kinds(k: Key)
    ensures Consumed(k.name) ==> !DealerField(k.name) && Dropped(k)
    ensures !DealerField(k.name) && !Consumed(k.name) ==> !Dropped(k)
    ensures DealerField(k.name) && !Paired(k.name) ==> !Dropped(k)
    ensures Paired(k.name) ==> DealerField(k.name) && (Dropped(k) <==> k != Key(k.name, Dealer))
    ensures k == TYPE_TIME || k == TIME_EXPIRATION ==> Paired(k.name)
    ensures k.name == Action ==> DealerField(k.name)
  {
  }

  /** For every name one of the keys so named, as an index may hold it. */
  ghost predicate Choice(f: Fields, c: map<Name, Key>) {
    && (forall n | n in c :: c[n] in f && c[n].name == n)
    && (forall k | k in f :: k.name in c)
  }

  /** A value that a field of the pair can end up with under a choice: what the
      rewrite writes or the dealer's spelling carries; failing that, that of a
      spelling which was not the chosen one; failing that, none. */
  ghost predicate Ends(f: Fields, c: map<Name, Key>, n: Name, v: Option<Value>) {
    var w, q := Written(f, Decide(f, c)), Key(n, Dealer);
    if q in w then v == Some(w[q])
    else if v.Some? then exists k :: k in f && Spare(c, k, n) && f[k] == v.value
    else forall k | k in f :: !Spare(c, k, n)
  }

  predicate Spare(c: map<Name, Key>, k: Key, n: Name) {
    k.name == n && !(n in c && c[n] == k)
  }

  /** A field's value as it is sent. */
  function Sent(n: Name, v: Value): Value {
    if n == Action then QuotedValue(v) else v
  }

  /** No field that is taken out comes in two spellings. */
  ghost predicate ConsumedOnce(f: Fields) {
    forall j, k | j in f && k in f && j.name == k.name && Consumed(j.name) :: j == k
  }

  /** A field that comes in several spellings, none of them the dealer's, has one
      value in all of them. */
  ghost predicate SpellingsAgree(f: Fields) {
    forall j, k | j in f && k in f && j.name == k.name && DealerField(j.name) && !Paired(j.name) ::
      Key(j.name, Dealer) in f || Sent(j.name, f[j]) == Sent(k.name, f[k])
  }

  /** Whichever spellings of the pair are read, the same pair comes out. */
  ghost predicate PairAgrees(f: Fields) {
    forall c, d, n, v, u | Choice(f, c) && Choice(f, d) && Paired(n) && Ends(f, c, n, v) && Ends(f, d, n, u) :: v == u
  }

  ghost predicate OrderFree(f: Fields) {
    ConsumedOnce(f) && SpellingsAgree(f) && PairAgrees(f)
  }

  lemma IndexChooses(f: Fields, walk: seq<Key>)
    requires Covers(walk, f)
    ensures Choice(f, Index(walk))
  {
    forall n: Name
      ensures n in Index(walk) ==> Index(walk)[n] in f && Index(walk)[n].name == n
    {
      IndexHas(walk, n);
    }
    forall k | k in f
      ensures k.name in Index(walk)
    {
      IndexHas(walk, k.name);
    }
  }

  lemma RewrittenAt(f: Fields, c: map<Name, Key>, k: Key)
    ensures var w, g := Written(f, Decide(f, c)), Rewritten(f, c);
            && (k in g <==> k in w && !(Dropped(k) && k.name in c && c[k.name] == k))
            && (k in g ==> g[k] == w[k])
            && (k != TYPE_TIME && k != TIME_EXPIRATION ==> (k in w <==> k in f) && (k in f ==> w[k] == f[k]))
  {
  }

  /** A field that the dealer does not know is sent as it came or not at all. */
  lemma UnknownEnds(f: Fields, v: seq<Key>, x: seq<Key>, j: Key)
    requires Covers(x, Rewritten(f, Index(v))) && !DealerField(j.name)
    ensures var out := Normalized(f, v, x);
            && (j in out <==> j in f && !(Consumed(j.name) && j.name in Index(v) && Index(v)[j.name] == j))
            && (j in out ==> out[j] == f[j])
  {
    hide *;
    var g := Rewritten(f, Index(v));
    var r := Respell(g, x);
    RespellEnds(g, x);
    RewrittenAt(f, Index(v), j);
    Kinds(j);
    RespelledKey(j);
    NormalizedFrom(f, v, x, j);
    if j in r { SentAsIs(j.name, r, j); }
    if j in g { RespeltHas(g, r, j); }
    if j in r {
      var k := RespeltFrom(g, r, j);
      RespelledKey(k);
    }
  }

  lemma SentAsIs(n: Name, r: Fields, j: Key)
    requires n != Action && j in r
    ensures Sent(n, r[j]) == r[j]
  {
  }

  /** The keys of a plain field on their way through the rewrite. */
  lemma PlainKeys(f: Fields, c: map<Name, Key>, k: Key)
    requires DealerField(k.name) && !Paired(k.name)
    ensures var g := Rewritten(f, c);
            Respelled(k) == Key(k.name, Dealer) && (k in g <==> k in f) && (k in f ==> g[k] == f[k])
  {
    hide *;
    Kinds(k);
    RespelledKey(k);
    RewrittenAt(f, c, k);
  }

  /** A plain field is sent in the dealer's spelling, with the value of one of
      the spellings it came in. */
  lemma PlainEnds(f: Fields, v: seq<Key>, x: seq<Key>, n: Name)
    requires Covers(x, Rewritten(f, Index(v))) && DealerField(n) && !Paired(n)
    ensures var out, q := Normalized(f, v, x), Key(n, Dealer);
            && (forall k | k in f && k.name == n :: q in out)
            && (q in out ==> exists k :: k in f && k.name == n && Sent(n, f[k]) == out[q] && (q in f ==> k == q))
  {
    hide *;
    var g, q := Rewritten(f, Index(v)), Key(n, Dealer);
    var r := Respell(g, x);
    RespellEnds(g, x);
    NormalizedFrom(f, v, x, q);
    forall k | k in f && k.name == n
      ensures q in r
    {
      PlainKeys(f, Index(v), k);
      RespeltHas(g, r, k);
    }
    if q in r {
      var k := RespeltFrom(g, r, q);
      PlainKeys(f, Index(v), k);
      PlainKeys(f, Index(v), q);
      assert k in f && k.name == n && Sent(n, f[k]) == Normalized(f, v, x)[q];
    }
  }

  lemma NormalizedFrom(f: Fields, v: seq<Key>, x: seq<Key>, q: Key)
    requires q.spelling == Dealer || q.name != Action
    ensures var r, out := Respell(Rewritten(f, Index(v)), x), Normalized(f, v, x);
            (q in out <==> q in r) && (q in r ==> out[q] == Sent(q.name, r[q]))
  {
    hide Respell, Rewritten;
  }

  lemma RespeltHas(g: Fields, r: Fields, k: Key)
    requires Respelt(g, r) && k in g
    ensures Respelled(k) in r
  {
  }

  lemma RespeltFrom(g: Fields, r: Fields, j: Key) returns (k: Key)
    requires Respelt(g, r) && j in r
    ensures k in g && k.name == j.name && Respelled(k) == j && g[k] == r[j] && (j in g ==> k == j)
  {
    hide Respelled;
    assert Stems(g, j, r[j]);
    k :| k in g && Respelled(k) == j && g[k] == r[j] && (j in g ==> k == j);
    RespelledKey(k);
  }

  /** The keys of a field of the pair on their way through the rewrite. */
  lemma PairKeys(f: Fields, c: map<Name, Key>, k: Key)
    requires Paired(k.name)
    ensures var w, g, q := Written(f, Decide(f, c)), Rewritten(f, c), Key(k.name, Dealer);
            && Respelled(k) == q && (k in g <==> if k == q then q in w else k in f && Spare(c, k, k.name))
            && (k in g ==> g[k] == if k == q then w[q] else f[k])
            && (q in f ==> q in w)
  {
    Kinds(k);
    RespelledKey(k);
    RewrittenAt(f, c, k);
    WrittenHas(f, Decide(f, c), Key(k.name, Dealer));
    hide Dropped, DealerField, Rewritten, Written, Decide, Respelled;
  }

  /** A field of the pair ends as its choice allows. */
  lemma PairEnds(f: Fields, v: seq<Key>, x: seq<Key>, n: Name)
    requires Covers(x, Rewritten(f, Index(v))) && Paired(n)
    ensures var out, q := Normalized(f, v, x), Key(n, Dealer);
            Ends(f, Index(v), n, if q in out then Some(out[q]) else None)
  {
    var g, q, c := Rewritten(f, Index(v)), Key(n, Dealer), Index(v);
    var r := Respell(g, x);
    RespellEnds(g, x);
    NormalizedFrom(f, v, x, q);
    hide Normalized, Rewritten, Index, Covers, Written, Decide, Respelled, Respell, Respelt, Spare, DealerField;
    PairKeys(f, c, q);
    if q in r {
      var k := RespeltFrom(g, r, q);
      PairKeys(f, c, k);
    } else {
      forall k | k in f
        ensures !Spare(c, k, n)
      {
        SpareNamed(c, k, n);
        if Spare(c, k, n) {
          PairKeys(f, c, k);
          if k in g { RespeltHas(g, r, k); }
        }
      }
      if q in g { RespeltHas(g, r, q); }
    }
  }

  lemma SpareNamed(c: map<Name, Key>, k: Key, n: Name)
    ensures Spare(c, k, n) ==> k.name == n
  {
  }

  lemma WrittenHas(f: Fields, l: Lifetime, q: Key)
    ensures q in f ==> q in Written(f, l)
  {
  }

  /** Nothing but the dealer's spelling of a field it knows is sent. */
  lemma VariantGone(f: Fields, v: seq<Key>, x: seq<Key>, j: Key)
    requires Covers(x, Rewritten(f, Index(v))) && DealerField(j.name) && j != Key(j.name, Dealer)
    ensures j !in Normalized(f, v, x)
  {
    RespellEnds(Rewritten(f, Index(v)), x);
    RespelledKey(j);
    hide Rewritten, Index, Respell, Covers;
  }

  /** The fields have the same value, or neither has any. */
  ghost predicate SameAt(a: Fields, b: Fields, j: Key) {
    (j in a <==> j in b) && (j in a ==> a[j] == b[j])
  }

  lemma UnknownAgrees(f: Fields, v: seq<Key>, w: seq<Key>, x: seq<Key>, y: seq<Key>, j: Key)
    requires ConsumedOnce(f) && Covers(v, f) && Covers(w, f) && !DealerField(j.name)
    requires Covers(x, Rewritten(f, Index(v))) && Covers(y, Rewritten(f, Index(w)))
    ensures SameAt(Normalized(f, v, x), Normalized(f, w, y), j)
  {
    IndexChooses(f, v);
    IndexChooses(f, w);
    hide Normalized, Rewritten, Index, Covers, DealerField, Consumed;
    UnknownEnds(f, v, x, j);
    UnknownEnds(f, w, y, j);
    if j in f && Consumed(j.name) {
      assert Index(v)[j.name] == j && Index(w)[j.name] == j;
    }
  }

  lemma PlainAgrees(f: Fields, v: seq<Key>, w: seq<Key>, x: seq<Key>, y: seq<Key>, n: Name)
    requires SpellingsAgree(f) && DealerField(n) && !Paired(n)
    requires Covers(x, Rewritten(f, Index(v))) && Covers(y, Rewritten(f, Index(w)))
    ensures SameAt(Normalized(f, v, x), Normalized(f, w, y), Key(n, Dealer))
  {
    hide Normalized, Rewritten, Index, Covers, DealerField, Sent;
    PlainEnds(f, v, x, n);
    PlainEnds(f, w, y, n);
  }

  lemma PairComesOut(f: Fields, v: seq<Key>, w: seq<Key>, x: seq<Key>, y: seq<Key>, n: Name)
    requires PairAgrees(f) && Covers(v, f) && Covers(w, f) && Paired(n)
    requires Covers(x, Rewritten(f, Index(v))) && Covers(y, Rewritten(f, Index(w)))
    ensures SameAt(Normalized(f, v, x), Normalized(f, w, y), Key(n, Dealer))
  {
    hide Normalized, Rewritten, Index, Covers, Choice, Ends;
    IndexChooses(f, v);
    IndexChooses(f, w);
    PairEnds(f, v, x, n);
    PairEnds(f, w, y, n);
  }

  lemma AgreeAt(f: Fields, v: seq<Key>, w: seq<Key>, x: seq<Key>, y: seq<Key>, j: Key)
    requires OrderFree(f) && Covers(v, f) && Covers(w, f)
    requires Covers(x, Rewritten(f, Index(v))) && Covers(y, Rewritten(f, Index(w)))
    ensures SameAt(Normalized(f, v, x), Normalized(f, w, y), j)
  {
    hide Normalized, Rewritten, Index, Covers, DealerField, ConsumedOnce, SpellingsAgree, PairAgrees;
    if !DealerField(j.name) {
      UnknownAgrees(f, v, w, x, y, j);
    } else if j != Key(j.name, Dealer) {
      VariantGone(f, v, x, j);
      VariantGone(f, w, y, j);
    } else if Paired(j.name) {
      PairComesOut(f, v, w, x, y, j.name);
    } else {
      PlainAgrees(f, v, w, x, y, j.name);
    }
  }

  /** The result is the same for all walks. */
  ghost predicate Determined(f: Fields) {
    forall v, w, x, y | Covers(v, f) && Covers(w, f)
                        && Covers(x, Rewritten(f, Index(v))) && Covers(y, Rewritten(f, Index(w))) ::
      Normalized(f, v, x) == Normalized(f, w, y)
  }

  lemma FreeDetermined(f: Fields)
    requires OrderFree(f)
    ensures Determined(f)
  {
    hide Normalized, Rewritten, Index, Covers, OrderFree;
    forall v, w, x, y | Covers(v, f) && Covers(w, f)
                        && Covers(x, Rewritten(f, Index(v))) && Covers(y, Rewritten(f, Index(w)))
      ensures Normalized(f, v, x) == Normalized(f, w, y)
    {
      forall j: Key
        ensures SameAt(Normalized(f, v, x), Normalized(f, w, y), j)
      {
        AgreeAt(f, v, w, x, y, j);
      }
      SameFields(Normalized(f, v, x), Normalized(f, w, y));
    }
  }

  lemma SameFields(a: Fields, b: Fields)
    requires forall j :: SameAt(a, b, j)
    ensures a == b
  {
    assert forall j :: SameAt(a, b, j) ==> (j in a <==> j in b);
  }

  // ---------- walks that make a difference ----------

  lemma {:induction false} WalkOf(s: set<Key>) returns (walk: seq<Key>)
    ensures Walked(walk, s)
    decreases |s|
  {
    walk := [];
    if s != {} {
      HasKey(s);
      var k :| k in s;
      walk := WalkOf(s - {k});
      WalkedMore(walk, s - {k}, k);
      assert s - {k} + {k} == s;
      walk := walk + [k];
    }
  }

  lemma SomeWalk(f: Fields) returns (walk: seq<Key>)
    ensures Covers(walk, f)
  {
    walk := WalkOf(f.Keys);
    WalkedCovers(walk, f);
  }

  lemma WalkFrom(f: Fields, k: Key) returns (rest: seq<Key>)
    requires k in f
    ensures Covers([k] + rest, f)
  {
    rest := WalkOf(f.Keys - {k});
    assert forall i | 0 <= i < |rest| :: rest[i] in f.Keys - {k};
    forall j | j in f
      ensures j in [k] + rest
    {
      if j != k { assert j in f.Keys - {k}; }
    }
  }

  lemma {:induction false} IndexLast(walk: seq<Key>, i: nat)
    requires i < |walk| && forall j | i < j < |walk| :: walk[j].name != walk[i].name
    ensures walk[i].name in Index(walk) && Index(walk)[walk[i].name] == walk[i]
  {
    if i < |walk| - 1 {
      assert forall j | i < j < |walk| - 1 :: walk[..|walk| - 1][j] == walk[j];
      IndexLast(walk[..|walk| - 1], i);
    }
  }

  /** Any choice of spellings is the index of some walk. */
  lemma WalkFor(f: Fields, c: map<Name, Key>) returns (walk: seq<Key>)
    requires Choice(f, c)
    ensures Covers(walk, f) && Index(walk) == c
  {
    var chosen := set n | n in c :: c[n];
    var early := WalkOf(f.Keys - chosen);
    var late := WalkOf(chosen);
    walk := early + late;
    WalksJoin(early, late, f.Keys - chosen, chosen);
    assert f.Keys - chosen + chosen == f.Keys;
    hide Walked, Covers, Index;
    forall n | n in c
      ensures n in Index(walk) && Index(walk)[n] == c[n]
    {
      assert c[n] in chosen && forall k | k in chosen && k.name == n :: k == c[n];
      ChosenLast(early, late, chosen, c[n]);
    }
    WalkedCovers(walk, f);
    IndexChooses(f, walk);
    hide *;
    SameChoice(f, c, Index(walk));
  }

  lemma SameChoice(f: Fields, c: map<Name, Key>, d: map<Name, Key>)
    requires Choice(f, c) && Choice(f, d) && forall n | n in c :: n in d && d[n] == c[n]
    ensures c == d
  {
    assert forall n | n in d :: d[n] in f && d[n].name in c;
  }

  lemma WalksJoin(v: seq<Key>, w: seq<Key>, s: set<Key>, t: set<Key>)
    requires Walked(v, s) && Walked(w, t) && s !! t
    ensures Walked(v + w, s + t)
  {
    assert forall i | 0 <= i < |v| :: v[i] in s;
    assert forall i | 0 <= i < |w| :: w[i] in t;
  }

  lemma WalkedCovers(walk: seq<Key>, f: Fields)
    requires Walked(walk, f.Keys)
    ensures Covers(walk, f)
  {
    assert forall i | 0 <= i < |walk| :: walk[i] in f.Keys;
    assert forall k | k in f :: k in f.Keys;
  }

  lemma ChosenLast(early: seq<Key>, late: seq<Key>, chosen: set<Key>, k: Key)
    requires Walked(late, chosen) && k in chosen && forall j | j in chosen && j.name == k.name :: j == k
    ensures k.name in Index(early + late) && Index(early + late)[k.name] == k
  {
    var i :| 0 <= i < |late| && late[i] == k;
    var walk, p := early + late, |early| + i;
    forall j | p < j < |walk|
      ensures walk[j].name != k.name
    {
      assert walk[j] == late[j - |early|] && walk[j] in chosen;
    }
    IndexLast(walk, p);
  }

  /** Two results that differ somewhere. */
  lemma Undetermined(f: Fields, v: seq<Key>, w: seq<Key>, x: seq<Key>, y: seq<Key>, j: Key)
    requires Covers(v, f) && Covers(w, f)
    requires Covers(x, Rewritten(f, Index(v))) && Covers(y, Rewritten(f, Index(w)))
    requires var a, b := Normalized(f, v, x), Normalized(f, w, y);
             (j in a && j !in b) || (j in a && j in b && a[j] != b[j]) || (j !in a && j in b)
    ensures !Determined(f)
  {
    hide Normalized, Rewritten, Index, Covers;
    assert Normalized(f, v, x) != Normalized(f, w, y);
  }

  /** Of two spellings of a consumed field only the chosen one is taken out. */
  lemma ConsumedMatters(f: Fields, j: Key, k: Key)
    requires j in f && k in f && j != k && j.name == k.name && Consumed(j.name)
    ensures !Determined(f)
  {
    hide *;
    var u := SomeWalk(f);
    IndexChooses(f, u);
    ChoiceWith(f, Index(u), j);
    ChoiceWith(f, Index(u), k);
    var v := WalkFor(f, Index(u)[j.name := j]);
    var w := WalkFor(f, Index(u)[j.name := k]);
    var x := SomeWalk(Rewritten(f, Index(v)));
    var y := SomeWalk(Rewritten(f, Index(w)));
    Kinds(j);
    UnknownEnds(f, v, x, j);
    UnknownEnds(f, w, y, j);
    Undetermined(f, v, w, x, y, j);
  }

  lemma ChoiceWith(f: Fields, c: map<Name, Key>, k: Key)
    requires Choice(f, c) && k in f
    ensures Choice(f, c[k.name := k])
  {
  }

  /** Of several spellings of a plain field, any one can be met first. */
  lemma PlainMatters(f: Fields, j: Key, k: Key)
    requires j in f && k in f && j.name == k.name && DealerField(j.name) && !Paired(j.name)
    requires Key(j.name, Dealer) !in f && Sent(j.name, f[j]) != Sent(k.name, f[k])
    ensures !Determined(f)
  {
    hide *;
    var q := Key(j.name, Dealer);
    var v := SomeWalk(f);
    var g := Rewritten(f, Index(v));
    PlainKeys(f, Index(v), j);
    PlainKeys(f, Index(v), k);
    PlainKeys(f, Index(v), q);
    var x := WalkFrom(g, j);
    var y := WalkFrom(g, k);
    FirstSpellingWins(g, j, x);
    FirstSpellingWins(g, k, y);
    NormalizedFrom(f, v, [j] + x, q);
    NormalizedFrom(f, v, [k] + y, q);
    Undetermined(f, v, v, [j] + x, [k] + y, q);
  }

  /** Every end of a field of the pair is the end of some walks. */
  lemma EndsReached(f: Fields, c: map<Name, Key>, n: Name, v: Option<Value>) returns (w: seq<Key>, x: seq<Key>)
    requires Choice(f, c) && Paired(n) && Ends(f, c, n, v)
    ensures Covers(w, f) && Covers(x, Rewritten(f, Index(w)))
    ensures var out, q := Normalized(f, w, x), Key(n, Dealer); v == if q in out then Some(out[q]) else None
  {
    w := WalkFor(f, c);
    var g, q := Rewritten(f, c), Key(n, Dealer);
    hide Normalized, Rewritten, Index, Covers, Written, Decide, Choice, Spare, DealerField;
    PairKeys(f, c, q);
    if q !in Written(f, Decide(f, c)) && v.Some? {
      var k :| k in f && Spare(c, k, n) && f[k] == v.value;
      SpareNamed(c, k, n);
      PairKeys(f, c, k);
      var rest := WalkFrom(g, k);
      x := [k] + rest;
      FirstSpellingWins(g, k, rest);
      NormalizedFrom(f, w, x, q);
    } else {
      x := SomeWalk(g);
      PairEnds(f, w, x, n);
    }
  }

  lemma PairMatters(f: Fields, c: map<Name, Key>, d: map<Name, Key>, n: Name, v: Option<Value>, u: Option<Value>)
    requires Choice(f, c) && Choice(f, d) && Paired(n) && Ends(f, c, n, v) && Ends(f, d, n, u) && v != u
    ensures !Determined(f)
  {
    hide *;
    var w, x := EndsReached(f, c, n, v);
    var y, z := EndsReached(f, d, n, u);
    Undetermined(f, w, y, x, z, Key(n, Dealer));
  }

  /** The result does not depend on the order in which either map is walked if
      and only if no consumed field comes twice, the spellings of a plain field
      agree unless the dealer's own is among them, and every choice of spellings
      for the duration pair gives the same pair. Fields that the dealer does not
      know may clash at will. */
  lemma DeterminedIff(f: Fields)
    ensures Determined(f) <==> OrderFree(f)
  {
    hide Determined, Ends, Choice, DealerField, Consumed;
    if OrderFree(f) {
      FreeDetermined(f);
    } else if !ConsumedOnce(f) {
      var j, k :| j in f && k in f && j.name == k.name && Consumed(j.name) && j != k;
      ConsumedMatters(f, j, k);
    } else if !SpellingsAgree(f) {
      var j, k :| j in f && k in f && j.name == k.name && DealerField(j.name) && !Paired(j.name)
                  && !(Key(j.name, Dealer) in f || Sent(j.name, f[j]) == Sent(k.name, f[k]));
      PlainMatters(f, j, k);
    } else {
      var c, d, n, v, u :| Choice(f, c) && Choice(f, d) && Paired(n) && Ends(f, c, n, v) && Ends(f, d, n, u) && v != u;
      PairMatters(f, c, d, n, v, u);
    }
  }

  lemma ChoiceUnique(f: Fields, c: map<Name, Key>, d: map<Name, Key>)
    requires CaseDistinct(f) && Choice(f, c) && Choice(f, d)
    ensures c == d
  {
    assert forall n | n in c :: c[n] in f && c[n].name in d;
    SameChoice(f, c, d);
  }

  lemma NoSpare(f: Fields, c: map<Name, Key>, n: Name, v: Option<Value>, u: Option<Value>)
    requires CaseDistinct(f) && Choice(f, c) && Ends(f, c, n, v) && Ends(f, c, n, u)
    ensures v == u
  {
    hide Written, Decide;
    assert forall k | k in f && k.name == n :: n in c && c[n] in f && c[n] == k;
  }

  /** In particular it does not when no two names differ only by case. */
  lemma OrderIndependent(f: Fields)
    requires CaseDistinct(f)
    ensures Determined(f)
  {
    hide Determined, Ends, Choice, DealerField, Consumed, Sent;
    forall c, d, n, v, u | Choice(f, c) && Choice(f, d) && Paired(n) && Ends(f, c, n, v) && Ends(f, d, n, u)
      ensures v == u
    {
      ChoiceUnique(f, c, d);
      NoSpare(f, c, n, v, u);
    }
    assert PairAgrees(f);
    DeterminedIff(f);
  }

  /** A volume in two casings: which one the dealer gets is left to chance. */
  lemma SpellingsCollide()
    ensures !Determined(map[Key(Volume, Variant("volume")) := Number(1.0), Key(Volume, Variant("VOLUME")) := Number(2.0)])
  {
    var j, k := Key(Volume, Variant("volume")), Key(Volume, Variant("VOLUME"));
    var f: Fields := map[j := Number(1.0), k := Number(2.0)];
    assert j in f && k in f && f[j] != f[k];
    DeterminedIff(f);
  }

  // ---------- what is sent ----------

  /** The value a request gives for a field, in whatever casing. */
  ghost function Given(f: Fields, n: Name): Option<Value> {
    if k :| k in f && k.name == n then Some(f[k]) else None
  }

  ghost function Numeric(f: Fields, n: Name): Option<int> {
    match Given(f, n)
    case Some(v) => AsInt(v)
    case None => None
  }

  function OrElse(a: Option<int>, b: Option<int>): Option<int> {
    if a.Some? then a else b
  }

  ghost function TypeGiven(f: Fields): Option<int> {
    OrElse(Numeric(f, TypeTime), Numeric(f, TypeTimeSnake))
  }

  ghost function DeadlineGiven(f: Fields): Option<int> {
    OrElse(Numeric(f, Expiration), OrElse(Numeric(f, TimeExpiration), OrElse(Numeric(f, Expiry), Numeric(f, ExpireTime))))
  }

  /** The name and the datetime of the duration block, if there is one. */
  ghost function BlockGiven(f: Fields): Option<(string, int)> {
    match Given(f, Duration)
    case Some(Block(_, kind, at)) => if kind == "" then None else Some((kind, match at case Some(t) => t case None => 0))
    case _ => None
  }

  predicate Named(kind: string, name: string) {
    Upper(TrimRight(TrimLeft(kind))) == name
  }

  /** The lifetime and deadline that a request stands for: an explicit type goes
      first, with the explicit deadline if it needs one; then the block's name,
      with the explicit deadline or else its own; then a bare deadline. */
  ghost predicate StandsFor(f: Fields, typeTime: Option<int>, expiration: Option<int>) {
    var explicit := DeadlineGiven(f);
    match TypeGiven(f)
    case Some(t) =>
      var d := match explicit case Some(e) => e case None => 0;
      if !IsSpecified(t) then typeTime == Some(t) && expiration == Some(0)
      else if d > 0 then typeTime == Some(t) && expiration == Some(d)
      else typeTime == Some(GTC) && expiration == Some(0)
    case None =>
      match BlockGiven(f)
      case Some((kind, at)) =>
        var d := match explicit case Some(e) => e case None => at;
        if Named(kind, "DAY") then typeTime == Some(DAY) && expiration == Some(0)
        else if (Named(kind, "GTD") || Named(kind, "SPECIFIED")) && d > 0 then typeTime == Some(SPECIFIED) && expiration == Some(d)
        else typeTime == Some(GTC) && expiration == Some(0)
      case None =>
        match explicit
        case Some(d) => if d > 0 then typeTime == Some(SPECIFIED) && expiration == Some(d) else typeTime == None && expiration == Some(0)
        case None => typeTime == None && expiration == None
  }

  lemma IndexGives(f: Fields, walk: seq<Key>, n: Name)
    requires CaseDistinct(f) && Covers(walk, f)
    ensures n in Index(walk) <==> Given(f, n).Some?
    ensures n in Index(walk) ==> Index(walk)[n] in f && Index(walk)[n].name == n && Given(f, n) == Some(f[Index(walk)[n]])
  {
    hide *;
    IndexChooses(f, walk);
    ChoiceGives(f, Index(walk), n);
  }

  lemma ChoiceGives(f: Fields, c: map<Name, Key>, n: Name)
    requires CaseDistinct(f) && Choice(f, c)
    ensures n in c <==> Given(f, n).Some?
    ensures n in c ==> c[n] in f && c[n].name == n && Given(f, n) == Some(f[c[n]])
  {
  }

  lemma LookupGives(f: Fields, walk: seq<Key>, names: seq<Name>)
    requires CaseDistinct(f) && Covers(walk, f) && |names| > 0
    ensures Lookup(f, Index(walk), names) == OrElse(Numeric(f, names[0]), Lookup(f, Index(walk), names[1..]))
  {
    IndexGives(f, walk, names[0]);
    hide Index, Covers, CaseDistinct, Given;
  }

  lemma TypeLookup(f: Fields, walk: seq<Key>)
    requires CaseDistinct(f) && Covers(walk, f)
    ensures Lookup(f, Index(walk), TYPE_TIME_NAMES) == TypeGiven(f)
  {
    hide Index, Covers, CaseDistinct, Numeric;
    LookupGives(f, walk, TYPE_TIME_NAMES);
    assert TYPE_TIME_NAMES[1..] == [TypeTimeSnake];
    LookupGives(f, walk, [TypeTimeSnake]);
    assert Lookup(f, Index(walk), [TypeTimeSnake][1..]) == None;
  }

  lemma DeadlineLookup(f: Fields, walk: seq<Key>)
    requires CaseDistinct(f) && Covers(walk, f)
    ensures Lookup(f, Index(walk), EXPIRATION_NAMES) == DeadlineGiven(f)
  {
    hide Index, Covers, CaseDistinct, Numeric;
    LookupGives(f, walk, EXPIRATION_NAMES);
    assert EXPIRATION_NAMES[1..] == [TimeExpiration, Expiry, ExpireTime];
    LookupGives(f, walk, [TimeExpiration, Expiry, ExpireTime]);
    assert [TimeExpiration, Expiry, ExpireTime][1..] == [Expiry, ExpireTime];
    LookupGives(f, walk, [Expiry, ExpireTime]);
    assert [Expiry, ExpireTime][1..] == [ExpireTime];
    LookupGives(f, walk, [ExpireTime]);
    assert Lookup(f, Index(walk), [ExpireTime][1..]) == None;
  }

  lemma BlockLookup(f: Fields, walk: seq<Key>)
    requires CaseDistinct(f) && Covers(walk, f)
    ensures LookupDuration(f, Index(walk)) == BlockGiven(f)
  {
    IndexGives(f, walk, Duration);
    hide Index, Covers, CaseDistinct, Given;
  }

  lemma DecideGives(f: Fields, walk: seq<Key>)
    requires CaseDistinct(f) && Covers(walk, f)
    ensures var l := Decide(f, Index(walk)); StandsFor(f, l.typeTime, l.expiration)
  {
    hide *;
    TypeLookup(f, walk);
    DeadlineLookup(f, walk);
    BlockLookup(f, walk);
    DecideStands(f, Index(walk));
  }

  lemma DecideStands(f: Fields, index: map<Name, Key>)
    requires Lookup(f, index, TYPE_TIME_NAMES) == TypeGiven(f) && Lookup(f, index, EXPIRATION_NAMES) == DeadlineGiven(f)
    requires LookupDuration(f, index) == BlockGiven(f)
    ensures var l := Decide(f, index); StandsFor(f, l.typeTime, l.expiration)
  {
    hide Lookup, LookupDuration, TypeGiven, DeadlineGiven, BlockGiven, Upper, TrimLeft, TrimRight;
  }

  /** What the sent request reads as is what was decided. */
  lemma DecisionSent(f: Fields, v: seq<Key>, x: seq<Key>)
    requires CaseDistinct(f) && Covers(v, f) && Covers(x, Rewritten(f, Index(v)))
    ensures var out, l := Normalized(f, v, x), Decide(f, Index(v));
            Read(out, TYPE_TIME) == l.typeTime && Read(out, TIME_EXPIRATION) == l.expiration
  {
    hide *;
    PairKeysPaired();
    var index := Index(v);
    IndexChooses(f, v);
    OwnRead(f, v, TYPE_TIME);
    OwnRead(f, v, TIME_EXPIRATION);
    WrittenReads(f, index);
    PairEnds(f, v, x, TypeTime);
    EndRead(f, index, Normalized(f, v, x), TypeTime);
    PairEnds(f, v, x, TimeExpiration);
    EndRead(f, index, Normalized(f, v, x), TimeExpiration);
  }

  lemma PairKeysPaired()
    ensures TYPE_TIME == Key(TypeTime, Dealer) && TIME_EXPIRATION == Key(TimeExpiration, Dealer)
    ensures Paired(TypeTime) && Paired(TimeExpiration)
  {
  }

  /** What the pair that is written, or left standing, reads as. */
  lemma WrittenReads(f: Fields, index: map<Name, Key>)
    requires ReadsOwn(f, index, TYPE_TIME) && ReadsOwn(f, index, TIME_EXPIRATION)
    ensures var w, l := Written(f, Decide(f, index)), Decide(f, index);
            Read(w, TYPE_TIME) == l.typeTime && Read(w, TIME_EXPIRATION) == l.expiration
  {
    var l := Decide(f, index);
    DecideFits(f, index);
    if TYPE_TIME in f && l.typeTime.None? { LookupFirst(f, index, TYPE_TIME_NAMES, TypeTime); }
    if TIME_EXPIRATION in f && l.expiration.None? { LookupFirst(f, index, EXPIRATION_NAMES, TimeExpiration); }
    hide Decide, Lookup;
    if l.typeTime.Some? { IntValueReads(l.typeTime.value); }
    if l.expiration.Some? { IntValueReads(l.expiration.value); }
  }

  /** With one spelling per name nothing else can end up in the pair. */
  lemma EndRead(f: Fields, c: map<Name, Key>, out: Fields, n: Name)
    requires CaseDistinct(f) && Choice(f, c)
    requires Ends(f, c, n, if Key(n, Dealer) in out then Some(out[Key(n, Dealer)]) else None)
    ensures Read(out, Key(n, Dealer)) == Read(Written(f, Decide(f, c)), Key(n, Dealer))
  {
    hide Written, Decide, AsInt;
    assert forall k | k in f && k.name == n :: n in c && c[n] in f && c[n] == k;
  }

  /** A request whose names differ by more than case is sent with the lifetime and
      deadline it stands for. */
  lemma LifetimeSent(f: Fields, v: seq<Key>, x: seq<Key>)
    requires CaseDistinct(f) && Covers(v, f) && Covers(x, Rewritten(f, Index(v)))
    ensures var out := Normalized(f, v, x); StandsFor(f, Read(out, TYPE_TIME), Read(out, TIME_EXPIRATION))
  {
    hide *;
    DecisionSent(f, v, x);
    DecideGives(f, v);
  }

  /** A plain field is sent under the dealer's name with the value it came with. */
  lemma FieldsPass(f: Fields, v: seq<Key>, x: seq<Key>, n: Name)
    requires CaseDistinct(f) && Covers(v, f) && Covers(x, Rewritten(f, Index(v))) && DealerField(n) && !Paired(n)
    ensures var out, q := Normalized(f, v, x), Key(n, Dealer);
            && (q in out <==> Given(f, n).Some?)
            && (q in out ==> out[q] == Sent(n, Given(f, n).value))
  {
    PlainEnds(f, v, x, n);
    hide Normalized, Rewritten, Index, Covers, DealerField, Sent;
  }

  function Figure(v: Value): Option<real> {
    match v
    case Number(x) => Some(x)
    case QuotedNumber(x) => Some(x)
    case _ => None
  }

  function Text(v: Value): Option<string> {
    match v
    case Quoted(t) => Some(t)
    case Block(t, _, _) => Some(t)
    case Other(t) => Some(t)
    case _ => None
  }

  /** The action is sent as a string of the same figure or text. */
  lemma ActionQuoted(v: Value)
    ensures var q := Sent(Action, v);
            Figure(q) == Figure(v) && Text(q) == Text(v) && ((v == Null && q == Null) || q.QuotedNumber? || q.Quoted?)
  {
  }

  // ---------- the broker's clock ----------

  /** The deadline, given in UTC, restated on the broker's clock. */
  function ShiftToBroker(f: Fields, offset: int): Fields {
    match Read(f, TIME_EXPIRATION)
    case Some(v) => if offset == 0 || v <= 0 then f else f[TIME_EXPIRATION := IntValue(v + offset)]
    case None => f
  }

  /** A broker-stamped time restated in UTC; unset times pass through. */
  function ShiftEpoch(v: int, offset: int): int {
    if v <= 0 then v else v - offset
  }

  method ShiftExpiration(f: Fields, offset: int) returns (out: Fields)
    ensures out == ShiftToBroker(f, offset)
  {
    out := f;
    if offset == 0 || TIME_EXPIRATION !in f { return; }
    var v := AsInt(f[TIME_EXPIRATION]);
    if v.None? || v.value <= 0 { return; }
    out := out[TIME_EXPIRATION := IntValue(v.value + offset)];
  }

  /** Shifting a deadline to the broker's clock and back restores it if and only
      if there is no shift, no deadline, or the shifted deadline is itself after
      the epoch. */
  lemma ShiftRoundTrip(f: Fields, offset: int)
    requires Read(f, TIME_EXPIRATION).Some?
    ensures var v, out := Read(f, TIME_EXPIRATION).value, ShiftToBroker(f, offset);
            && Read(out, TIME_EXPIRATION).Some?
            && (ShiftEpoch(Read(out, TIME_EXPIRATION).value, offset) == v <==> offset == 0 || v <= 0 || v + offset > 0)
  {
  }

  // ---------- the client's view ----------

  /** The duration block shown for an order, if its lifetime is a known one. */
  function ToDuration(typeTime: int, expiration: int): Option<(string, Option<int>)> {
    var at := if expiration > 0 then Some(expiration) else None;
    if typeTime == GTC then Some(("GTC", at))
    else if typeTime == DAY then Some(("DAY", at))
    else if IsSpecified(typeTime) then Some(("GTD", at))
    else None
  }

  lemma Names()
    ensures Upper(TrimRight(TrimLeft("GTC"))) == "GTC"
    ensures Upper(TrimRight(TrimLeft("DAY"))) == "DAY"
    ensures Upper(TrimRight(TrimLeft("GTD"))) == "GTD"
  {
  }

  /** Showing an order's lifetime and submitting what was shown gives the same
      lifetime back exactly for settled pairs other than end-of-day deadlines,
      which come back as plain ones. */
  lemma DurationRoundTrip(typeTime: int, expiration: int)
    requires ToDuration(typeTime, expiration).Some?
    ensures var (kind, at) := ToDuration(typeTime, expiration).value;
            FromDuration(kind, match at case Some(t) => t case None => 0) == (typeTime, expiration)
            <==> typeTime != SPECIFIED_DAY && (if typeTime == SPECIFIED then expiration > 0 else expiration == 0)
  {
    Names();
  }

  /** So a request that carries a shown lifetime as its block, and no other
      duration field, is sent with that lifetime in exactly those cases. */
  lemma ShownComesBack(f: Fields, v: seq<Key>, x: seq<Key>, text: string, typeTime: int, expiration: int)
    requires CaseDistinct(f) && Covers(v, f) && Covers(x, Rewritten(f, Index(v)))
    requires ToDuration(typeTime, expiration).Some?
    requires Given(f, Duration) == Some(Block(text, ToDuration(typeTime, expiration).value.0, ToDuration(typeTime, expiration).value.1))
    requires forall k | k in f :: k.name !in TYPE_TIME_NAMES && k.name !in EXPIRATION_NAMES
    ensures var out := Normalized(f, v, x);
            Read(out, TYPE_TIME) == Some(typeTime) && Read(out, TIME_EXPIRATION) == Some(expiration)
            <==> typeTime != SPECIFIED_DAY && (if typeTime == SPECIFIED then expiration > 0 else expiration == 0)
  {
    hide *;
    LifetimeSent(f, v, x);
    NoTimes(f);
    ShownStandsFor(f, Read(Normalized(f, v, x), TYPE_TIME), Read(Normalized(f, v, x), TIME_EXPIRATION), text, typeTime, expiration);
  }

  lemma NoTimes(f: Fields)
    requires forall k | k in f :: k.name !in TYPE_TIME_NAMES && k.name !in EXPIRATION_NAMES
    ensures TypeGiven(f) == None && DeadlineGiven(f) == None
  {
    assert TYPE_TIME_NAMES[0] == TypeTime && TYPE_TIME_NAMES[1] == TypeTimeSnake;
    assert EXPIRATION_NAMES[0] == Expiration && EXPIRATION_NAMES[1] == TimeExpiration
           && EXPIRATION_NAMES[2] == Expiry && EXPIRATION_NAMES[3] == ExpireTime;
  }

  lemma ShownStandsFor(f: Fields, sentType: Option<int>, sentDeadline: Option<int>, text: string, typeTime: int, expiration: int)
    requires TypeGiven(f) == None && DeadlineGiven(f) == None && ToDuration(typeTime, expiration).Some?
    requires Given(f, Duration) == Some(Block(text, ToDuration(typeTime, expiration).value.0, ToDuration(typeTime, expiration).value.1))
    requires StandsFor(f, sentType, sentDeadline)
    ensures sentType == Some(typeTime) && sentDeadline == Some(expiration)
            <==> typeTime != SPECIFIED_DAY && (if typeTime == SPECIFIED then expiration > 0 else expiration == 0)
  {
    Names();
    hide TypeGiven, DeadlineGiven, Given, Upper, TrimLeft, TrimRight;
  }
}
