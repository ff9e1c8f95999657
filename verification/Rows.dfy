/** Database tables whose rows belong to a login: how an account's open and
    listed items are laid out, rewritten and appended, and read back. */
module Rows {

  /** A row keyed by its ticket. Open items are the ones rewritten on every
      save; the others carry their place in the account's list. */
  datatype Row<T> = Row(login: int, open: bool, place: int, item: T)

  type Table<T> = map<int, Row<T>>

  /** DELETE ... WHERE login = l, limited to open or to listed rows. */
  function DropRows<T(!new)>(tbl: Table<T>, l: int, open: bool): Table<T> {
    map t | t in tbl && !(tbl[t].login == l && tbl[t].open == open) :: tbl[t]
  }

  /** INSERT ... ON CONFLICT (ticket): the merge decides what survives. */
  function Upsert<T(!new)>(tbl: Table<T>, t: int, row: Row<T>, merge: (Row<T>, Row<T>) -> Row<T>): Table<T> {
    tbl[t := if t in tbl then merge(tbl[t], row) else row]
  }

  function UpsertOpen<T(!new)>(tbl: Table<T>, l: int, open: map<int, T>, merge: (Row<T>, Row<T>) -> Row<T>): Table<T> {
    map t | t in tbl.Keys + open.Keys ::
      if t in open then (if t in tbl then merge(tbl[t], Row(l, true, 0, open[t])) else Row(l, true, 0, open[t]))
      else tbl[t]
  }

  /** Upserts the list from a place on, each row numbered by its place. */
  function AppendRows<T(!new)>(tbl: Table<T>, l: int, list: seq<T>, from: nat, ticket: T -> int,
                               merge: (Row<T>, Row<T>) -> Row<T>): Table<T>
    decreases |list| - from
  {
    if from >= |list| then tbl
    else AppendRows(Upsert(tbl, ticket(list[from]), Row(l, false, from, list[from]), merge), l, list, from + 1, ticket, merge)
  }

  /** Appends past the remembered count; a list that shrank is rewritten. */
  function SaveList<T(!new)>(tbl: Table<T>, l: int, list: seq<T>, was: nat, ticket: T -> int,
                             merge: (Row<T>, Row<T>) -> Row<T>): Table<T> {
    if |list| < was then AppendRows(DropRows(tbl, l, false), l, list, 0, ticket, merge)
    else AppendRows(tbl, l, list, was, ticket, merge)
  }

  function SaveOpen<T(!new)>(tbl: Table<T>, l: int, open: map<int, T>, merge: (Row<T>, Row<T>) -> Row<T>): Table<T> {
    UpsertOpen(DropRows(tbl, l, true), l, open, merge)
  }

  // ---------- what a table holds for one login ----------

  ghost predicate OpenHeld<T(!new)>(tbl: Table<T>, l: int, open: map<int, T>) {
    && (forall t | t in open :: t in tbl && tbl[t] == Row(l, true, 0, open[t]))
    && (forall t | t in tbl && tbl[t].login == l && tbl[t].open :: t in open)
  }

  ghost predicate ListHeld<T(!new)>(tbl: Table<T>, l: int, list: seq<T>, ticket: T -> int) {
    && (forall i | 0 <= i < |list| :: ticket(list[i]) in tbl && tbl[ticket(list[i])] == Row(l, false, i, list[i]))
    && (forall t | t in tbl && tbl[t].login == l && !tbl[t].open :: 0 <= tbl[t].place < |list| && ticket(list[tbl[t].place]) == t)
  }

  ghost predicate OthersKept<T(!new)>(tbl: Table<T>, after: Table<T>, l: int) {
    && (forall t | t in tbl && tbl[t].login != l :: t in after && after[t] == tbl[t])
    && (forall t | t in after && after[t].login != l :: t in tbl && tbl[t] == after[t])
  }

  /** No other login's row carries the ticket. */
  predicate Unclaimed<T(!new)>(tbl: Table<T>, l: int, t: int) {
    t in tbl ==> tbl[t].login == l
  }

  ghost predicate TicketsDiffer<T(!new)>(list: seq<T>, from: nat, ticket: T -> int) {
    forall i, j | from <= i < j < |list| :: ticket(list[i]) != ticket(list[j])
  }

  /** Two lists with no ticket in common. */
  ghost predicate Unrelated<T(!new)>(held: seq<T>, list: seq<T>, ticket: T -> int) {
    forall i, j | 0 <= i < |held| && 0 <= j < |list| :: ticket(held[i]) != ticket(list[j])
  }

  /** The list is strictly shorter than the remembered count, or extends what
      is held at least up to that count. */
  predicate Whole<T(==)>(was: nat, held: seq<T>, list: seq<T>) {
    |list| < was || (held <= list && was <= |held|)
  }

  /** What a save that remembers a count leaves behind. */
  function Stored<T(==)>(was: nat, held: seq<T>, list: seq<T>): seq<T> {
    if |list| < was || held <= list || was > |list| then list else held + list[was..]
  }

  lemma {:induction false} AppendExact<T(!new)>(tbl: Table<T>, l: int, list: seq<T>, from: nat, ticket: T -> int,
                                                merge: (Row<T>, Row<T>) -> Row<T>)
    requires TicketsDiffer(list, from, ticket)
    ensures var after := AppendRows(tbl, l, list, from, ticket, merge);
            && (forall i | from <= i < |list| ::
                  var t := ticket(list[i]);
                  && t in after
                  && after[t] == if t in tbl then merge(tbl[t], Row(l, false, i, list[i])) else Row(l, false, i, list[i]))
            && (forall t | t in tbl && forall i | from <= i < |list| :: ticket(list[i]) != t :: t in after && after[t] == tbl[t])
            && (forall t | t in after :: t in tbl || exists i :: from <= i < |list| && ticket(list[i]) == t)
    decreases |list| - from
  {
    if from < |list| {
      var next := Upsert(tbl, ticket(list[from]), Row(l, false, from, list[from]), merge);
      AppendExact(next, l, list, from + 1, ticket, merge);
      var after := AppendRows(tbl, l, list, from, ticket, merge);
      forall i | from <= i < |list|
        ensures var t := ticket(list[i]);
                t in after && after[t] == if t in tbl then merge(tbl[t], Row(l, false, i, list[i])) else Row(l, false, i, list[i])
      {
        if i == from { assert ticket(list[from]) in next; }
      }
    }
  }

  /** Rewriting the open rows: no row of another login and no listed row is
      touched, and no row is met on the way. */
  lemma SaveOpenExact<T(!new)>(tbl: Table<T>, l: int, open: map<int, T>, list: seq<T>, ticket: T -> int,
                               merge: (Row<T>, Row<T>) -> Row<T>)
    requires ListHeld(tbl, l, list, ticket)
    requires forall t | t in open :: Unclaimed(tbl, l, t)
    requires forall i | 0 <= i < |list| :: ticket(list[i]) !in open
    ensures forall t | t in open :: t !in DropRows(tbl, l, true)
    ensures var after := SaveOpen(tbl, l, open, merge);
            OpenHeld(after, l, open) && ListHeld(after, l, list, ticket) && OthersKept(tbl, after, l)
  {
  }

  /** What a list save may assume of a table that holds the login's rows. */
  ghost predicate Appendable<T(!new)>(tbl: Table<T>, l: int, open: map<int, T>, held: seq<T>, list: seq<T>,
                                      ticket: T -> int) {
    && OpenHeld(tbl, l, open) && ListHeld(tbl, l, held, ticket)
    && TicketsDiffer(list, 0, ticket)
    && (forall i | 0 <= i < |list| :: ticket(list[i]) !in open && Unclaimed(tbl, l, ticket(list[i])))
    && (held <= list || Unrelated(held, list, ticket))
  }

  /** The count is exact, or the list passes the check against it. */
  predicate Fits<T(==)>(was: nat, held: seq<T>, list: seq<T>) {
    was == |held| || Whole(was, held, list)
  }

  lemma SaveListStored<T(!new)>(tbl: Table<T>, l: int, open: map<int, T>, held: seq<T>, list: seq<T>, was: nat,
                                ticket: T -> int, merge: (Row<T>, Row<T>) -> Row<T>, i: nat)
    requires Appendable(tbl, l, open, held, list, ticket) && Fits(was, held, list) && forall r :: merge(r, r) == r
    requires i < |Stored(was, held, list)|
    ensures var after, stored := SaveList(tbl, l, list, was, ticket, merge), Stored(was, held, list);
            ticket(stored[i]) in after && after[ticket(stored[i])] == Row(l, false, i, stored[i])
  {
    var start := if |list| < was then DropRows(tbl, l, false) else tbl;
    var from := if |list| < was then 0 else was;
    AppendExact(start, l, list, from, ticket, merge);
    var stored := Stored(was, held, list);
    if i < from {
      assert stored[i] == held[i] && ticket(held[i]) in tbl;
      if held <= list { assert stored[i] == list[i]; }
    } else {
      assert stored[i] == list[i];
      var t := ticket(list[i]);
      if t in start {
        assert tbl[t].login == l && !tbl[t].open;
        assert ticket(held[tbl[t].place]) == t;
        assert held <= list && tbl[t].place == i;
      }
    }
  }

  lemma SaveListPlaced<T(!new)>(tbl: Table<T>, l: int, open: map<int, T>, held: seq<T>, list: seq<T>, was: nat,
                                ticket: T -> int, merge: (Row<T>, Row<T>) -> Row<T>, t: int)
    requires Appendable(tbl, l, open, held, list, ticket) && Fits(was, held, list) && forall r :: merge(r, r) == r
    ensures var after, stored := SaveList(tbl, l, list, was, ticket, merge), Stored(was, held, list);
            && (t in after && after[t].login == l && !after[t].open ==>
                  0 <= after[t].place < |stored| && ticket(stored[after[t].place]) == t)
            && (t in after && after[t].login == l && after[t].open ==> t in open)
            && (t in after && after[t].login != l ==> t in tbl && tbl[t] == after[t])
  {
    var after, stored := SaveList(tbl, l, list, was, ticket, merge), Stored(was, held, list);
    var start := if |list| < was then DropRows(tbl, l, false) else tbl;
    var from := if |list| < was then 0 else was;
    AppendExact(start, l, list, from, ticket, merge);
    if t in after {
      if i :| from <= i < |list| && ticket(list[i]) == t {
        assert stored[i] == list[i];
        SaveListStored(tbl, l, open, held, list, was, ticket, merge, i);
      } else {
        assert t in start && after[t] == start[t];
        assert |stored| >= |held| || |list| < was;
      }
    }
  }

  /** Saving a list past a remembered count. It stores the whole list when the
      list is shorter than the count or extends what is held; otherwise, after a
      reset that regrew, the held rows stay and the new tail lands behind them. */
  lemma SaveListExact<T(!new)>(tbl: Table<T>, l: int, open: map<int, T>, held: seq<T>, list: seq<T>, was: nat,
                               ticket: T -> int, merge: (Row<T>, Row<T>) -> Row<T>)
    requires Appendable(tbl, l, open, held, list, ticket) && Fits(was, held, list) && forall r :: merge(r, r) == r
    ensures var after := SaveList(tbl, l, list, was, ticket, merge);
            OpenHeld(after, l, open) && ListHeld(after, l, Stored(was, held, list), ticket) && OthersKept(tbl, after, l)
  {
    var after, stored := SaveList(tbl, l, list, was, ticket, merge), Stored(was, held, list);
    var start := if |list| < was then DropRows(tbl, l, false) else tbl;
    AppendExact(start, l, list, if |list| < was then 0 else was, ticket, merge);
    forall i | 0 <= i < |stored|
      ensures ticket(stored[i]) in after && after[ticket(stored[i])] == Row(l, false, i, stored[i])
    {
      SaveListStored(tbl, l, open, held, list, was, ticket, merge, i);
    }
    forall t | t in after
      ensures after[t].login == l && !after[t].open ==> 0 <= after[t].place < |stored| && ticket(stored[after[t].place]) == t
      ensures after[t].login == l && after[t].open ==> t in open
      ensures after[t].login != l ==> t in tbl && tbl[t] == after[t]
    {
      SaveListPlaced(tbl, l, open, held, list, was, ticket, merge, t);
    }
    forall t | t in tbl && (tbl[t].login != l || t in open)
      ensures t in after && after[t] == tbl[t]
    {
      assert forall i | 0 <= i < |list| :: ticket(list[i]) != t;
    }
  }

  /** No row of the appended list meets an existing one. */
  ghost predicate AppendsFresh<T(!new)>(tbl: Table<T>, l: int, list: seq<T>, from: nat, ticket: T -> int,
                                        merge: (Row<T>, Row<T>) -> Row<T>)
    decreases |list| - from
  {
    from < |list| ==>
      && ticket(list[from]) !in tbl
      && AppendsFresh(Upsert(tbl, ticket(list[from]), Row(l, false, from, list[from]), merge), l, list, from + 1, ticket, merge)
  }

  lemma {:induction false} FreshAppends<T(!new)>(tbl: Table<T>, l: int, list: seq<T>, from: nat, ticket: T -> int,
                                                 merge: (Row<T>, Row<T>) -> Row<T>)
    requires TicketsDiffer(list, from, ticket)
    requires forall i | from <= i < |list| :: ticket(list[i]) !in tbl
    ensures AppendsFresh(tbl, l, list, from, ticket, merge)
    decreases |list| - from
  {
    if from < |list| {
      FreshAppends(Upsert(tbl, ticket(list[from]), Row(l, false, from, list[from]), merge), l, list, from + 1, ticket, merge);
    }
  }

  /** A list save in which no insert meets an existing row. */
  ghost predicate ListUnopposed<T(!new)>(tbl: Table<T>, l: int, list: seq<T>, was: nat, ticket: T -> int,
                                         merge: (Row<T>, Row<T>) -> Row<T>) {
    if |list| < was then AppendsFresh(DropRows(tbl, l, false), l, list, 0, ticket, merge)
    else AppendsFresh(tbl, l, list, was, ticket, merge)
  }

  /** When the count is exact, the conflict branch is never taken. */
  lemma SaveListFresh<T(!new)>(tbl: Table<T>, l: int, open: map<int, T>, held: seq<T>, list: seq<T>, was: nat,
                               ticket: T -> int, merge: (Row<T>, Row<T>) -> Row<T>)
    requires Appendable(tbl, l, open, held, list, ticket) && was == |held|
    ensures ListUnopposed(tbl, l, list, was, ticket, merge)
  {
    var start := if |list| < was then DropRows(tbl, l, false) else tbl;
    var from := if |list| < was then 0 else was;
    forall i | from <= i < |list|
      ensures ticket(list[i]) !in start
    {
    }
    FreshAppends(start, l, list, from, ticket, merge);
  }

  // ---------- saving past a count that may be wrong ----------

  predicate IsListed<T(!new)>(tbl: Table<T>, t: int, l: int) {
    t in tbl && tbl[t].login == l && !tbl[t].open
  }

  /** The login has a listed row with this item. */
  ghost predicate Reads<T(!new)>(tbl: Table<T>, l: int, x: T) {
    exists t :: IsListed(tbl, t, l) && tbl[t].item == x
  }

  /** The listed rows are not those of the list: one too many or one missing. */
  ghost predicate Spoiled<T(!new)>(tbl: Table<T>, l: int, list: seq<T>) {
    exists x :: Reads(tbl, l, x) != (x in list)
  }

  /** Whatever the count: rows of other logins are left alone, and every row of
      the login was there before or is one of the list's. */
  lemma SaveListOthers<T(!new)>(tbl: Table<T>, l: int, list: seq<T>, was: nat, ticket: T -> int,
                                merge: (Row<T>, Row<T>) -> Row<T>)
    requires TicketsDiffer(list, 0, ticket) && forall i | 0 <= i < |list| :: Unclaimed(tbl, l, ticket(list[i]))
    requires forall r, q :: merge(r, q).login == r.login
    ensures var after := SaveList(tbl, l, list, was, ticket, merge);
            && OthersKept(tbl, after, l)
            && (forall t | t in after :: t in tbl || exists i :: 0 <= i < |list| && ticket(list[i]) == t)
  {
    var start := if |list| < was then DropRows(tbl, l, false) else tbl;
    var from := if |list| < was then 0 else was;
    AppendExact(start, l, list, from, ticket, merge);
    var after := SaveList(tbl, l, list, was, ticket, merge);
    forall t | t in tbl && tbl[t].login != l
      ensures t in after && after[t] == tbl[t]
    {
      assert t in start && forall i | from <= i < |list| :: Unclaimed(tbl, l, ticket(list[i]));
    }
    assert forall i | from <= i < |list| :: Unclaimed(tbl, l, ticket(list[i]));
    forall t | t in after && after[t].login != l
      ensures t in tbl && tbl[t] == after[t]
    {
      assert t in start;
    }
  }

  /** An extension's new items meet no row. */
  lemma ExtensionFresh<T(!new)>(tbl: Table<T>, l: int, open: map<int, T>, held: seq<T>, list: seq<T>, ticket: T -> int,
                                i: nat)
    requires Appendable(tbl, l, open, held, list, ticket) && held <= list && |held| <= i < |list|
    ensures ticket(list[i]) !in tbl
  {
    assert Unclaimed(tbl, l, ticket(list[i])) && ticket(list[i]) !in open;
  }

  /** A list that fails the check does not come out as itself: either a held row
      stays that the list does not have, or the first item past the held ones is
      skipped. */
  lemma SaveListSpoils<T(!new)>(tbl: Table<T>, l: int, open: map<int, T>, held: seq<T>, list: seq<T>, was: nat,
                                ticket: T -> int, merge: (Row<T>, Row<T>) -> Row<T>)
    requires Appendable(tbl, l, open, held, list, ticket) && !Whole(was, held, list)
    ensures Spoiled(SaveList(tbl, l, list, was, ticket, merge), l, list)
  {
    var after := SaveList(tbl, l, list, was, ticket, merge);
    AppendExact(tbl, l, list, was, ticket, merge);
    if held <= list {
      forall t | t in after && after[t].login == l && !after[t].open
        ensures after[t].item != list[|held|]
      {
        ExtensionFresh(tbl, l, open, held, list, ticket, |held|);
        if i :| was <= i < |list| && ticket(list[i]) == t {
          ExtensionFresh(tbl, l, open, held, list, ticket, i);
          assert after[t].item == list[i];
        } else {
          assert ticket(after[t].item) == t;
        }
      }
      assert !Reads(after, l, list[|held|]) && list[|held|] in list;
    } else {
      var t := ticket(held[0]);
      assert forall i | 0 <= i < |list| :: ticket(list[i]) != t;
      assert after[t] == Row(l, false, 0, held[0]);
      assert Reads(after, l, held[0]) && held[0] !in list;
    }
  }

  lemma SpoiledKept<T(!new)>(tbl: Table<T>, after: Table<T>, l: int, k: int, list: seq<T>)
    requires OthersKept(tbl, after, l) && k != l && Spoiled(tbl, k, list)
    ensures Spoiled(after, k, list)
  {
    var x :| Reads(tbl, k, x) != (x in list);
    assert Reads(after, k, x) == Reads(tbl, k, x);
  }

  // ---------- reading back ----------

  /** ORDER BY login, seq, ticket. */
  predicate Precedes<T(!new)>(a: Row<T>, t: int, b: Row<T>, u: int) {
    a.login < b.login || (a.login == b.login && (a.place < b.place || (a.place == b.place && t <= u)))
  }

  predicate First<T(!new)>(tbl: Table<T>, t: int) {
    t in tbl && forall u | u in tbl :: Precedes(tbl[t], t, tbl[u], u)
  }

  lemma {:induction false} FirstExists<T(!new)>(tbl: Table<T>, some: int)
    requires some in tbl
    ensures exists t :: First(tbl, t)
    decreases |tbl|
  {
    var rest := tbl - {some};
    if u :| u in rest {
      FirstExists(rest, u);
      var f :| First(rest, f);
      var least := if Precedes(tbl[some], some, tbl[f], f) then some else f;
      forall u | u in tbl
        ensures Precedes(tbl[least], least, tbl[u], u)
      {
        if u != some { assert u in rest; }
      }
      assert First(tbl, least);
    } else {
      forall u | u in tbl
        ensures u == some
      {
        assert u == some || u in rest;
      }
      assert First(tbl, some);
    }
  }

  /** The tickets of a query's rows, in the order it returns them. */
  ghost function Ordered<T(!new)>(tbl: Table<T>): seq<int>
    decreases |tbl|
  {
    if some :| some in tbl then
      FirstExists(tbl, some);
      var f :| First(tbl, f);
      [f] + Ordered(tbl - {f})
    else []
  }

  ghost predicate InOrder<T(!new)>(tbl: Table<T>, rows: seq<int>) {
    && (forall i | 0 <= i < |rows| :: rows[i] in tbl)
    && (forall t | t in tbl :: t in rows)
    && (forall i, j | 0 <= i < j < |rows| :: rows[i] != rows[j] && Precedes(tbl[rows[i]], rows[i], tbl[rows[j]], rows[j]))
  }

  lemma {:induction false} OrderedInOrder<T(!new)>(tbl: Table<T>)
    ensures InOrder(tbl, Ordered(tbl))
    decreases |tbl|
  {
    if some :| some in tbl {
      FirstExists(tbl, some);
      var f :| First(tbl, f) && Ordered(tbl) == [f] + Ordered(tbl - {f});
      OrderedInOrder(tbl - {f});
      FirstInOrder(tbl, f, Ordered(tbl - {f}));
    }
  }

  lemma FirstInOrder<T(!new)>(tbl: Table<T>, f: int, rows: seq<int>)
    requires First(tbl, f) && InOrder(tbl - {f}, rows)
    ensures InOrder(tbl, [f] + rows)
  {
  }

  /** A login's listed items, in the order the rows come. */
  function Listed<T(!new)>(tbl: Table<T>, rows: seq<int>, l: int): seq<T>
    requires forall t | t in rows :: t in tbl
    decreases |rows|
  {
    if |rows| == 0 then []
    else
      var t := rows[|rows| - 1];
      var before := Listed(tbl, rows[..|rows| - 1], l);
      if tbl[t].login == l && !tbl[t].open then before + [tbl[t].item] else before
  }

  /** Reading the rows in order gives back exactly the list they hold. */
  lemma ListedExact<T(!new)>(tbl: Table<T>, rows: seq<int>, l: int, list: seq<T>, ticket: T -> int)
    requires InOrder(tbl, rows) && ListHeld(tbl, l, list, ticket)
    ensures Listed(tbl, rows, l) == list
  {
    ListedPrefix(tbl, rows, |rows|, l, list, ticket);
    assert rows[..|rows|] == rows;
    assert forall p | 0 <= p < |rows| && IsListed(tbl, rows[p], l) :: tbl[rows[p]].place < |Listed(tbl, rows, l)|;
    if |Listed(tbl, rows, l)| < |list| {
      var p := Placed(tbl, rows, l, list, ticket, |Listed(tbl, rows, l)|);
      assert false;
    }
  }

  lemma Placed<T(!new)>(tbl: Table<T>, rows: seq<int>, l: int, list: seq<T>, ticket: T -> int, i: nat) returns (p: nat)
    requires InOrder(tbl, rows) && ListHeld(tbl, l, list, ticket) && i < |list|
    ensures p < |rows| && rows[p] == ticket(list[i])
  {
    var t := ticket(list[i]);
    assert t in tbl;
    assert t in rows;
    p :| 0 <= p < |rows| && rows[p] == ticket(list[i]);
  }

  /** The listed rows of the login met so far are those of the first places. */
  ghost predicate ReadTo<T(!new)>(tbl: Table<T>, rows: seq<int>, n: nat, l: int, got: nat) {
    forall p | 0 <= p < |rows| && IsListed(tbl, rows[p], l) :: p < n <==> tbl[rows[p]].place < got
  }

  lemma NextPlace<T(!new)>(tbl: Table<T>, rows: seq<int>, n: nat, l: int, list: seq<T>, ticket: T -> int, got: nat)
    requires InOrder(tbl, rows) && ListHeld(tbl, l, list, ticket) && n < |rows| && IsListed(tbl, rows[n], l)
    requires ReadTo(tbl, rows, n, l, got)
    ensures tbl[rows[n]].place == got < |list| && tbl[rows[n]].item == list[got]
    ensures ReadTo(tbl, rows, n + 1, l, got + 1)
  {
    var s := tbl[rows[n]].place;
    assert ticket(list[s]) == rows[n] && s >= got;
    if s > got {
      var p := Placed(tbl, rows, l, list, ticket, got);
      assert IsListed(tbl, rows[p], l);
      assert false;
    }
    forall p | 0 <= p < |rows| && IsListed(tbl, rows[p], l)
      ensures p < n + 1 <==> tbl[rows[p]].place < got + 1
    {
      if tbl[rows[p]].place == s { assert rows[p] == rows[n]; }
    }
  }

  /** After the first n rows: a prefix of the list, and every listed row of the
      login met so far is in it. */
  lemma {:induction false} ListedPrefix<T(!new)>(tbl: Table<T>, rows: seq<int>, n: nat, l: int, list: seq<T>,
                                                 ticket: T -> int)
    requires InOrder(tbl, rows) && ListHeld(tbl, l, list, ticket) && n <= |rows|
    ensures Listed(tbl, rows[..n], l) <= list
    ensures ReadTo(tbl, rows, n, l, |Listed(tbl, rows[..n], l)|)
  {
    hide *;
    if n > 0 {
      ListedPrefix(tbl, rows, n - 1, l, list, ticket);
      RowsIn(tbl, rows);
      ListedNext(tbl, rows, n - 1, l);
      var got := Listed(tbl, rows[..n - 1], l);
      if IsListed(tbl, rows[n - 1], l) {
        NextPlace(tbl, rows, n - 1, l, list, ticket, |got|);
      } else {
        ReadOn(tbl, rows, n - 1, l, |got|);
      }
    } else {
      ReadNone(tbl, rows, l, list, ticket);
    }
  }

  lemma RowsIn<T(!new)>(tbl: Table<T>, rows: seq<int>)
    requires InOrder(tbl, rows)
    ensures forall i | 0 <= i < |rows| :: rows[i] in tbl
  {
  }

  lemma ListedNext<T(!new)>(tbl: Table<T>, rows: seq<int>, n: nat, l: int)
    requires n < |rows| && forall i | 0 <= i < |rows| :: rows[i] in tbl
    ensures var got := Listed(tbl, rows[..n], l);
            Listed(tbl, rows[..n + 1], l) == if IsListed(tbl, rows[n], l) then got + [tbl[rows[n]].item] else got
  {
    assert rows[..n + 1][..n] == rows[..n];
  }

  lemma ReadNone<T(!new)>(tbl: Table<T>, rows: seq<int>, l: int, list: seq<T>, ticket: T -> int)
    requires InOrder(tbl, rows) && ListHeld(tbl, l, list, ticket)
    ensures Listed(tbl, rows[..0], l) == [] && ReadTo(tbl, rows, 0, l, 0)
  {
    forall p | 0 <= p < |rows| && IsListed(tbl, rows[p], l)
      ensures tbl[rows[p]].place >= 0
    {
      assert ticket(list[tbl[rows[p]].place]) == rows[p];
    }
  }

  lemma ReadOn<T(!new)>(tbl: Table<T>, rows: seq<int>, n: nat, l: int, got: nat)
    requires n < |rows| && ReadTo(tbl, rows, n, l, got) && !IsListed(tbl, rows[n], l)
    ensures ReadTo(tbl, rows, n + 1, l, got)
  {
  }

  /** What is read back is what the listed rows hold. */
  lemma {:induction false} ListedReads<T(!new)>(tbl: Table<T>, rows: seq<int>, n: nat, l: int, x: T)
    requires (forall i | 0 <= i < |rows| :: rows[i] in tbl) && n <= |rows|
    ensures x in Listed(tbl, rows[..n], l)
            <==> exists p :: 0 <= p < n && IsListed(tbl, rows[p], l) && tbl[rows[p]].item == x
  {
    if n > 0 {
      ListedReads(tbl, rows, n - 1, l, x);
      ListedNext(tbl, rows, n - 1, l);
    }
  }

  lemma SpoiledDiffers<T(!new)>(tbl: Table<T>, rows: seq<int>, l: int, list: seq<T>)
    requires InOrder(tbl, rows) && Spoiled(tbl, l, list)
    ensures Listed(tbl, rows, l) != list
  {
    var x :| Reads(tbl, l, x) != (x in list);
    ListedReads(tbl, rows, |rows|, l, x);
    assert rows[..|rows|] == rows;
    if Reads(tbl, l, x) {
      var t :| IsListed(tbl, t, l) && tbl[t].item == x;
      assert t in rows;
      var p :| 0 <= p < |rows| && rows[p] == t;
    }
  }
}
