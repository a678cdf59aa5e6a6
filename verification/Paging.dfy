/** Keyset pages over (created_at, id): the store's query, the service's one-row
    lookahead, and the order check the resolvers make on what they are given. */
module Paging {
  import opened Keyset

  // ---------- positions ----------

  datatype Position = Position(at: int, id: string)

  /** Times are nanoseconds since the first instant of year 1 in UTC, which as the
      zero time stands for a missing one. */
  const ZERO_TIME := 0

  /** The first instant of year 10000, after 3,652,059 days. */
  const YEAR_10000 := 3_652_059 * 86_400 * 1_000_000_000

  predicate Less(a: Position, b: Position) {
    if a.at == b.at then Compare(a.id, b.id) < 0 else a.at < b.at
  }

  /** The resolvers' three-way comparison. */
  function ComparePositions(a: Position, b: Position): (r: int)
    ensures r < 0 <==> Less(a, b)
    ensures r == 0 <==> a == b
  {
    if a.at < b.at then -1
    else if a.at > b.at then 1
    else Compare(a.id, b.id)
  }

  lemma PositionsAreOrdered()
    ensures StrictTotal(Less)
  {
    forall x, y ensures x != y ==> Less(x, y) || Less(y, x) {
      CompareFlips(x.id, y.id);
    }
    forall x, y, z ensures Less(x, y) && Less(y, z) ==> Less(x, z) {
      if Less(x, y) && Less(y, z) && x.at == y.at == z.at { CompareTransitive(x.id, y.id, z.id); }
    }
  }

  // ---------- the store ----------

  datatype Item = Item(id: string, subject: string, createdAt: int, updatedAt: int, revoked: bool)

  function At(i: Item): Position { Position(i.createdAt, i.id) }

  function Positions(items: seq<Item>): (ps: seq<Position>)
    ensures |ps| == |items| && forall i :: 0 <= i < |items| ==> ps[i] == At(items[i])
  {
    Keys(At, items)
  }

  type Rows = map<string, Item>

  /** Rows are stored under their own ID. */
  ghost predicate Keyed(rows: Rows) { forall k :: k in rows ==> rows[k].id == k }

  predicate Shown(i: Item, subject: string) { i.subject == subject && !i.revoked }

  /** The positions a subject can see. */
  ghost function Visible(rows: Rows, subject: string): set<Position> {
    set k | k in rows && Shown(rows[k], subject) :: At(rows[k])
  }

  // ---------- one page query ----------

  /** The loop over a map, in any order, that keeps what passes a test. */
  method Filter<D(!new), T(!new)>(rows: map<D, T>, keep: T -> bool, ghost key: T -> Position) returns (items: seq<T>)
    requires forall j, k :: j in rows && k in rows && j != k && keep(rows[j]) && keep(rows[k]) ==> key(rows[j]) != key(rows[k])
    ensures forall x :: x in items <==> keep(x) && exists k :: k in rows && rows[k] == x
    ensures DistinctKeys(key, items)
  {
    var left := rows.Keys;
    items := [];
    while left != {}
      invariant left <= rows.Keys
      invariant forall x :: x in items <==> keep(x) && exists k :: k in rows && k !in left && rows[k] == x
      invariant DistinctKeys(key, items)
      decreases |left|
    {
      var k :| k in left;
      left := left - {k};
      var x := rows[k];
      if keep(x) {
        forall i | 0 <= i < |items| ensures key(items[i]) != key(x) { assert items[i] in items; }
        items := items + [x];
      }
    }
  }

  /** Sorted and truncated, what lies beyond the cursor is the page. */
  function FirstRows<T(!new)>(less: (Position, Position) -> bool, key: T -> Position, items: seq<T>, limit: int): (page: seq<T>)
    requires limit >= 1
    ensures |page| <= limit && forall x :: x in page ==> x in items
  {
    var sorted := Sorted(less, key, items);
    if |sorted| > limit then sorted[..limit] else sorted
  }

  lemma FirstRowsArePage<T(!new)>(less: (Position, Position) -> bool, key: T -> Position, items: seq<T>,
                                  s: set<Position>, after: Option<Position>, limit: int)
    requires StrictTotal(less) && DistinctKeys(key, items) && limit >= 1
    requires forall p :: p in After(s, less, after) <==> p in Keys(key, items)
    ensures Keys(key, FirstRows(less, key, items, limit)) == Page(s, less, after, limit)
  {
    hide StrictTotal, Sorted, After, Ascending, Elements, DistinctKeys, Listing;
    SortedIsListing(less, key, items, After(s, less, after));
    var n := |FirstRows(less, key, items, limit)|;
    assert Keys(key, Sorted(less, key, items)[..n]) == Keys(key, Sorted(less, key, items))[..n];
  }

  class Store {
    var rows: Rows

    constructor (rows: Rows)
      ensures this.rows == rows
    {
      this.rows := rows;
    }

    /** Filter, sort by position, truncate. */
    method ListPage(subject: string, after: Option<Position>, limit: int) returns (items: seq<Item>)
      requires Keyed(rows) && limit >= 1
      ensures StrictTotal(Less) && Positions(items) == Page(Visible(rows, subject), Less, after, limit)
      ensures forall i :: 0 <= i < |items| ==> items[i].id in rows && items[i] == rows[items[i].id] && Shown(items[i], subject)
    {
      hide Less, Shown;
      PositionsAreOrdered();
      var filtered := Filter(rows, x => Shown(x, subject) && (after.None? || Less(after.value, At(x))), At);
      FilteredIsAfter(rows, subject, after, filtered);
      FirstRowsArePage(Less, At, filtered, Visible(rows, subject), after, limit);
      items := FirstRows(Less, At, filtered, limit);
      assert forall i :: 0 <= i < |items| ==> items[i] in filtered;
    }
  }

  lemma FilteredIsAfter(rows: Rows, subject: string, after: Option<Position>, items: seq<Item>)
    requires forall x :: x in items <==>
               Shown(x, subject) && (after.None? || Less(after.value, At(x))) && exists k :: k in rows && rows[k] == x
    ensures forall p :: p in After(Visible(rows, subject), Less, after) <==> p in Keys(At, items)
  {
    hide Less, Shown;
    forall p | p in After(Visible(rows, subject), Less, after) ensures p in Keys(At, items) {
      var k :| k in rows && Shown(rows[k], subject) && At(rows[k]) == p;
      assert rows[k] in items;
      var i :| 0 <= i < |items| && items[i] == rows[k];
      assert Keys(At, items)[i] == p;
    }
    forall p | p in Keys(At, items) ensures p in After(Visible(rows, subject), Less, after) {
      var i :| 0 <= i < |items| && Keys(At, items)[i] == p;
      assert items[i] in items;
    }
  }

  // ---------- the service ----------

  predicate LowerHex(c: char) { '0' <= c <= '9' || 'a' <= c <= 'f' }

  /** The one spelling of a UUID that parsing and printing leaves alone. */
  predicate CanonicalUUID(s: string) {
    && |s| == 36
    && forall i :: 0 <= i < 36 ==> if i in {8, 13, 18, 23} then s[i] == '-' else LowerHex(s[i])
  }

  /** What the service accepts as a cursor. */
  predicate FitsCursor(p: Position) { p.at != ZERO_TIME && CanonicalUUID(p.id) }

  /** What a cursor's text can carry: a time in the years 1 to 9999 and a canonical
      ID. Such an ID is always good for a node ID too. */
  predicate Encodable(p: Position) { ZERO_TIME < p.at < YEAR_10000 && CanonicalUUID(p.id) }

  datatype Error = EmptySubject | InvalidPageSize | InvalidIdentifier

  function ValidatePage(subject: string, after: Option<Position>, limit: int, maximum: int): (e: Option<Error>)
    ensures e.None? <==>
              && subject != "" && 1 <= limit <= maximum
              && (after.Some? ==> after.value.at != ZERO_TIME && CanonicalUUID(after.value.id))
  {
    if subject == "" then Some(EmptySubject)
    else if limit < 1 || limit > maximum then Some(InvalidPageSize)
    else if after.Some? && (after.value.at == ZERO_TIME || !CanonicalUUID(after.value.id)) then Some(InvalidIdentifier)
    else None
  }

  datatype PageResult = Listed(items: seq<Item>, hasNext: bool) | Refused(error: Error)

  /** One row more than asked for tells whether another page follows. */
  method ListPage(store: Store, subject: string, after: Option<Position>, first: int) returns (page: PageResult)
    requires Keyed(store.rows)
    ensures page.Refused? <==> ValidatePage(subject, after, first, 100).Some?
    ensures page.Refused? ==> Some(page.error) == ValidatePage(subject, after, first, 100)
    ensures page.Listed? ==>
              && StrictTotal(Less) && first >= 1
              && Positions(page.items) == Page(Visible(store.rows, subject), Less, after, first)
              && (page.hasNext <==> |After(Visible(store.rows, subject), Less, after)| > first)
              && (forall i :: 0 <= i < |page.items| ==>
                    page.items[i].id in store.rows && page.items[i] == store.rows[page.items[i].id] && Shown(page.items[i], subject))
  {
    hide Less, Shown, Visible;
    var refusal := ValidatePage(subject, after, first, 100);
    if refusal.Some? { return Refused(refusal.value); }
    var items := store.ListPage(subject, after, first + 1);
    ghost var all := Listing(After(Visible(store.rows, subject), Less, after), Less);
    assert |items| == |Positions(items)|;
    var hasNext := |items| > first;
    if hasNext {
      page := Listed(items[..first], true);
      assert Positions(items[..first]) == Positions(items)[..first];
    } else {
      page := Listed(items, false);
    }
  }

  // ---------- the resolvers ----------

  /** What a resolver demands of one row before it looks at the order. */
  predicate Presentable(i: Item, subject: string) {
    Shown(i, subject) && i.createdAt != ZERO_TIME && i.updatedAt != ZERO_TIME
  }

  /** Strictly ascending positions beyond the cursor, and no more than asked for. */
  ghost predicate InSequence(ps: seq<Position>, after: Option<Position>, limit: int) {
    && |ps| <= limit && Ascending(Less, ps)
    && forall i :: 0 <= i < |ps| ==> after.None? || Less(after.value, ps[i])
  }

  /** A page a resolver passes on. */
  ghost predicate Acceptable(items: seq<Item>, subject: string, after: Option<Position>, limit: int) {
    && InSequence(Positions(items), after, limit)
    && forall i :: 0 <= i < |items| ==> Presentable(items[i], subject) && Encodable(At(items[i]))
  }

  /** Comparing each row with the one before it, the cursor standing before the first. */
  method CheckConnections(items: seq<Item>, subject: string, after: Option<Position>, limit: int) returns (edges: Option<seq<Position>>)
    ensures edges.Some? <==> Acceptable(items, subject, after, limit)
    ensures edges.Some? ==> edges.value == Positions(items)
  {
    hide Less, Presentable, Encodable, InSequence;
    PositionsAreOrdered();
    ghost var ps := Positions(items);
    if |items| > limit { TooLong(ps, after, limit); return None; }
    var previous := after;
    var cursors: seq<Position> := [];
    EmptyInSequence(after, limit);
    for n := 0 to |items|
      invariant previous == if n == 0 then after else Some(At(items[n - 1]))
      invariant cursors == ps[..n]
      invariant InSequence(cursors, after, limit)
      invariant forall i :: 0 <= i < n ==> Presentable(items[i], subject) && Encodable(At(items[i]))
    {
      if !Presentable(items[n], subject) { return None; }
      var current := At(items[n]);
      if previous.Some? && ComparePositions(current, previous.value) <= 0 {
        Rejects(ps, after, limit, n);
        return None;
      }
      if !Encodable(current) { return None; }
      assert n > 0 ==> cursors[n - 1] == ps[n - 1];
      Extends(cursors, current, after, limit);
      cursors := cursors + [current];
      previous := Some(current);
    }
    assert ps[..|ps|] == ps;
    return Some(cursors);
  }

  /** A sync job as its resolver reads it. */
  datatype Job = Job(id: string, connection: string, createdAt: int, updatedAt: int, attempt: int)

  function JobAt(j: Job): Position { Position(j.createdAt, j.id) }

  predicate PresentableJob(j: Job, connection: string) {
    j.connection == connection && j.createdAt != ZERO_TIME && j.updatedAt != ZERO_TIME && j.attempt >= 0
  }

  /** The sync-job resolver compares with the cursor every time, and with the row
      before it unless that is missing. */
  method CheckSyncJobs(jobs: seq<Job>, connection: string, after: Option<Position>, limit: int) returns (edges: Option<seq<Position>>)
    ensures edges.Some? <==>
              && InSequence(Keys(JobAt, jobs), after, limit)
              && forall i :: 0 <= i < |jobs| ==>
                   && jobs[i].connection == connection && jobs[i].attempt >= 0 && jobs[i].updatedAt != ZERO_TIME
                   && Encodable(JobAt(jobs[i]))
    ensures edges.Some? ==> edges.value == Keys(JobAt, jobs)
  {
    hide Less, Encodable, InSequence;
    PositionsAreOrdered();
    ghost var ps := Keys(JobAt, jobs);
    if |jobs| > limit { TooLong(ps, after, limit); return None; }
    var previous := Position(ZERO_TIME, "");
    var cursors: seq<Position> := [];
    EmptyInSequence(after, limit);
    for n := 0 to |jobs|
      invariant previous == if n == 0 then Position(ZERO_TIME, "") else JobAt(jobs[n - 1])
      invariant cursors == ps[..n]
      invariant InSequence(cursors, after, limit)
      invariant forall i :: 0 <= i < n ==> PresentableJob(jobs[i], connection) && Encodable(JobAt(jobs[i]))
    {
      if !PresentableJob(jobs[n], connection) {
        UntimedIsNoCursor(JobAt(jobs[n]));
        return None;
      }
      var current := JobAt(jobs[n]);
      if (after.Some? && ComparePositions(current, after.value) <= 0)
        || (previous.at != ZERO_TIME && ComparePositions(current, previous) <= 0) {
        Rejects(ps, after, limit, n);
        return None;
      }
      if !Encodable(current) { return None; }
      assert n > 0 ==> cursors[n - 1] == ps[n - 1];
      Extends(cursors, current, after, limit);
      cursors := cursors + [current];
      previous := current;
    }
    assert ps[..|ps|] == ps;
    return Some(cursors);
  }

  lemma UntimedIsNoCursor(p: Position)
    ensures p.at == ZERO_TIME ==> !Encodable(p)
  {
  }

  lemma EmptyInSequence(after: Option<Position>, limit: int)
    ensures limit >= 0 ==> InSequence([], after, limit)
  {
  }

  lemma TooLong(ps: seq<Position>, after: Option<Position>, limit: int)
    requires |ps| > limit
    ensures !InSequence(ps, after, limit)
  {
  }

  /** A row not beyond the cursor, or not beyond its predecessor, spoils the page. */
  lemma Rejects(ps: seq<Position>, after: Option<Position>, limit: int, n: int)
    requires 0 <= n < |ps|
    requires (after.Some? && !Less(after.value, ps[n])) || (n > 0 && !Less(ps[n - 1], ps[n]))
    ensures !InSequence(ps, after, limit)
  {
    hide Less;
  }

  /** A row beyond the cursor and its predecessor keeps the page in order. */
  lemma Extends(ps: seq<Position>, p: Position, after: Option<Position>, limit: int)
    requires InSequence(ps, after, limit) && |ps| < limit
    requires if ps == [] then after.None? || Less(after.value, p) else Less(ps[|ps| - 1], p)
    ensures InSequence(ps + [p], after, limit)
  {
    hide Less;
    PositionsAreOrdered();
    forall i | 0 <= i < |ps| ensures Less(ps[i], p) {
      if i < |ps| - 1 { assert Less(ps[i], ps[|ps| - 1]); }
    }
  }

  /** The row at a position can be shown: it has an update time, and its own time and
      ID make a cursor. */
  predicate Servable(rows: Rows, p: Position) {
    Encodable(p) && p.id in rows && rows[p.id].updatedAt != ZERO_TIME
  }

  /** The resolver passes on a page the service gives it exactly when every row of it
      is servable: the order is never at fault. */
  method Resolve(store: Store, subject: string, after: Option<Position>, first: int) returns (edges: Option<seq<Position>>, hasNext: bool)
    requires Keyed(store.rows) && ValidatePage(subject, after, first, 100).None?
    ensures StrictTotal(Less) && first >= 1
    ensures edges.Some? <==> forall p :: p in Page(Visible(store.rows, subject), Less, after, first) ==> Servable(store.rows, p)
    ensures edges.Some? ==> edges.value == Page(Visible(store.rows, subject), Less, after, first)
    ensures hasNext <==> |After(Visible(store.rows, subject), Less, after)| > first
  {
    hide Less, Shown, Visible, Servable, Presentable;
    var page := ListPage(store, subject, after, first);
    PageIsInSequence(store.rows, subject, after, first);
    RowsDecide(store.rows, subject, page.items);
    edges := CheckConnections(page.items, subject, after, first);
    hasNext := page.hasNext;
  }

  lemma RowsDecide(rows: Rows, subject: string, items: seq<Item>)
    requires forall i :: 0 <= i < |items| ==> items[i].id in rows && items[i] == rows[items[i].id] && Shown(items[i], subject)
    ensures (forall i :: 0 <= i < |items| ==> Presentable(items[i], subject) && Encodable(At(items[i]))) <==>
            (forall p :: p in Positions(items) ==> Servable(rows, p))
  {
    hide Shown, CanonicalUUID;
    forall p | (forall i :: 0 <= i < |items| ==> Presentable(items[i], subject) && Encodable(At(items[i]))) && p in Positions(items)
      ensures Servable(rows, p)
    {
      var i :| 0 <= i < |items| && Positions(items)[i] == p;
      assert Presentable(items[i], subject);
    }
    forall i | (forall p :: p in Positions(items) ==> Servable(rows, p)) && 0 <= i < |items|
      ensures Presentable(items[i], subject) && Encodable(At(items[i]))
    {
      assert Servable(rows, Positions(items)[i]);
    }
  }

  /** A stored connection may have any ID. One that is no UUID makes the resolver
      refuse the page although it has both times and stands alone. */
  lemma OddIDIsRefused()
    ensures var row := Item("c1", "owner", 5, 5, false);
            && Keyed(map["c1" := row]) && Visible(map["c1" := row], "owner") == {At(row)}
            && Presentable(row, "owner") && InSequence([At(row)], None, 1)
            && !Acceptable([row], "owner", None, 1)
  {
    var row := Item("c1", "owner", 5, 5, false);
    var rows := map["c1" := row];
    assert Shown(rows["c1"], "owner") && rows.Keys == {"c1"};
    assert !Encodable(At([row][0]));
  }

  lemma PageIsInSequence(rows: Rows, subject: string, after: Option<Position>, first: int)
    requires StrictTotal(Less) && first >= 1
    ensures InSequence(Page(Visible(rows, subject), Less, after, first), after, first)
  {
    hide Less, Visible, StrictTotal;
    var all := Listing(After(Visible(rows, subject), Less, after), Less);
    forall i | 0 <= i < |all| ensures after.None? || Less(after.value, all[i]) {
      assert all[i] in Elements(all);
    }
  }

  // ---------- walking all pages ----------

  /** Each next page begins after the last row of the page before. */
  lemma PageAdvances<T(!new)>(s: set<T>, less: (T, T) -> bool, cursor: Option<T>, first: int)
    requires StrictTotal(less) && first >= 1 && |After(s, less, cursor)| > first
    ensures var p := Page(s, less, cursor, first);
            && |p| == first
            && Listing(After(s, less, cursor), less) == p + Listing(After(s, less, Some(p[first - 1])), less)
            && |After(s, less, Some(p[first - 1]))| < |After(s, less, cursor)|
  {
    hide StrictTotal, Ascending, Listing, After;
    var all := Listing(After(s, less, cursor), less);
    ListingSplit(s, less, cursor, first);
    assert all == all[..first] + all[first..];
  }

  /** All pages of a set that stays as it is, read one after another. */
  ghost function Walk<T(!new)>(s: set<T>, less: (T, T) -> bool, cursor: Option<T>, first: int): seq<T>
    requires StrictTotal(less) && first >= 1
    decreases |After(s, less, cursor)|
  {
    var p := Page(s, less, cursor, first);
    if |After(s, less, cursor)| <= first then p
    else
      PageAdvances(s, less, cursor, first);
      p + Walk(s, less, Some(p[first - 1]), first)
  }

  /** The pages end and concatenate to the whole sorted list. */
  lemma {:induction false} WalkIsListing<T(!new)>(s: set<T>, less: (T, T) -> bool, cursor: Option<T>, first: int)
    requires StrictTotal(less) && first >= 1
    ensures Walk(s, less, cursor, first) == Listing(After(s, less, cursor), less)
    decreases |After(s, less, cursor)|
  {
    hide After, Listing;
    if |After(s, less, cursor)| > first {
      PageAdvances(s, less, cursor, first);
      WalkIsListing(s, less, Some(Page(s, less, cursor, first)[first - 1]), first);
    }
  }

  /** How many rows k full pages hold. */
  function Full(first: int, k: int): int { k * first }

  /** The last row of the k-th page, if another follows it, is no cursor. */
  predicate Breaks(all: seq<Position>, first: int, k: int) {
    k >= 1 && 1 <= Full(first, k) < |all| && !FitsCursor(all[Full(first, k) - 1])
  }

  /** A client that asks the service for page after page, each from the last row of
      the one before, reads every visible row once and in order. The service refuses
      it exactly for its own arguments or a page whose last row is no cursor. */
  method ReadAll(store: Store, subject: string, first: int) returns (all: Option<seq<Item>>)
    requires Keyed(store.rows)
    ensures StrictTotal(Less)
    ensures all.Some? ==>
              && first >= 1 && Positions(all.value) == Walk(Visible(store.rows, subject), Less, None, first)
              && Positions(all.value) == Listing(Visible(store.rows, subject), Less)
    ensures all.None? <==>
              ValidatePage(subject, None, first, 100).Some? || exists k :: Breaks(Listing(Visible(store.rows, subject), Less), first, k)
  {
    hide *;
    PositionsAreOrdered();
    ghost var rows := Visible(store.rows, subject);
    ghost var whole, rest, k := Listing(rows, Less), Listing(rows, Less), 0;
    var after: Option<Position> := None;
    var items: seq<Item> := [];
    NothingRead(rows, Less);
    ReadingBegins(whole, first);
    while true
      invariant rest == Listing(After(rows, Less, after), Less)
      invariant Reading(whole, rest, first, Positions(items), after, k)
      decreases |After(rows, Less, after)|
    {
      var page := ListPage(store, subject, after, first);
      Admits(subject, after, first);
      if page.Refused? {
        RefusedPage(whole, rest, first, Positions(items), after, k);
        return None;
      }
      ghost var read, shown := Positions(items), Positions(page.items);
      items := items + page.items;
      assert Positions(items) == read + shown;
      if !page.hasNext {
        WholePage(rows, Less, after, first);
        ReadingEnds(whole, rest, first, read, after, k);
        WalkIsListing(rows, Less, None, first);
        return Some(items);
      }
      PageAdvances(rows, Less, after, first);
      ghost var left := Listing(After(rows, Less, Some(shown[first - 1])), Less);
      MoreRows(rows, after, first, shown);
      ReadingGoesOn(whole, rest, first, read, after, k, shown, left);
      after := Some(At(page.items[first - 1]));
      k, rest := k + 1, left;
    }
  }

  /** After k pages of a walk: what is read and what is left make the whole list, the
      cursor is the last row read, and no cursor so far was refused. */
  ghost predicate Reading(whole: seq<Position>, rest: seq<Position>, first: int, read: seq<Position>, after: Option<Position>, k: int) {
    && read + rest == whole && k >= 0 && |read| == Full(first, k) && (k == 0 <==> after.None?)
    && (k > 0 ==> 1 <= first && 1 <= Full(first, k) < |whole| && after == Some(whole[Full(first, k) - 1]))
    && forall j :: 1 <= j < k ==> !Breaks(whole, first, j)
  }

  lemma ReadingBegins(whole: seq<Position>, first: int)
    ensures Reading(whole, whole, first, [], None, 0)
  {
    OneMorePage(first, -1);
  }

  lemma ReadingGoesOn(whole: seq<Position>, rest: seq<Position>, first: int, read: seq<Position>, after: Option<Position>, k: int,
                      page: seq<Position>, left: seq<Position>)
    requires Reading(whole, rest, first, read, after, k) && (after.Some? ==> FitsCursor(after.value))
    requires rest == page + left && |page| == first >= 1 && |left| > 0
    ensures Reading(whole, left, first, read + page, Some(page[first - 1]), k + 1)
  {
    hide Full, FitsCursor, Breaks;
    NoBreakAt(whole, first, k, after);
    assert whole == read + page + left;
    Grows(whole, first, read, page, left, k);
  }

  lemma ReadingEnds(whole: seq<Position>, rest: seq<Position>, first: int, read: seq<Position>, after: Option<Position>, k: int)
    requires Reading(whole, rest, first, read, after, k) && (after.Some? ==> FitsCursor(after.value))
    requires |rest| <= first && first >= 1
    ensures read + rest == whole && forall j :: !Breaks(whole, first, j)
  {
    hide Full, FitsCursor, Breaks;
    NoBreakAt(whole, first, k, after);
    NoMorePages(whole, first, k, |rest|);
  }

  lemma RefusedPage(whole: seq<Position>, rest: seq<Position>, first: int, read: seq<Position>, after: Option<Position>, k: int)
    requires Reading(whole, rest, first, read, after, k)
    ensures after.Some? && !FitsCursor(after.value) ==> exists j :: Breaks(whole, first, j)
  {
    hide Full, FitsCursor;
    if after.Some? && !FitsCursor(after.value) { assert Breaks(whole, first, k); }
  }

  /** The last page is all that is left. */
  lemma WholePage<T(!new)>(s: set<T>, less: (T, T) -> bool, cursor: Option<T>, first: int)
    requires StrictTotal(less) && first >= 1 && |After(s, less, cursor)| <= first
    ensures Page(s, less, cursor, first) == Listing(After(s, less, cursor), less) && |Page(s, less, cursor, first)| <= first
  {
    hide StrictTotal, After;
  }

  lemma MoreRows(rows: set<Position>, after: Option<Position>, first: int, page: seq<Position>)
    requires StrictTotal(Less) && first >= 1 && page == Page(rows, Less, after, first) && |After(rows, Less, after)| > first
    ensures |page| == first && |Listing(After(rows, Less, Some(page[first - 1])), Less)| > 0
  {
    hide Less, StrictTotal, After;
    PageAdvances(rows, Less, after, first);
  }

  lemma NoBreakAt(whole: seq<Position>, first: int, k: int, after: Option<Position>)
    requires after.Some? ==> FitsCursor(after.value)
    requires k > 0 ==> 1 <= Full(first, k) < |whole| && after == Some(whole[Full(first, k) - 1])
    ensures !Breaks(whole, first, k)
  {
  }

  lemma Grows(whole: seq<Position>, first: int, read: seq<Position>, page: seq<Position>, rest: seq<Position>, k: int)
    requires whole == read + page + rest && |rest| > 0 && |page| == first >= 1 && |read| == Full(first, k)
    ensures |read + page| == Full(first, k + 1) && 1 <= Full(first, k + 1) < |whole|
    ensures whole[Full(first, k + 1) - 1] == page[first - 1]
  {
    OneMorePage(first, k);
  }

  /** Beyond the last page no place is left for a break. */
  lemma NoMorePages(all: seq<Position>, first: int, k: int, rest: int)
    requires first >= 1 && k >= 0 && |all| == Full(first, k) + rest && 0 <= rest <= first
    ensures forall j :: j > k || j < 1 ==> !Breaks(all, first, j)
  {
    hide FitsCursor, Full;
    forall j | j > k ensures !Breaks(all, first, j) {
      LaterPage(first, k, j);
    }
  }

  lemma OneMorePage(first: int, k: int)
    ensures Full(first, k + 1) == Full(first, k) + first
    ensures k == -1 ==> Full(first, k + 1) == 0
  {
  }

  lemma {:induction false} LaterPage(first: int, k: int, j: int)
    requires first >= 1 && j > k
    ensures Full(first, j) >= Full(first, k) + first
    decreases j - k
  {
    hide Full;
    OneMorePage(first, j - 1);
    if j - 1 > k { LaterPage(first, k, j - 1); }
  }

  lemma Admits(subject: string, after: Option<Position>, first: int)
    ensures ValidatePage(subject, after, first, 100).None? <==>
              ValidatePage(subject, None, first, 100).None? && (after.Some? ==> FitsCursor(after.value))
    ensures ValidatePage(subject, after, first, 100).None? ==> 1 <= first <= 100
  {
    hide CanonicalUUID;
  }

  /** The same walk through the resolver succeeds exactly when every visible row is
      servable, whatever the page size. */
  method ResolveAll(store: Store, subject: string, first: int) returns (all: Option<seq<Position>>)
    requires Keyed(store.rows)
    ensures StrictTotal(Less)
    ensures all.Some? ==> all.value == Listing(Visible(store.rows, subject), Less)
    ensures all.Some? <==>
              && ValidatePage(subject, None, first, 100).None?
              && forall p :: p in Visible(store.rows, subject) ==> Servable(store.rows, p)
  {
    hide *;
    PositionsAreOrdered();
    Admits(subject, None, first);
    if ValidatePage(subject, None, first, 100).Some? { return None; }
    ghost var rows := Visible(store.rows, subject);
    var after: Option<Position> := None;
    var read: seq<Position> := [];
    NothingRead(rows, Less);
    while true
      invariant read + Listing(After(rows, Less, after), Less) == Listing(rows, Less)
      invariant ValidatePage(subject, after, first, 100).None?
      invariant forall p :: p in read ==> Servable(store.rows, p)
      decreases |After(rows, Less, after)|
    {
      var edges, hasNext := Resolve(store, subject, after, first);
      ghost var page := Page(rows, Less, after, first);
      PageJoins(rows, Less, after, first, read, page);
      PageOfRows(rows, Less, after, first);
      if edges.None? { return None; }
      read := read + edges.value;
      if !hasNext {
        ListsAll(rows, Less, read);
        return Some(read);
      }
      after := Some(edges.value[first - 1]);
      ServableFits(store.rows, after.value);
      Admits(subject, after, first);
    }
  }

  lemma ServableFits(rows: Rows, p: Position)
    requires Servable(rows, p)
    ensures FitsCursor(p)
  {
  }

  lemma PageOfRows<T(!new)>(s: set<T>, less: (T, T) -> bool, cursor: Option<T>, first: int)
    requires StrictTotal(less) && first >= 1
    ensures forall x :: x in Page(s, less, cursor, first) ==> x in s
  {
    hide *;
    PageElements(s, less, cursor, first);
  }

  lemma ListsAll<T(!new)>(s: set<T>, less: (T, T) -> bool, all: seq<T>)
    requires StrictTotal(less) && all == Listing(s, less)
    ensures forall x :: x in all <==> x in s
  {
    assert forall x :: x in all <==> x in Elements(all);
  }

  lemma NothingRead<T(!new)>(s: set<T>, less: (T, T) -> bool)
    requires StrictTotal(less)
    ensures After(s, less, None) == s
  {
  }

  /** One more page in a walk over a set that stays as it is. */
  lemma PageJoins<T(!new)>(s: set<T>, less: (T, T) -> bool, cursor: Option<T>, first: int, read: seq<T>, p: seq<T>)
    requires StrictTotal(less) && first >= 1 && p == Page(s, less, cursor, first)
    requires read + Listing(After(s, less, cursor), less) == Listing(s, less)
    ensures |After(s, less, cursor)| <= first ==> read + p == Listing(s, less)
    ensures |After(s, less, cursor)| > first ==>
              && |p| == first && p[first - 1] in s
              && read + p + Listing(After(s, less, Some(p[first - 1])), less) == Listing(s, less)
              && |After(s, less, Some(p[first - 1]))| < |After(s, less, cursor)|
  {
    hide StrictTotal, Listing, After, Ascending;
    if |After(s, less, cursor)| > first {
      PageAdvances(s, less, cursor, first);
      PageElements(s, less, cursor, first);
      assert p[first - 1] in p;
      var rest := Listing(After(s, less, Some(p[first - 1])), less);
      assert read + (p + rest) == read + p + rest;
    }
  }

  /** The pages read while the set changes from page to page. */
  ghost function Visits<T(!new)>(snaps: seq<set<T>>, less: (T, T) -> bool, cursor: Option<T>, first: int): seq<T>
    requires StrictTotal(less) && first >= 1
    decreases |snaps|
  {
    if snaps == [] then []
    else
      var p := Page(snaps[0], less, cursor, first);
      if p == [] then [] else p + Visits(snaps[1..], less, Some(p[|p| - 1]), first)
  }

  /** A walk that goes on exactly while another page is announced. */
  ghost predicate Complete<T(!new)>(snaps: seq<set<T>>, less: (T, T) -> bool, cursor: Option<T>, first: int)
    requires StrictTotal(less) && first >= 1
    decreases |snaps|
  {
    && snaps != []
    && if |snaps| == 1 then |After(snaps[0], less, cursor)| <= first
       else
         && |After(snaps[0], less, cursor)| > first
         && (PageAdvances(snaps[0], less, cursor, first);
             Complete(snaps[1..], less, Some(Page(snaps[0], less, cursor, first)[first - 1]), first))
  }

  predicate Beyond<T>(less: (T, T) -> bool, cursor: Option<T>, x: T) { cursor.None? || less(cursor.value, x) }

  lemma PageElements<T(!new)>(s: set<T>, less: (T, T) -> bool, cursor: Option<T>, first: int)
    requires StrictTotal(less) && first >= 1
    ensures var p := Page(s, less, cursor, first);
            && Ascending(less, p) && (forall x :: x in p ==> x in s && Beyond(less, cursor, x))
            && (|After(s, less, cursor)| <= first ==> forall x :: x in s && Beyond(less, cursor, x) ==> x in p)
            && (|After(s, less, cursor)| > first ==>
                  |p| == first && forall x :: x in s && Beyond(less, cursor, x) ==> x in p || less(p[first - 1], x))
  {
    hide StrictTotal, Listing, After, Beyond, Page;
    var all := Listing(After(s, less, cursor), less);
    var p := Page(s, less, cursor, first);
    PageIsPrefix(s, less, cursor, first);
    AfterHas(s, less, cursor);
    assert forall x :: x in all <==> x in Elements(all);
    assert forall x :: x in p ==> x in all;
    if |After(s, less, cursor)| > first {
      PageAdvances(s, less, cursor, first);
      var rest := Listing(After(s, less, Some(p[first - 1])), less);
      AfterHas(s, less, Some(p[first - 1]));
      forall x | x in rest ensures less(p[first - 1], x) {
        assert x in Elements(rest);
        BeyondSome(less, p[first - 1], x);
      }
      assert forall x :: x in all ==> x in p || x in rest;
    }
  }

  lemma PageIsPrefix<T(!new)>(s: set<T>, less: (T, T) -> bool, cursor: Option<T>, first: int)
    requires StrictTotal(less) && first >= 1
    ensures var p, all := Page(s, less, cursor, first), Listing(After(s, less, cursor), less);
            |p| <= |all| && p == all[..|p|] && Ascending(less, p) && (|After(s, less, cursor)| <= first ==> p == all)
  {
    hide StrictTotal, Listing, After;
  }

  lemma AfterHas<T(!new)>(s: set<T>, less: (T, T) -> bool, cursor: Option<T>)
    ensures forall x :: x in After(s, less, cursor) <==> x in s && Beyond(less, cursor, x)
  {
  }

  lemma BeyondSome<T(!new)>(less: (T, T) -> bool, c: T, x: T)
    ensures Beyond(less, Some(c), x) <==> less(c, x)
  {
  }

  /** Whatever is inserted or removed between pages, no row is returned twice, and
      a row present at every page is returned exactly once. */
  lemma {:induction false} StableRowsAreVisitedOnce<T(!new)>(snaps: seq<set<T>>, less: (T, T) -> bool, cursor: Option<T>, first: int)
    requires StrictTotal(less) && first >= 1 && Complete(snaps, less, cursor, first)
    ensures var visits := Visits(snaps, less, cursor, first);
            && Ascending(less, visits)
            && (forall x :: x in visits ==> Beyond(less, cursor, x) && exists i :: 0 <= i < |snaps| && x in snaps[i])
            && (forall x :: Beyond(less, cursor, x) && (forall i :: 0 <= i < |snaps| ==> x in snaps[i]) ==> x in visits)
    decreases |snaps|
  {
    hide StrictTotal, Ascending, After, Page, Beyond;
    var p := Page(snaps[0], less, cursor, first);
    PageElements(snaps[0], less, cursor, first);
    if |snaps| == 1 {
      assert p == [] || Visits(snaps[1..], less, Some(p[|p| - 1]), first) == [];
      assert Visits(snaps, less, cursor, first) == p;
      assert forall x :: x in p ==> x in snaps[0];
    } else {
      var next := Some(p[first - 1]);
      var rest := Visits(snaps[1..], less, next, first);
      StableRowsAreVisitedOnce(snaps[1..], less, next, first);
      assert Visits(snaps, less, cursor, first) == p + rest;
      JoinsAscending(less, cursor, p, rest);
      SinceBeyond(less, cursor, p, snaps[0], first);
      forall x | x in rest ensures exists i :: 0 <= i < |snaps| && x in snaps[i] {
        var i :| 0 <= i < |snaps[1..]| && x in snaps[1..][i];
        assert x in snaps[i + 1];
      }
      forall x | Beyond(less, cursor, x) && (forall i :: 0 <= i < |snaps| ==> x in snaps[i]) ensures x in p + rest {
        assert x in snaps[0];
        assert forall i :: 0 <= i < |snaps[1..]| ==> x in snaps[1..][i];
      }
    }
  }

  /** A row of the set beyond the cursor is on the page or beyond its last row. */
  lemma SinceBeyond<T(!new)>(less: (T, T) -> bool, cursor: Option<T>, p: seq<T>, s: set<T>, first: int)
    requires first >= 1 && |p| == first
    requires forall x :: x in s && Beyond(less, cursor, x) ==> x in p || less(p[first - 1], x)
    ensures forall x :: x in s && Beyond(less, cursor, x) ==> x in p || Beyond(less, Some(p[first - 1]), x)
  {
  }

  lemma JoinsAscending<T(!new)>(less: (T, T) -> bool, cursor: Option<T>, p: seq<T>, rest: seq<T>)
    requires StrictTotal(less) && p != [] && Ascending(less, p) && Ascending(less, rest)
    requires forall x :: x in p ==> Beyond(less, cursor, x)
    requires forall x :: x in rest ==> Beyond(less, Some(p[|p| - 1]), x)
    ensures Ascending(less, p + rest)
    ensures forall x :: x in rest ==> Beyond(less, cursor, x)
  {
    var last := p[|p| - 1];
    forall x | x in rest ensures forall i :: 0 <= i < |p| ==> less(p[i], x) {
      forall i | 0 <= i < |p| ensures less(p[i], x) {
        assert less(last, x);
        if i < |p| - 1 { assert less(p[i], last); }
      }
    }
    assert last in p;
    forall i, j | 0 <= i < j < |p + rest| ensures less((p + rest)[i], (p + rest)[j]) {
      if i < |p| <= j { assert rest[j - |p|] in rest; }
    }
  }
}
