/** Session pages, newest first, from the in-memory auth store. */
module SessionPaging {
  import opened Keyset
  import opened Paging
  import AuthStore

  type Sessions = map<AuthStore.Digest, AuthStore.Session>

  predicate NewestFirst(a: Position, b: Position) {
    if a.at == b.at then Compare(a.id, b.id) < 0 else a.at > b.at
  }

  /** The test by which the session page passes over a row. */
  predicate PassedOver(session: Position, after: Option<Position>) {
    && after.Some?
    && !(session.at < after.value.at)
    && (session.at != after.value.at || Compare(session.id, after.value.id) <= 0)
  }

  lemma NewestFirstIsOrder()
    ensures StrictTotal(NewestFirst)
  {
    forall x, y ensures x != y ==> NewestFirst(x, y) || NewestFirst(y, x) {
      CompareFlips(x.id, y.id);
    }
    forall x, y, z ensures NewestFirst(x, y) && NewestFirst(y, z) ==> NewestFirst(x, z) {
      if NewestFirst(x, y) && NewestFirst(y, z) && x.at == y.at == z.at { CompareTransitive(x.id, y.id, z.id); }
    }
  }

  /** Newest-first is a strict order, and the test keeps exactly what comes after the cursor. */
  lemma SessionsAreOrdered(session: Position, after: Option<Position>)
    ensures StrictTotal(NewestFirst)
    ensures !PassedOver(session, after) <==> Beyond(NewestFirst, after, session)
  {
    NewestFirstIsOrder();
    if after.Some? { CompareFlips(session.id, after.value.id); }
  }

  function SessionAt(s: AuthStore.Session): Position { Position(s.createdAt, s.id) }

  /** Session IDs are fresh random values. */
  ghost predicate DistinctIDs(sessions: Sessions) {
    forall d, e :: d in sessions && e in sessions && d != e ==> sessions[d].id != sessions[e].id
  }

  /** The positions of a user's sessions. */
  ghost function Owned(sessions: Sessions, user: AuthStore.UserID): set<Position> {
    set d | d in sessions && sessions[d].user == user :: SessionAt(sessions[d])
  }

  /** Up to one more than first of the user's sessions beyond the cursor. */
  method ListSessionsPage(store: AuthStore.MemoryStore, user: AuthStore.UserID, after: Option<Position>, first: int)
      returns (page: Option<seq<AuthStore.Session>>)
    requires DistinctIDs(store.sessions)
    ensures page.Some? <==> 1 <= first <= 100
    ensures page.Some? ==>
              StrictTotal(NewestFirst) && Keys(SessionAt, page.value) == Page(Owned(store.sessions, user), NewestFirst, after, first + 1)
    ensures page.Some? ==>
              forall s :: s in page.value ==> s.user == user && exists d :: d in store.sessions && store.sessions[d] == s
  {
    hide NewestFirst, PassedOver;
    if first < 1 || first > 100 { return None; }
    NewestFirstIsOrder();
    var items := Filter(store.sessions, (s: AuthStore.Session) => s.user == user && !PassedOver(SessionAt(s), after), SessionAt);
    FilteredIsAfterCursor(store.sessions, user, after, items);
    FirstRowsArePage(NewestFirst, SessionAt, items, Owned(store.sessions, user), after, first + 1);
    page := Some(FirstRows(NewestFirst, SessionAt, items, first + 1));
  }

  lemma FilteredIsAfterCursor(sessions: Sessions, user: AuthStore.UserID, after: Option<Position>, items: seq<AuthStore.Session>)
    requires forall s :: s in items <==>
               s.user == user && !PassedOver(SessionAt(s), after) && exists d :: d in sessions && sessions[d] == s
    ensures forall p :: p in After(Owned(sessions, user), NewestFirst, after) <==> p in Keys(SessionAt, items)
  {
    hide NewestFirst, PassedOver, StrictTotal;
    forall p ensures !PassedOver(p, after) <==> Beyond(NewestFirst, after, p) { SessionsAreOrdered(p, after); }
    forall p | p in After(Owned(sessions, user), NewestFirst, after) ensures p in Keys(SessionAt, items) {
      var d :| d in sessions && sessions[d].user == user && SessionAt(sessions[d]) == p;
      assert Beyond(NewestFirst, after, p);
      assert sessions[d] in items;
      var i :| 0 <= i < |items| && items[i] == sessions[d];
      assert Keys(SessionAt, items)[i] == p;
    }
    forall p | p in Keys(SessionAt, items) ensures p in After(Owned(sessions, user), NewestFirst, after) {
      var i :| 0 <= i < |items| && Keys(SessionAt, items)[i] == p;
      assert items[i] in items;
      assert Beyond(NewestFirst, after, p);
    }
  }

  /** Reading page after page, each from the last session shown, gives every session
      of the user once, newest first. */
  method ReadAllSessions(store: AuthStore.MemoryStore, user: AuthStore.UserID, first: int) returns (all: Option<seq<AuthStore.Session>>)
    requires DistinctIDs(store.sessions)
    ensures all.Some? <==> 1 <= first <= 100
    ensures all.Some? ==>
              StrictTotal(NewestFirst) && Keys(SessionAt, all.value) == Listing(Owned(store.sessions, user), NewestFirst)
  {
    hide *;
    NewestFirstIsOrder();
    if first < 1 || first > 100 { return None; }
    ghost var owned := Owned(store.sessions, user);
    var after: Option<Position> := None;
    var items: seq<AuthStore.Session> := [];
    NothingRead(owned, NewestFirst);
    while true
      invariant Keys(SessionAt, items) + Listing(After(owned, NewestFirst, after), NewestFirst) == Listing(owned, NewestFirst)
      decreases |After(owned, NewestFirst, after)|
    {
      var page := ListSessionsPage(store, user, after, first);
      var rows := page.value;
      LookaheadTells(owned, NewestFirst, after, first, Keys(SessionAt, rows));
      var shown := if |rows| > first then rows[..first] else rows;
      assert Keys(SessionAt, shown) == Keys(SessionAt, rows)[..|shown|];
      PageJoins(owned, NewestFirst, after, first, Keys(SessionAt, items), Keys(SessionAt, shown));
      assert Keys(SessionAt, items + shown) == Keys(SessionAt, items) + Keys(SessionAt, shown);
      items := items + shown;
      if |rows| <= first { return Some(items); }
      after := Some(SessionAt(shown[first - 1]));
    }
  }

  /** One row more than asked for tells whether another page follows. */
  lemma LookaheadTells<T(!new)>(s: set<T>, less: (T, T) -> bool, after: Option<T>, first: int, rows: seq<T>)
    requires StrictTotal(less) && first >= 1 && rows == Page(s, less, after, first + 1)
    ensures |rows| > first <==> |After(s, less, after)| > first
    ensures Page(s, less, after, first) == if |rows| > first then rows[..first] else rows
  {
    hide StrictTotal, After;
  }
}
