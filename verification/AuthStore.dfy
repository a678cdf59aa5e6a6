/** The in-memory auth store and the two sign-in flows over it, run concurrently:
    one-time links and ceremonies, sessions, and the passkey signature counter. */
module AuthStore {
  import opened Keyset

  datatype Digest = Digest(hash: string)
  datatype UserID = UserID(id: string)
  datatype Email = Email(address: string)
  datatype CeremonyID = CeremonyID(id: string)
  datatype CredentialKey = CredentialKey(raw: string)

  datatype Purpose = SignIn | OtherPurpose(name: string)
  datatype Kind = Registration | Authentication
  datatype UserStatus = Active | Inactive

  datatype User = User(email: Email, status: UserStatus)
  datatype Link = Link(id: string, email: Email, purpose: Purpose, createdAt: int, expiresAt: int, consumedAt: Option<int>)
  datatype Session = Session(id: string, user: UserID, createdAt: int, expiresAt: int, revokedAt: Option<int>)
  datatype Ceremony = Ceremony(kind: Kind, user: Option<UserID>, createdAt: int, expiresAt: int, consumedAt: Option<int>)
  datatype Credential = Credential(id: string, user: UserID, signCount: int)

  datatype Error = InvalidInput | Conflict | NotFound | Consumed | Expired | Disabled

  type Links = map<Digest, Link>

  datatype Store = Store(users: map<UserID, User>, byEmail: map<Email, UserID>, links: Links, sessions: map<Digest, Session>,
                         ceremonies: map<CeremonyID, Ceremony>, credentials: map<CredentialKey, Credential>,
                         keyByID: map<string, CredentialKey>, deleted: map<Email, int>)

  const UINT32 := 0x1_0000_0000

  // ---------- what each store call does ----------

  predicate Pending(l: Link, email: Email, purpose: Purpose) {
    l.email == email && l.purpose == purpose && l.consumedAt.None?
  }

  /** A new link consumes every pending one for the same email and purpose. */
  function Superseded(links: Links, l: Link): Links {
    map d | d in links ::
      if Pending(links[d], l.email, l.purpose) then links[d].(consumedAt := Some(l.createdAt)) else links[d]
  }

  function SavedLink(st: Store, d: Digest, l: Link): (r: (Store, Option<Error>))
    ensures r.1.Some? ==> r.0 == st
    ensures r.0.credentials == st.credentials && r.0.users == st.users
  {
    if l.id == "" || l.email.address == "" || l.expiresAt <= l.createdAt then (st, Some(InvalidInput))
    else if d in st.links then (st, Some(Conflict))
    else (st.(links := Superseded(st.links, l)[d := l]), None)
  }

  function ConsumedLink(st: Store, d: Digest, purpose: Purpose, now: int): (r: (Store, Option<Error>))
    ensures r.1.Some? ==> r.0 == st
    ensures r.0.credentials == st.credentials && r.0.users == st.users
  {
    if d !in st.links || st.links[d].purpose != purpose then (st, Some(NotFound))
    else if st.links[d].consumedAt.Some? then (st, Some(Consumed))
    else if now >= st.links[d].expiresAt then (st, Some(Expired))
    else (st.(links := st.links[d := st.links[d].(consumedAt := Some(now))]), None)
  }

  function InvalidatedLink(st: Store, d: Digest, now: int): (r: (Store, Option<Error>))
    ensures r.1.Some? ==> r.0 == st
    ensures r.0.credentials == st.credentials && r.0.users == st.users
  {
    if d !in st.links then (st, Some(NotFound))
    else if st.links[d].consumedAt.Some? then (st, None)
    else (st.(links := st.links[d := st.links[d].(consumedAt := Some(now))]), None)
  }

  /** The user of an email, created on first use unless the email was deleted recently. */
  function Resolved(st: Store, email: Email, suggested: UserID, now: int): (r: (Store, Option<UserID>))
    ensures r.0.links == st.links && r.0.credentials == st.credentials
    ensures r.1.None? ==> r.0 == st
  {
    if suggested.id == "" || (email in st.deleted && st.deleted[email] > now) then (st, None)
    else
      var st1 := st.(deleted := st.deleted - {email});
      if email in st.byEmail then (st1, Some(st.byEmail[email]))
      else (st1.(users := st.users[suggested := User(email, Active)], byEmail := st.byEmail[email := suggested]), Some(suggested))
  }

  function SavedSession(st: Store, d: Digest, s: Session): (r: (Store, Option<Error>))
    ensures r.1.Some? ==> r.0 == st
    ensures r.0.links == st.links
    ensures r.0.credentials == st.credentials && r.0.users == st.users
  {
    if s.id == "" || s.user.id == "" || s.expiresAt <= s.createdAt then (st, Some(InvalidInput))
    else if d in st.sessions then (st, Some(Conflict))
    else if s.user !in st.users then (st, Some(NotFound))
    else if st.users[s.user].status != Active then (st, Some(Disabled))
    else (st.(sessions := st.sessions[d := s]), None)
  }

  function SavedCeremony(st: Store, id: CeremonyID, c: Ceremony): (r: (Store, Option<Error>))
    ensures r.1.Some? ==> r.0 == st
    ensures r.0.links == st.links
    ensures r.0.credentials == st.credentials && r.0.users == st.users
  {
    if id.id == "" || c.expiresAt <= c.createdAt then (st, Some(InvalidInput))
    else if id in st.ceremonies then (st, Some(Conflict))
    else (st.(ceremonies := st.ceremonies[id := c]), None)
  }

  function ConsumedCeremony(st: Store, id: CeremonyID, kind: Kind, now: int): (r: (Store, Option<Error>))
    ensures r.1.Some? ==> r.0 == st
    ensures r.0.links == st.links
    ensures r.0.credentials == st.credentials && r.0.users == st.users
  {
    if id !in st.ceremonies || st.ceremonies[id].kind != kind then (st, Some(NotFound))
    else if st.ceremonies[id].consumedAt.Some? then (st, Some(Consumed))
    else if now >= st.ceremonies[id].expiresAt then (st, Some(Expired))
    else (st.(ceremonies := st.ceremonies[id := st.ceremonies[id].(consumedAt := Some(now))]), None)
  }

  function SavedCredential(st: Store, key: CredentialKey, c: Credential): (r: (Store, Option<Error>))
    ensures r.1.Some? ==> r.0 == st
    ensures r.0.links == st.links
  {
    if c.id == "" || c.user.id == "" || key.raw == "" || c.signCount < 0 || c.signCount >= UINT32 then (st, Some(InvalidInput))
    else if c.user !in st.users then (st, Some(NotFound))
    else if key in st.credentials || c.id in st.keyByID then (st, Some(Conflict))
    else (st.(credentials := st.credentials[key := c], keyByID := st.keyByID[c.id := key]), None)
  }

  /** Section 6.1.1 of Web Authentication Level 2: unless both are zero, the new
      count must be greater than the stored one. */
  predicate DidNotAdvance(previous: int, next: int) {
    (previous != 0 || next != 0) && next <= previous
  }

  /** Compare-and-swap on the stored count. */
  function UsedCredential(st: Store, key: CredentialKey, previous: int, next: int): (r: (Store, Option<Error>))
    ensures r.1.Some? ==> r.0 == st
    ensures r.0.links == st.links
  {
    if key !in st.credentials then (st, Some(NotFound))
    else if st.credentials[key].signCount != previous || DidNotAdvance(previous, next) then (st, Some(Conflict))
    else (st.(credentials := st.credentials[key := st.credentials[key].(signCount := next)]), None)
  }

  function SessionsWithout(sessions: map<Digest, Session>, user: UserID): map<Digest, Session> {
    map d | d in sessions && sessions[d].user != user :: sessions[d]
  }

  function CredentialsWithout(credentials: map<CredentialKey, Credential>, user: UserID): map<CredentialKey, Credential> {
    map k | k in credentials && credentials[k].user != user :: credentials[k]
  }

  /** An index entry goes when the credential it names belongs to the user. */
  predicate IndexEntryGoes(credentials: map<CredentialKey, Credential>, user: UserID, id: string, key: CredentialKey) {
    key in credentials && credentials[key].user == user && credentials[key].id == id
  }

  function IndexWithout(keyByID: map<string, CredentialKey>, credentials: map<CredentialKey, Credential>, user: UserID): map<string, CredentialKey> {
    map i | i in keyByID && !IndexEntryGoes(credentials, user, i, keyByID[i]) :: keyByID[i]
  }

  /** Forgetting an email: its user, sessions and passkeys go, and it stays barred
      until expiresAt. */
  function Tombstoned(st: Store, email: Email, expiresAt: int): (r: Store)
    ensures r.links == st.links && email !in r.byEmail
  {
    if email !in st.byEmail then st.(deleted := st.deleted[email := expiresAt])
    else
      var user := st.byEmail[email];
      Store(st.users - {user}, st.byEmail - {email}, st.links, SessionsWithout(st.sessions, user), st.ceremonies,
            CredentialsWithout(st.credentials, user), IndexWithout(st.keyByID, st.credentials, user),
            st.deleted[email := expiresAt])
  }

  // ---------- the store itself ----------

  class MemoryStore {
    var users: map<UserID, User>
    var byEmail: map<Email, UserID>
    var links: Links
    var sessions: map<Digest, Session>
    var ceremonies: map<CeremonyID, Ceremony>
    var credentials: map<CredentialKey, Credential>
    var keyByID: map<string, CredentialKey>
    var deleted: map<Email, int>

    constructor ()
      ensures Contents() == Store(map[], map[], map[], map[], map[], map[], map[], map[])
    {
      users, byEmail, links, sessions := map[], map[], map[], map[];
      ceremonies, credentials, keyByID, deleted := map[], map[], map[], map[];
    }

    function Contents(): Store reads this {
      Store(users, byEmail, links, sessions, ceremonies, credentials, keyByID, deleted)
    }

    method SaveMagicLink(d: Digest, l: Link) returns (error: Option<Error>)
      modifies this`links
      ensures (Contents(), error) == SavedLink(old(Contents()), d, l)
    {
      if l.id == "" || l.email.address == "" || l.expiresAt <= l.createdAt { return Some(InvalidInput); }
      if d in links { return Some(Conflict); }
      var left := links.Keys;
      while left != {}
        invariant left <= old(links).Keys && links.Keys == old(links).Keys
        invariant forall k :: k in links ==>
                    links[k] == if k in left then old(links)[k] else Superseded(old(links), l)[k]
        decreases |left|
      {
        var k :| k in left;
        left := left - {k};
        if Pending(links[k], l.email, l.purpose) {
          links := links[k := links[k].(consumedAt := Some(l.createdAt))];
        }
      }
      assert links == Superseded(old(links), l);
      links := links[d := l];
      return None;
    }

    method ConsumeMagicLink(d: Digest, purpose: Purpose, now: int) returns (error: Option<Error>)
      modifies this`links
      ensures (Contents(), error) == ConsumedLink(old(Contents()), d, purpose, now)
    {
      if d !in links || links[d].purpose != purpose { return Some(NotFound); }
      if links[d].consumedAt.Some? { return Some(Consumed); }
      if now >= links[d].expiresAt { return Some(Expired); }
      links := links[d := links[d].(consumedAt := Some(now))];
      return None;
    }

    method GetOrCreateUserByEmail(email: Email, suggested: UserID, now: int) returns (user: Option<UserID>)
      modifies this`users, this`byEmail, this`deleted
      ensures (Contents(), user) == Resolved(old(Contents()), email, suggested, now)
    {
      if suggested.id == "" { return None; }
      if email in deleted {
        if deleted[email] > now { return None; }
        deleted := deleted - {email};
      }
      assert deleted == old(deleted) - {email};
      if email in byEmail { return Some(byEmail[email]); }
      users := users[suggested := User(email, Active)];
      byEmail := byEmail[email := suggested];
      return Some(suggested);
    }

    method SaveSession(d: Digest, s: Session) returns (error: Option<Error>)
      modifies this`sessions
      ensures (Contents(), error) == SavedSession(old(Contents()), d, s)
    {
      if s.id == "" || s.user.id == "" || s.expiresAt <= s.createdAt { return Some(InvalidInput); }
      if d in sessions { return Some(Conflict); }
      if s.user !in users { return Some(NotFound); }
      if users[s.user].status != Active { return Some(Disabled); }
      sessions := sessions[d := s];
      return None;
    }

    method ConsumeCeremony(id: CeremonyID, kind: Kind, now: int) returns (error: Option<Error>)
      modifies this`ceremonies
      ensures (Contents(), error) == ConsumedCeremony(old(Contents()), id, kind, now)
    {
      if id !in ceremonies || ceremonies[id].kind != kind { return Some(NotFound); }
      if ceremonies[id].consumedAt.Some? { return Some(Consumed); }
      if now >= ceremonies[id].expiresAt { return Some(Expired); }
      ceremonies := ceremonies[id := ceremonies[id].(consumedAt := Some(now))];
      return None;
    }

    method UseCredential(key: CredentialKey, previous: int, next: int) returns (error: Option<Error>)
      modifies this`credentials
      ensures (Contents(), error) == UsedCredential(old(Contents()), key, previous, next)
    {
      if key !in credentials { return Some(NotFound); }
      if credentials[key].signCount != previous || DidNotAdvance(previous, next) { return Some(Conflict); }
      credentials := credentials[key := credentials[key].(signCount := next)];
      return None;
    }

    method TombstoneUserByEmail(email: Email, expiresAt: int)
      requires KeyedByID(Contents())
      modifies this
      ensures Contents() == Tombstoned(old(Contents()), email, expiresAt)
    {
      hide SessionsWithout, CredentialsWithout, IndexWithout;
      if email in byEmail {
        var user := byEmail[email];
        users, byEmail := users - {user}, byEmail - {email};
        RemoveSessions(user);
        RemoveCredentials(user);
      }
      deleted := deleted[email := expiresAt];
    }

    method RemoveSessions(user: UserID)
      modifies this`sessions
      ensures sessions == SessionsWithout(old(sessions), user)
    {
      var left := sessions.Keys;
      while left != {}
        invariant left <= old(sessions).Keys
        invariant forall d :: d in sessions <==> d in old(sessions) && (d in left || old(sessions)[d].user != user)
        invariant forall d :: d in sessions ==> sessions[d] == old(sessions)[d]
        decreases |left|
      {
        var d :| d in left;
        left := left - {d};
        if sessions[d].user == user { sessions := sessions - {d}; }
      }
    }

    method RemoveCredentials(user: UserID)
      requires KeyedByID(Contents())
      modifies this`credentials, this`keyByID
      ensures credentials == CredentialsWithout(old(credentials), user)
      ensures keyByID == IndexWithout(old(keyByID), old(credentials), user)
    {
      var left := credentials.Keys;
      while left != {}
        invariant left <= old(credentials).Keys
        invariant forall k :: k in credentials <==> k in old(credentials) && (k in left || old(credentials)[k].user != user)
        invariant forall k :: k in credentials ==> credentials[k] == old(credentials)[k]
        invariant forall i :: i in keyByID <==>
                    (i in old(keyByID) && !(old(keyByID)[i] !in left && IndexEntryGoes(old(credentials), user, i, old(keyByID)[i])))
        invariant forall i :: i in keyByID ==> keyByID[i] == old(keyByID)[i]
        decreases |left|
      {
        var k :| k in left;
        left := left - {k};
        if credentials[k].user == user {
          keyByID := keyByID - {credentials[k].id};
          credentials := credentials - {k};
        }
      }
    }
  }

  /** The index by ID points at the credential of that ID. */
  ghost predicate KeyedByID(st: Store) {
    forall k :: k in st.credentials ==> st.credentials[k].id in st.keyByID && st.keyByID[st.credentials[k].id] == k
  }

  // ---------- concurrent sign-ins ----------

  /** Where one sign-in stands between two store calls. */
  datatype Flow =
    | LinkTaken(link: Digest, email: Email)
    | LinkUser(link: Digest, user: UserID)
    | CeremonyTaken(ceremony: CeremonyID, forUser: Option<UserID>)
    | PasskeyLoaded(key: CredentialKey, count: int, user: UserID)
    | PasskeyUsed(user: UserID)

  /** The store, the sign-ins in progress, how many sessions each link has yielded,
      and for each passkey the counts stored since its registration. */
  datatype State = State(now: int, st: Store, flows: map<int, Flow>, grants: map<Digest, int>, history: map<CredentialKey, seq<int>>)

  /** at is the time a sign-in goes by, which it may have read long before. */
  datatype Action =
    | RequestLink(d: Digest, id: string, email: Email, purpose: Purpose, ttl: int)
    | InvalidateLink(d: Digest)
    | TakeLink(p: int, d: Digest, at: int)
    | ResolveUser(p: int, suggested: UserID, at: int)
    | GrantFromLink(p: int, d: Digest, id: string, at: int, ttl: int)
    | BeginCeremony(ceremony: CeremonyID, kind: Kind, forUser: Option<UserID>, ttl: int)
    | TakeCeremony(p: int, ceremony: CeremonyID, at: int)
    | LoadPasskey(p: int, key: CredentialKey)
    | UsePasskey(p: int, next: int)
    | GrantFromPasskey(p: int, d: Digest, id: string, at: int, ttl: int)
    | Register(key: CredentialKey, credential: Credential)
    | Tombstone(email: Email, ttl: int)
    | SetStatus(user: UserID, status: UserStatus)
    | Abort(p: int)
    | Tick(seconds: int)

  function Drop(s: State, p: int): State { s.(flows := s.flows - {p}) }

  function Put(s: State, p: int, f: Flow): State { s.(flows := s.flows[p := f]) }

  function Requesting(s: State, d: Digest, id: string, email: Email, purpose: Purpose, ttl: int): State {
    var (st, error) := SavedLink(s.st, d, Link(id, email, purpose, s.now, s.now + ttl, None));
    if error.Some? then s else s.(st := st, grants := s.grants[d := 0])
  }

  function TakingLink(s: State, p: int, d: Digest, at: int): State {
    var (st, error) := ConsumedLink(s.st, d, SignIn, at);
    if p in s.flows || error.Some? || d !in s.st.links then s
    else Put(s.(st := st), p, LinkTaken(d, s.st.links[d].email))
  }

  function Resolving(s: State, p: int, suggested: UserID, at: int): State {
    if p !in s.flows || !s.flows[p].LinkTaken? || suggested in s.st.users then s
    else
      var (st, user) := Resolved(s.st, s.flows[p].email, suggested, at);
      if user.None? || user.value !in st.users || st.users[user.value].status != Active then Drop(s.(st := st), p)
      else Put(s.(st := st), p, LinkUser(s.flows[p].link, user.value))
  }

  function GrantingFromLink(s: State, p: int, d: Digest, id: string, at: int, ttl: int): State {
    if p !in s.flows || !s.flows[p].LinkUser? then s
    else
      var (st, error) := SavedSession(s.st, d, Session(id, s.flows[p].user, at, at + ttl, None));
      var link := s.flows[p].link;
      if error.Some? || link !in s.grants then Drop(s, p)
      else Drop(s.(st := st, grants := s.grants[link := s.grants[link] + 1]), p)
  }

  function TakingCeremony(s: State, p: int, ceremony: CeremonyID, at: int): State {
    var (st, error) := ConsumedCeremony(s.st, ceremony, Authentication, at);
    if p in s.flows || error.Some? || ceremony !in s.st.ceremonies then s
    else Put(s.(st := st), p, CeremonyTaken(ceremony, s.st.ceremonies[ceremony].user))
  }

  function Loading(s: State, p: int, key: CredentialKey): State {
    if p !in s.flows || !s.flows[p].CeremonyTaken? then s
    else if key !in s.st.credentials then Drop(s, p)
    else
      var c := s.st.credentials[key];
      if s.flows[p].forUser.Some? && s.flows[p].forUser.value != c.user then Drop(s, p)
      else if c.user !in s.st.users || s.st.users[c.user].status != Active then Drop(s, p)
      else Put(s, p, PasskeyLoaded(key, c.signCount, c.user))
  }

  /** The verifier reported this count; it is checked against the loaded one and
      then swapped in. */
  function Using(s: State, p: int, next: int): State {
    if p !in s.flows || !s.flows[p].PasskeyLoaded? || next < 0 || next >= UINT32 then s
    else
      var f := s.flows[p];
      var (st, error) := UsedCredential(s.st, f.key, f.count, next);
      if DidNotAdvance(f.count, next) || error.Some? || f.key !in s.history then Drop(s, p)
      else Put(s.(st := st, history := s.history[f.key := s.history[f.key] + [next]]), p, PasskeyUsed(f.user))
  }

  function GrantingFromPasskey(s: State, p: int, d: Digest, id: string, at: int, ttl: int): State {
    if p !in s.flows || !s.flows[p].PasskeyUsed? then s
    else
      var (st, error) := SavedSession(s.st, d, Session(id, s.flows[p].user, at, at + ttl, None));
      Drop(s.(st := st), p)
  }

  function Registering(s: State, key: CredentialKey, c: Credential): State {
    var (st, error) := SavedCredential(s.st, key, c);
    if error.Some? then s else s.(st := st, history := s.history[key := [c.signCount]])
  }

  function Next(s: State, a: Action): State {
    match a
    case RequestLink(d, id, email, purpose, ttl) => Requesting(s, d, id, email, purpose, ttl)
    case InvalidateLink(d) => s.(st := InvalidatedLink(s.st, d, s.now).0)
    case TakeLink(p, d, at) => TakingLink(s, p, d, at)
    case ResolveUser(p, suggested, at) => Resolving(s, p, suggested, at)
    case GrantFromLink(p, d, id, at, ttl) => GrantingFromLink(s, p, d, id, at, ttl)
    case BeginCeremony(ceremony, kind, user, ttl) =>
      s.(st := SavedCeremony(s.st, ceremony, Ceremony(kind, user, s.now, s.now + ttl, None)).0)
    case TakeCeremony(p, ceremony, at) => TakingCeremony(s, p, ceremony, at)
    case LoadPasskey(p, key) => Loading(s, p, key)
    case UsePasskey(p, next) => Using(s, p, next)
    case GrantFromPasskey(p, d, id, at, ttl) => GrantingFromPasskey(s, p, d, id, at, ttl)
    case Register(key, credential) => Registering(s, key, credential)
    case Tombstone(email, ttl) => s.(st := Tombstoned(s.st, email, s.now + ttl))
    case SetStatus(user, status) =>
      if user !in s.st.users then s
      else s.(st := s.st.(users := s.st.users[user := s.st.users[user].(status := status)]))
    case Abort(p) => Drop(s, p)
    case Tick(seconds) => if seconds < 0 then s else s.(now := s.now + seconds)
  }

  function Run(s: State, trace: seq<Action>): State
    decreases |trace|
  {
    if trace == [] then s else Run(Next(s, trace[0]), trace[1..])
  }

  // ---------- the invariant ----------

  /** At most one pending link per email and purpose. */
  ghost predicate OnePending(links: Links) {
    forall a, b :: a in links && b in links && a != b && links[a].consumedAt.None? && links[b].consumedAt.None? ==>
      links[a].email != links[b].email || links[a].purpose != links[b].purpose
  }

  predicate OnLink(flows: map<int, Flow>, p: int, d: Digest) {
    p in flows && (flows[p].LinkTaken? || flows[p].LinkUser?) && flows[p].link == d
  }

  /** A link yields a session only to the sign-in that took it, and only once. */
  ghost predicate OneGrant(links: Links, flows: map<int, Flow>, grants: map<Digest, int>) {
    && links.Keys == grants.Keys
    && (forall d :: d in links ==> 0 <= grants[d] <= 1 && (links[d].consumedAt.None? ==> grants[d] == 0))
    && (forall p, d :: OnLink(flows, p, d) ==> d in links && links[d].consumedAt.Some? && grants[d] == 0)
    && (forall p, q, d :: OnLink(flows, p, d) && OnLink(flows, q, d) ==> p == q)
  }

  /** Strictly increasing once non-zero. */
  ghost predicate Climbs(h: seq<int>) {
    forall i, j :: 0 <= i < j < |h| && h[i] != 0 ==> h[i] < h[j]
  }

  /** The stored count is the last of a climbing history. */
  ghost predicate CountsClimb(credentials: map<CredentialKey, Credential>, history: map<CredentialKey, seq<int>>) {
    forall k :: k in credentials ==>
      && k in history && history[k] != [] && Climbs(history[k])
      && history[k][|history[k]| - 1] == credentials[k].signCount && credentials[k].signCount >= 0
  }

  ghost predicate Inv(s: State) {
    && OnePending(s.st.links)
    && OneGrant(s.st.links, s.flows, s.grants)
    && CountsClimb(s.st.credentials, s.history)
  }

  function Initial(now: int): State {
    State(now, Store(map[], map[], map[], map[], map[], map[], map[], map[]), map[], map[], map[])
  }

  lemma InitialInv(now: int)
    ensures Inv(Initial(now))
  {
  }

  lemma PendingStep(s: State, a: Action)
    requires OnePending(s.st.links)
    ensures OnePending(Next(s, a).st.links)
  {
    hide Tombstoned, Resolved, SavedSession, SavedCredential, UsedCredential, ConsumedCeremony, SavedCeremony;
    match a
    case RequestLink(d, id, email, purpose, ttl) =>
    case InvalidateLink(d) =>
    case TakeLink(p, d, at) =>
    case _ => LinksStay(s, a);
  }

  /** Only requesting, taking and invalidating touch links. */
  lemma LinksStay(s: State, a: Action)
    requires !a.RequestLink? && !a.InvalidateLink? && !a.TakeLink?
    ensures Next(s, a).st.links == s.st.links
  {
    hide Requesting, TakingLink, Resolved, SavedSession, SavedCeremony, ConsumedCeremony, SavedCredential, UsedCredential, Tombstoned;
    match a
    case ResolveUser(p, suggested, at) =>
    case GrantFromLink(p, d, id, at, ttl) =>
    case BeginCeremony(ceremony, kind, user, ttl) =>
    case TakeCeremony(p, ceremony, at) =>
    case LoadPasskey(p, key) =>
    case UsePasskey(p, next) =>
    case GrantFromPasskey(p, d, id, at, ttl) =>
    case Register(key, credential) =>
    case _ =>
  }

  lemma {:induction false} ClimbsOn(h: seq<int>, next: int)
    requires Climbs(h) && h != [] && h[|h| - 1] >= 0 && next >= 0 && !DidNotAdvance(h[|h| - 1], next)
    ensures Climbs(h + [next])
  {
    var last := h[|h| - 1];
    forall i | 0 <= i < |h| && h[i] != 0 ensures h[i] < next {
      assert i < |h| - 1 ==> h[i] < last;
    }
  }

  lemma CountsStep(s: State, a: Action)
    requires CountsClimb(s.st.credentials, s.history)
    ensures CountsClimb(Next(s, a).st.credentials, Next(s, a).history)
  {
    hide CountsClimb, Using, Registering, Tombstoned;
    match a
    case UsePasskey(p, next) => UsingCounts(s, p, next);
    case Register(key, credential) => RegisteringCounts(s, key, credential);
    case Tombstone(email, ttl) => TombstonedCounts(s, email, s.now + ttl);
    case _ => CredentialsStay(s, a);
  }

  lemma UsingCounts(s: State, p: int, next: int)
    requires CountsClimb(s.st.credentials, s.history)
    ensures CountsClimb(Using(s, p, next).st.credentials, Using(s, p, next).history)
  {
    hide Climbs;
    if p in s.flows && s.flows[p].PasskeyLoaded? && next >= 0 && s.flows[p].key in s.st.credentials {
      var h := s.history[s.flows[p].key];
      if !DidNotAdvance(h[|h| - 1], next) { ClimbsOn(h, next); }
    }
  }

  lemma RegisteringCounts(s: State, key: CredentialKey, c: Credential)
    requires CountsClimb(s.st.credentials, s.history)
    ensures CountsClimb(Registering(s, key, c).st.credentials, Registering(s, key, c).history)
  {
    hide Climbs;
    OneClimbs(c.signCount);
  }

  lemma TombstonedCounts(s: State, email: Email, expiresAt: int)
    requires CountsClimb(s.st.credentials, s.history)
    ensures CountsClimb(Tombstoned(s.st, email, expiresAt).credentials, s.history)
  {
    hide Climbs, SessionsWithout, IndexWithout;
  }

  lemma OneClimbs(n: int)
    ensures Climbs([n])
  {
  }

  lemma CredentialsStay(s: State, a: Action)
    requires !a.UsePasskey? && !a.Register? && !a.Tombstone?
    ensures Next(s, a).st.credentials == s.st.credentials && Next(s, a).history == s.history
  {
    hide Using, Registering, Tombstoned, SavedLink, ConsumedLink, InvalidatedLink, Resolved, SavedSession, SavedCeremony, ConsumedCeremony;
    match a
    case RequestLink(d, id, email, purpose, ttl) =>
    case InvalidateLink(d) =>
    case TakeLink(p, d, at) =>
    case ResolveUser(p, suggested, at) =>
    case GrantFromLink(p, d, id, at, ttl) =>
    case BeginCeremony(ceremony, kind, user, ttl) =>
    case TakeCeremony(p, ceremony, at) =>
    case LoadPasskey(p, key) =>
    case GrantFromPasskey(p, d, id, at, ttl) =>
    case _ =>
  }

  /** A call that only moves on, or leaves, keeps what is known of links. */
  lemma GrantMoves(links: Links, flows: map<int, Flow>, grants: map<Digest, int>, p: int, f: Flow)
    requires OneGrant(links, flows, grants)
    requires (f.LinkTaken? || f.LinkUser?) ==> OnLink(flows, p, f.link)
    ensures OneGrant(links, flows[p := f], grants)
    ensures OneGrant(links, flows - {p}, grants)
  {
    var now, gone := flows[p := f], flows - {p};
    forall q, d | OnLink(now, q, d) ensures OnLink(flows, q, d) {
      if q == p { assert d == f.link; }
    }
    forall q, d | OnLink(gone, q, d) ensures OnLink(flows, q, d) {
    }
  }

  lemma GrantTakes(links: Links, flows: map<int, Flow>, grants: map<Digest, int>, p: int, d: Digest, email: Email, now: int)
    requires OneGrant(links, flows, grants) && d in links && links[d].consumedAt.None? && p !in flows
    ensures OneGrant(links[d := links[d].(consumedAt := Some(now))], flows[p := LinkTaken(d, email)], grants)
  {
    var now' := flows[p := LinkTaken(d, email)];
    forall q, e | OnLink(now', q, e) ensures (q == p && e == d) || (OnLink(flows, q, e) && e != d && q != p) {
      if q != p { assert OnLink(flows, q, e); }
    }
  }

  /** The one sign-in on a link leaves as its session is counted. */
  lemma GrantCounts(links: Links, flows: map<int, Flow>, grants: map<Digest, int>, p: int, d: Digest)
    requires OneGrant(links, flows, grants) && OnLink(flows, p, d)
    ensures OneGrant(links, flows - {p}, grants[d := grants[d] + 1])
  {
    forall q, e | OnLink(flows - {p}, q, e) ensures OnLink(flows, q, e) && e != d {
      assert OnLink(flows, q, e);
    }
  }

  lemma GrantRequests(links: Links, flows: map<int, Flow>, grants: map<Digest, int>, d: Digest, l: Link)
    requires OneGrant(links, flows, grants) && d !in links && l.consumedAt.None?
    ensures OneGrant(Superseded(links, l)[d := l], flows, grants[d := 0])
  {
  }

  lemma GrantInvalidates(links: Links, flows: map<int, Flow>, grants: map<Digest, int>, d: Digest, now: int)
    requires OneGrant(links, flows, grants) && d in links
    ensures OneGrant(links[d := links[d].(consumedAt := Some(now))], flows, grants)
  {
  }

  lemma GrantStep(s: State, a: Action)
    requires OneGrant(s.st.links, s.flows, s.grants)
    ensures OneGrant(Next(s, a).st.links, Next(s, a).flows, Next(s, a).grants)
  {
    hide OneGrant, Requesting, InvalidatedLink, TakingLink, GrantingFromLink, Resolving, TakingCeremony, Loading, Using,
         GrantingFromPasskey, Registering, Tombstoned, SavedCeremony;
    match a
    case RequestLink(d, id, email, purpose, ttl) => RequestingGrant(s, d, id, email, purpose, ttl);
    case InvalidateLink(d) => InvalidatingGrant(s, d);
    case TakeLink(p, d, at) => TakingGrant(s, p, d, at);
    case ResolveUser(p, suggested, at) => GrantAfter(s, a, p);
    case GrantFromLink(p, d, id, at, ttl) => GrantingGrant(s, p, d, id, at, ttl);
    case TakeCeremony(p, ceremony, at) => GrantAfter(s, a, p);
    case LoadPasskey(p, key) => GrantAfter(s, a, p);
    case UsePasskey(p, next) => GrantAfter(s, a, p);
    case GrantFromPasskey(p, d, id, at, ttl) => GrantAfter(s, a, p);
    case Register(key, credential) => RegisteringGrant(s, key, credential);
    case Abort(p) => GrantMoves(s.st.links, s.flows, s.grants, p, PasskeyUsed(UserID("")));
    case _ =>
  }

  lemma RequestingGrant(s: State, d: Digest, id: string, email: Email, purpose: Purpose, ttl: int)
    requires OneGrant(s.st.links, s.flows, s.grants)
    ensures var t := Requesting(s, d, id, email, purpose, ttl); OneGrant(t.st.links, t.flows, t.grants)
  {
    hide OneGrant, Superseded;
    if d !in s.st.links {
      GrantRequests(s.st.links, s.flows, s.grants, d, Link(id, email, purpose, s.now, s.now + ttl, None));
    }
  }

  lemma InvalidatingGrant(s: State, d: Digest)
    requires OneGrant(s.st.links, s.flows, s.grants)
    ensures OneGrant(InvalidatedLink(s.st, d, s.now).0.links, s.flows, s.grants)
  {
    hide OneGrant;
    if d in s.st.links { GrantInvalidates(s.st.links, s.flows, s.grants, d, s.now); }
  }

  lemma TakingGrant(s: State, p: int, d: Digest, at: int)
    requires OneGrant(s.st.links, s.flows, s.grants)
    ensures var t := TakingLink(s, p, d, at); OneGrant(t.st.links, t.flows, t.grants)
  {
    hide OneGrant;
    if p !in s.flows && d in s.st.links && s.st.links[d].consumedAt.None? {
      GrantTakes(s.st.links, s.flows, s.grants, p, d, s.st.links[d].email, at);
    }
  }

  lemma GrantingGrant(s: State, p: int, d: Digest, id: string, at: int, ttl: int)
    requires OneGrant(s.st.links, s.flows, s.grants)
    ensures var t := GrantingFromLink(s, p, d, id, at, ttl); OneGrant(t.st.links, t.flows, t.grants)
  {
    hide OneGrant, SavedSession;
    if p in s.flows && s.flows[p].LinkUser? {
      GrantMoves(s.st.links, s.flows, s.grants, p, s.flows[p]);
      if s.flows[p].link in s.grants { GrantCounts(s.st.links, s.flows, s.grants, p, s.flows[p].link); }
    }
  }

  lemma RegisteringGrant(s: State, key: CredentialKey, c: Credential)
    requires OneGrant(s.st.links, s.flows, s.grants)
    ensures var t := Registering(s, key, c); OneGrant(t.st.links, t.flows, t.grants)
  {
    hide OneGrant, SavedCredential;
  }

  /** A step of sign-in p that touches no link. */
  lemma GrantAfter(s: State, a: Action, p: int)
    requires OneGrant(s.st.links, s.flows, s.grants)
    requires (a.ResolveUser? || a.TakeCeremony? || a.LoadPasskey? || a.UsePasskey? || a.GrantFromPasskey?) && a.p == p
    ensures OneGrant(Next(s, a).st.links, Next(s, a).flows, Next(s, a).grants)
  {
    hide OneGrant, Resolved, ConsumedCeremony, UsedCredential, SavedSession;
    LinksStay(s, a);
    var t := Next(s, a);
    FlowStep(s, a, p);
    if p in t.flows && t.flows != s.flows {
      GrantMoves(s.st.links, s.flows, s.grants, p, t.flows[p]);
    } else if p !in t.flows {
      GrantMoves(s.st.links, s.flows, s.grants, p, PasskeyUsed(UserID("")));
    }
  }

  lemma FlowStep(s: State, a: Action, p: int)
    requires (a.ResolveUser? || a.TakeCeremony? || a.LoadPasskey? || a.UsePasskey? || a.GrantFromPasskey?) && a.p == p
    ensures var t := Next(s, a);
            && t.grants == s.grants
            && (t.flows == s.flows || t.flows == s.flows - {p} || (p in t.flows && t.flows == s.flows[p := t.flows[p]]))
            && (p in t.flows && (t.flows[p].LinkTaken? || t.flows[p].LinkUser?) ==> OnLink(s.flows, p, t.flows[p].link))
  {
    hide Resolved, ConsumedCeremony, UsedCredential, SavedSession;
    match a
    case ResolveUser(_, suggested, at) =>
    case TakeCeremony(_, ceremony, at) =>
    case LoadPasskey(_, key) =>
    case UsePasskey(_, next) =>
    case _ =>
  }

  lemma StepInv(s: State, a: Action)
    requires Inv(s)
    ensures Inv(Next(s, a))
  {
    hide OnePending, OneGrant, CountsClimb, Next;
    PendingStep(s, a);
    GrantStep(s, a);
    CountsStep(s, a);
  }

  lemma {:induction false} RunInv(s: State, trace: seq<Action>)
    requires Inv(s)
    ensures Inv(Run(s, trace))
    decreases |trace|
  {
    hide Inv, Next;
    if trace != [] {
      StepInv(s, trace[0]);
      RunInv(Next(s, trace[0]), trace[1..]);
    }
  }

  /** In every reachable state: at most one pending link per email and purpose, at
      most one session per link, and for each registered passkey the accepted
      counts climb strictly once they are non-zero, ending at the stored one. */
  lemma ReachableStatesAreSafe(now: int, trace: seq<Action>)
    ensures var s := Run(Initial(now), trace);
            && OnePending(s.st.links)
            && (forall d :: d in s.grants ==> s.grants[d] <= 1)
            && CountsClimb(s.st.credentials, s.history)
  {
    hide Run, Next, OnePending, CountsClimb;
    InitialInv(now);
    RunInv(Initial(now), trace);
  }

  /** Of two assertions racing on the same stored count, the second is accepted only
      if the first left the count at zero. */
  lemma RacingAssertions(s: State, p: int, q: int, a: int, b: int, key: CredentialKey)
    requires p in s.flows && q in s.flows && p != q && s.flows[p].PasskeyLoaded? && s.flows[q].PasskeyLoaded?
    requires s.flows[p].key == key && s.flows[q].key == key && s.flows[p].count == s.flows[q].count
    requires p in Using(s, p, a).flows && Using(s, p, a).flows[p].PasskeyUsed?
    ensures var t := Using(s, p, a);
            var u := Using(t, q, b);
            && (q in u.flows && u.flows[q].PasskeyUsed? ==> a == 0 && s.flows[p].count == 0)
            && (a != 0 ==> u.st == t.st)
  {
  }

  // ---------- the service's two sign-in flows ----------

  predicate Acts(a: Action, p: int) {
    || (a.TakeLink? && a.p == p) || (a.ResolveUser? && a.p == p) || (a.GrantFromLink? && a.p == p)
    || (a.TakeCeremony? && a.p == p) || (a.LoadPasskey? && a.p == p) || (a.UsePasskey? && a.p == p)
    || (a.GrantFromPasskey? && a.p == p) || (a.Abort? && a.p == p)
  }

  lemma OthersKeep(s: State, a: Action, p: int)
    requires !Acts(a, p)
    ensures p in Next(s, a).flows <==> p in s.flows
    ensures p in s.flows ==> Next(s, a).flows[p] == s.flows[p]
  {
    hide SavedLink, ConsumedLink, InvalidatedLink, Resolved, SavedSession, SavedCeremony, ConsumedCeremony, SavedCredential,
         UsedCredential, Tombstoned;
  }

  /** The sessions a link has yielded never shrink. */
  lemma GrantsGrow(s: State, a: Action, d: Digest)
    requires Inv(s) && d in s.grants
    ensures d in Next(s, a).grants && s.grants[d] <= Next(s, a).grants[d]
  {
    hide ConsumedLink, InvalidatedLink, Resolving, Loading, Using, TakingCeremony, TakingLink, GrantingFromPasskey, Registering,
         SavedSession, OnePending, CountsClimb;
    match a
    case RequestLink(_, _, _, _, _) =>
    case GrantFromLink(_, _, _, _, _) =>
    case _ => GrantsStay(s, a);
  }

  lemma GrantsStay(s: State, a: Action)
    requires !a.RequestLink? && !a.GrantFromLink?
    ensures Next(s, a).grants == s.grants
  {
    hide ConsumedLink, InvalidatedLink, Resolved, SavedSession, SavedCeremony, ConsumedCeremony, SavedCredential,
         UsedCredential, Tombstoned;
  }

  /** A link that has yielded its session never yields another. */
  lemma {:induction false} SpentLinkStaysSpent(s: State, trace: seq<Action>, d: Digest)
    requires Inv(s) && d in s.grants && s.grants[d] == 1
    ensures d in Run(s, trace).grants && Run(s, trace).grants[d] == 1
    decreases |trace|
  {
    hide Next, OnePending, CountsClimb;
    if trace != [] {
      GrantsGrow(s, trace[0], d);
      StepInv(s, trace[0]);
      SpentLinkStaysSpent(Next(s, trace[0]), trace[1..], d);
    }
  }

  datatype Refusal = InvalidLink | UserDisabled | SessionNotSaved | InvalidCeremony | VerificationFailed | SuspectedClone

  class AuthService {
    var s: State
    var script: seq<seq<Action>>

    constructor (s: State, script: seq<seq<Action>>)
      requires Inv(s)
      ensures this.s == s && this.script == script
    {
      this.s, this.script := s, script;
    }

    /** Everybody else goes on; this sign-in stays where it is. */
    method Others(p: int)
      requires Inv(s) && p in s.flows
      modifies this
      ensures Inv(s) && p in s.flows && s.flows[p] == old(s).flows[p]
      ensures old(script) == [] ==> s == old(s) && script == []
    {
      hide Inv, Next;
      if script == [] { return; }
      var actions := script[0];
      script := script[1..];
      for i := 0 to |actions|
        invariant Inv(s) && p in s.flows && s.flows[p] == old(s).flows[p]
      {
        if !Acts(actions[i], p) {
          OthersKeep(s, actions[i], p);
          StepInv(s, actions[i]);
          s := Next(s, actions[i]);
        }
      }
    }

    method Step(a: Action)
      requires Inv(s)
      modifies this`s
      ensures Inv(s) && s == Next(old(s), a)
    {
      hide Inv, Next;
      StepInv(s, a);
      s := Next(s, a);
    }

    /** Consume the link, find or create its user, save the session. */
    method CompleteMagicLink(p: int, link: Digest, suggested: UserID, d: Digest, id: string, ttl: int)
      returns (refusal: Option<Refusal>)
      requires Inv(s) && p !in s.flows
      modifies this
      ensures Inv(s) && p !in s.flows
      ensures refusal.None? ==> link in s.grants && s.grants[link] == 1 && d in s.st.sessions
      ensures link in old(s).grants && old(s).grants[link] == 1 ==> refusal == Some(InvalidLink) && s == old(s)
      ensures old(script) == [] ==>
                && (refusal.None? <==> LinkGood(old(s), link) && OwnerGood(old(s), link, suggested)
                                       && SessionGood(old(s), d, id, Owner(old(s), link, suggested), ttl))
                && (refusal == Some(InvalidLink) <==> !LinkGood(old(s), link))
                && (refusal.None? ==> s.st.sessions == old(s).st.sessions[d :=
                      Session(id, Owner(old(s), link, suggested), old(s).now, old(s).now + ttl, None)])
    {
      hide *;
      var prepared, now := s.now, s.now;
      ghost var s0 := s;
      SignsIn(s0, p, link, suggested, d, id, now, ttl);
      Takes(s, p, link, now);
      Step(TakeLink(p, link, now));
      if p !in s.flows { return Some(InvalidLink); }
      Others(p);
      Resolves(s, p, suggested, now);
      if suggested in s.st.users {
        Aborts(s, p);
        Step(Abort(p));
        return Some(UserDisabled);
      }
      Step(ResolveUser(p, suggested, now));
      if p !in s.flows { return Some(UserDisabled); }
      Others(p);
      var (st, error) := SavedSession(s.st, d, Session(id, s.flows[p].user, prepared, prepared + ttl, None));
      Grants(s, p, link, d, id, prepared, ttl);
      Step(GrantFromLink(p, d, id, prepared, ttl));
      return if error.Some? then Some(SessionNotSaved) else None;
    }

    /** Consume the ceremony, load the passkey, verify, advance its counter, save
        the session. verified is the verifier's count, if it accepted. */
    method CompletePasskeyLogin(p: int, ceremony: CeremonyID, key: CredentialKey, verified: Option<int>, d: Digest, id: string, ttl: int)
      returns (refusal: Option<Refusal>, ghost used: State, ghost count: int)
      requires Inv(s) && p !in s.flows && (verified.Some? ==> 0 <= verified.value < UINT32)
      modifies this
      ensures Inv(s) && p !in s.flows
      ensures refusal.None? ==>
                && verified.Some? && key in used.st.credentials && used.st.credentials[key].signCount == count
                && !DidNotAdvance(count, verified.value) && d in s.st.sessions
      ensures old(script) == [] ==>
                && (refusal.None? <==>
                      && CeremonyGood(old(s), ceremony) && PasskeyGood(old(s), ceremony, key) && verified.Some?
                      && Advances(old(s).st.credentials[key].signCount, verified.value)
                      && SessionGood(old(s), d, id, old(s).st.credentials[key].user, ttl))
                && (refusal == Some(InvalidCeremony) <==> !CeremonyGood(old(s), ceremony))
                && (refusal.None? ==>
                      && s.st.sessions == old(s).st.sessions[d :=
                           Session(id, old(s).st.credentials[key].user, old(s).now, old(s).now + ttl, None)]
                      && s.st.credentials == old(s).st.credentials[key := old(s).st.credentials[key].(signCount := verified.value)])
    {
      hide *;
      used, count := s, 0;
      var prepared, now := s.now, s.now;
      ghost var s0 := s;
      if verified.Some? { LogsIn(s0, p, ceremony, key, verified.value, d, id, now, ttl); } else { Starts(s0, p, ceremony, now); }
      Begins(s, p, ceremony, now);
      Step(TakeCeremony(p, ceremony, now));
      if p !in s.flows { return Some(InvalidCeremony), used, count; }
      Others(p);
      Loads(s, p, key);
      Step(LoadPasskey(p, key));
      if p !in s.flows { return Some(VerificationFailed), used, count; }
      count := s.flows[p].count;
      Others(p);
      if verified.None? {
        Aborts(s, p);
        Step(Abort(p));
        return Some(VerificationFailed), used, count;
      }
      used := s;
      Uses(s, p, verified.value);
      Step(UsePasskey(p, verified.value));
      if p !in s.flows { return Some(SuspectedClone), used, count; }
      Others(p);
      var (st, error) := SavedSession(s.st, d, Session(id, s.flows[p].user, prepared, prepared + ttl, None));
      Logs(s, p, d, id, prepared, ttl);
      Step(GrantFromPasskey(p, d, id, prepared, ttl));
      return (if error.Some? then Some(SessionNotSaved) else None), used, count;
    }
  }

  // ---------- single steps ----------

  /** The clock runs on, and a count beyond 32 bits is taken for nothing. */
  lemma ClockAndCounts(s: State, seconds: int, p: int, next: int)
    ensures seconds >= 0 ==> Next(s, Tick(seconds)) == s.(now := s.now + seconds)
    ensures next >= 0x1_0000_0000 ==> Next(s, UsePasskey(p, next)) == s
  {
  }

  /** Invalidating takes one link out of use, whatever its purpose, and no other. */
  lemma InvalidationTakesOne(s: State, d: Digest, e: Digest)
    ensures var t := Next(s, InvalidateLink(d));
            && t.flows == s.flows && t.grants == s.grants && t.st.sessions == s.st.sessions && t.st.users == s.st.users
            && (e in t.st.links <==> e in s.st.links)
            && (d in s.st.links ==> t.st.links[d].consumedAt == if s.st.links[d].consumedAt.Some? then s.st.links[d].consumedAt else Some(s.now))
            && (e in s.st.links && e != d ==> t.st.links[e] == s.st.links[e])
  {
  }

  /** A ceremony is stored only under a new, non-empty ID and for some time. */
  lemma CeremonyStoredExactlyWhen(s: State, id: CeremonyID, kind: Kind, user: Option<UserID>, ttl: int)
    ensures Next(s, BeginCeremony(id, kind, user, ttl)).st.ceremonies ==
              if |id.id| > 0 && ttl > 0 && id !in s.st.ceremonies
              then s.st.ceremonies[id := Ceremony(kind, user, s.now, s.now + ttl, None)] else s.st.ceremonies
  {
    hide Requesting, TakingLink, Resolving, GrantingFromLink, TakingCeremony, Loading, Using, GrantingFromPasskey, Tombstoned, Registering;
  }

  /** A passkey is registered only with a count of 32 bits, for a known user, under a
      key and an ID that are not in use; its first count is where its history starts. */
  lemma RegisteredExactlyWhen(s: State, key: CredentialKey, c: Credential)
    ensures var t := Next(s, Register(key, c));
            if |c.id| > 0 && |c.user.id| > 0 && |key.raw| > 0 && 0 <= c.signCount < 0x1_0000_0000
               && c.user in s.st.users && key !in s.st.credentials && c.id !in s.st.keyByID
            then t.st.credentials == s.st.credentials[key := c] && t.st.keyByID == s.st.keyByID[c.id := key] && t.history == s.history[key := [c.signCount]]
            else t == s
  {
    hide Requesting, TakingLink, Resolving, GrantingFromLink, TakingCeremony, Loading, Using, GrantingFromPasskey, Tombstoned;
  }

  /** A forgotten email has no user, and until its time is up a link for it finds none
      and makes none. */
  lemma ForgottenStaysForgotten(s: State, email: Email, ttl: int, t: State, p: int, suggested: UserID, at: int)
    requires t.st.byEmail == Next(s, Tombstone(email, ttl)).st.byEmail && t.st.deleted == Next(s, Tombstone(email, ttl)).st.deleted
    requires p in t.flows && t.flows[p].LinkTaken? && t.flows[p].email == email && at < s.now + ttl
    ensures email !in Next(s, Tombstone(email, ttl)).st.byEmail
    ensures suggested !in t.st.users ==>
              var u := Next(t, ResolveUser(p, suggested, at)); p !in u.flows && u.st == t.st
  {
  }

  // ---------- what a sign-in that nobody disturbs comes to ----------

  /** A sign-in link that was not used and has not run out. */
  predicate LinkGood(s: State, d: Digest) {
    && d in s.st.links && s.st.links[d].purpose == SignIn && s.st.links[d].consumedAt == None && s.now < s.st.links[d].expiresAt
  }

  /** Whose link it is: the user of its email, or a new one. */
  function Owner(s: State, d: Digest, suggested: UserID): UserID {
    if d in s.st.links && s.st.links[d].email in s.st.byEmail then s.st.byEmail[s.st.links[d].email] else suggested
  }

  /** The suggested ID is a new one, the email is not barred, and its user may sign in. */
  predicate OwnerGood(s: State, d: Digest, suggested: UserID) {
    && suggested.id != "" && suggested !in s.st.users && d in s.st.links
    && var email := s.st.links[d].email;
       && (email in s.st.deleted ==> s.st.deleted[email] <= s.now)
       && (email in s.st.byEmail ==> s.st.byEmail[email] in s.st.users && s.st.users[s.st.byEmail[email]].status == Active)
  }

  /** A session that can be stored: named, new, for somebody and for some time. */
  predicate SessionGood(s: State, d: Digest, id: string, user: UserID, ttl: int) {
    id != "" && user.id != "" && ttl > 0 && d !in s.st.sessions
  }

  /** A login ceremony that was not used and has not run out. */
  predicate CeremonyGood(s: State, c: CeremonyID) {
    && c in s.st.ceremonies && s.st.ceremonies[c].kind == Authentication
    && s.st.ceremonies[c].consumedAt == None && s.now < s.st.ceremonies[c].expiresAt
  }

  /** A registered passkey of an active user, the ceremony's own if it names one. */
  predicate PasskeyGood(s: State, c: CeremonyID, key: CredentialKey) {
    && key in s.st.credentials && c in s.st.ceremonies
    && var user := s.st.credentials[key].user;
       && (s.st.ceremonies[c].user == None || s.st.ceremonies[c].user == Some(user))
       && user in s.st.users && s.st.users[user].status == Active
  }

  /** A count that is acceptable after another: greater, or both stuck at zero. */
  predicate Advances(previous: int, next: int) { next > previous || (next == 0 && previous == 0) }

  lemma AdvancesExactlyWhen(previous: int, next: int)
    requires previous >= 0 && next >= 0
    ensures DidNotAdvance(previous, next) <==> !Advances(previous, next)
  {
  }

  lemma TakesWell(s: State, p: int, link: Digest, at: int)
    requires p !in s.flows && at == s.now
    ensures var t := Next(s, TakeLink(p, link, at));
            if LinkGood(s, link) then
              && t.st == s.st.(links := t.st.links) && t.flows == s.flows[p := LinkTaken(link, s.st.links[link].email)] && t.now == s.now
            else t == s
  {
  }

  lemma ResolvesWell(s: State, t: State, p: int, link: Digest, suggested: UserID, at: int)
    requires link in s.st.links && t.st == s.st.(links := t.st.links) && at == s.now && suggested !in s.st.users
    requires p in t.flows && t.flows[p] == LinkTaken(link, s.st.links[link].email)
    ensures var u := Next(t, ResolveUser(p, suggested, at));
            if OwnerGood(s, link, suggested) then
              && p in u.flows && u.flows[p] == LinkUser(link, Owner(s, link, suggested)) && u.st.sessions == s.st.sessions
              && Owner(s, link, suggested) in u.st.users && u.st.users[Owner(s, link, suggested)].status == Active
            else p !in u.flows
  {
  }

  lemma GrantsWell(s: State, u: State, p: int, link: Digest, user: UserID, d: Digest, id: string, at: int, ttl: int)
    requires Inv(u) && p in u.flows && u.flows[p] == LinkUser(link, user) && u.st.sessions == s.st.sessions
    requires user in u.st.users && u.st.users[user].status == Active
    ensures SavedSession(u.st, d, Session(id, user, at, at + ttl, None)).1.None? <==> SessionGood(s, d, id, user, ttl)
    ensures SessionGood(s, d, id, user, ttl) ==>
              Next(u, GrantFromLink(p, d, id, at, ttl)).st.sessions == s.st.sessions[d := Session(id, user, at, at + ttl, None)]
  {
    hide OnePending, CountsClimb;
    assert OnLink(u.flows, p, link);
  }

  /** The three steps of a sign-in by link, one right after the other. */
  lemma SignsIn(s: State, p: int, link: Digest, suggested: UserID, d: Digest, id: string, at: int, ttl: int)
    requires Inv(s) && p !in s.flows && at == s.now
    ensures var t := Next(s, TakeLink(p, link, at));
            && (p in t.flows <==> LinkGood(s, link))
            && (p in t.flows && suggested !in t.st.users ==>
                  var u := Next(t, ResolveUser(p, suggested, at));
                  && (p in u.flows <==> OwnerGood(s, link, suggested))
                  && (p in u.flows ==>
                        && u.flows[p] == LinkUser(link, Owner(s, link, suggested))
                        && var saved := SavedSession(u.st, d, Session(id, u.flows[p].user, at, at + ttl, None));
                           var v := Next(u, GrantFromLink(p, d, id, at, ttl));
                           && (saved.1.None? <==> SessionGood(s, d, id, Owner(s, link, suggested), ttl))
                           && (saved.1.None? ==> v.st.sessions == s.st.sessions[d := Session(id, Owner(s, link, suggested), at, at + ttl, None)])))
    ensures Next(s, TakeLink(p, link, at)).st.users == s.st.users
    ensures suggested in s.st.users ==> !OwnerGood(s, link, suggested)
  {
    var t := Next(s, TakeLink(p, link, at));
    TakesWell(s, p, link, at);
    if LinkGood(s, link) && suggested !in s.st.users {
      ResolvesWell(s, t, p, link, suggested, at);
      var u := Next(t, ResolveUser(p, suggested, at));
      StepInv(s, TakeLink(p, link, at));
      StepInv(t, ResolveUser(p, suggested, at));
      hide *;
      if p in u.flows { GrantsWell(s, u, p, link, Owner(s, link, suggested), d, id, at, ttl); }
    }
  }

  lemma Starts(s: State, p: int, ceremony: CeremonyID, at: int)
    requires p !in s.flows && at == s.now
    ensures p in Next(s, TakeCeremony(p, ceremony, at)).flows <==> CeremonyGood(s, ceremony)
  {
  }

  lemma LoadsWell(s: State, p: int, ceremony: CeremonyID, key: CredentialKey, at: int)
    requires p !in s.flows && at == s.now && CeremonyGood(s, ceremony)
    ensures var t := Next(s, TakeCeremony(p, ceremony, at));
            var u := Next(t, LoadPasskey(p, key));
            if PasskeyGood(s, ceremony, key) then
              && p in u.flows && u.flows[p] == PasskeyLoaded(key, s.st.credentials[key].signCount, s.st.credentials[key].user)
              && u.st == s.st.(ceremonies := u.st.ceremonies) && u.history == s.history
            else p !in u.flows
  {
  }

  lemma UsesWell(s: State, u: State, p: int, key: CredentialKey, next: int)
    requires CountsClimb(s.st.credentials, s.history) && key in s.st.credentials && u.history == s.history && 0 <= next < UINT32
    requires u.st == s.st.(ceremonies := u.st.ceremonies)
    requires p in u.flows && u.flows[p] == PasskeyLoaded(key, s.st.credentials[key].signCount, s.st.credentials[key].user)
    ensures var v := Next(u, UsePasskey(p, next));
            if Advances(s.st.credentials[key].signCount, next) then
              && p in v.flows && v.flows[p] == PasskeyUsed(s.st.credentials[key].user)
              && v.st == u.st.(credentials := s.st.credentials[key := s.st.credentials[key].(signCount := next)])
            else p !in v.flows
  {
    assert key in s.history;
    AdvancesExactlyWhen(s.st.credentials[key].signCount, next);
  }

  lemma LogsWell(s: State, v: State, p: int, user: UserID, d: Digest, id: string, at: int, ttl: int)
    requires p in v.flows && v.flows[p] == PasskeyUsed(user) && v.st.sessions == s.st.sessions
    requires user in v.st.users && v.st.users[user].status == Active
    ensures SavedSession(v.st, d, Session(id, user, at, at + ttl, None)).1.None? <==> SessionGood(s, d, id, user, ttl)
    ensures var w := Next(v, GrantFromPasskey(p, d, id, at, ttl));
            SessionGood(s, d, id, user, ttl) ==>
              w.st.sessions == s.st.sessions[d := Session(id, user, at, at + ttl, None)] && w.st.credentials == v.st.credentials
  {
  }

  /** The four steps of a sign-in by passkey, one right after the other. */
  lemma LogsIn(s: State, p: int, ceremony: CeremonyID, key: CredentialKey, next: int, d: Digest, id: string, at: int, ttl: int)
    requires Inv(s) && p !in s.flows && at == s.now && 0 <= next < UINT32
    ensures var t := Next(s, TakeCeremony(p, ceremony, at));
            && (p in t.flows <==> CeremonyGood(s, ceremony))
            && (p in t.flows ==>
                  var u := Next(t, LoadPasskey(p, key));
                  && (p in u.flows <==> PasskeyGood(s, ceremony, key))
                  && (p in u.flows ==>
                        && key in s.st.credentials
                        && var v := Next(u, UsePasskey(p, next));
                        && (p in v.flows <==> Advances(s.st.credentials[key].signCount, next))
                        && (p in v.flows ==>
                              && v.flows[p] == PasskeyUsed(s.st.credentials[key].user)
                              && var saved := SavedSession(v.st, d, Session(id, v.flows[p].user, at, at + ttl, None));
                                 var w := Next(v, GrantFromPasskey(p, d, id, at, ttl));
                                 && (saved.1.None? <==> SessionGood(s, d, id, s.st.credentials[key].user, ttl))
                                 && (saved.1.None? ==>
                                       && w.st.sessions == s.st.sessions[d := Session(id, s.st.credentials[key].user, at, at + ttl, None)]
                                       && w.st.credentials == s.st.credentials[key := s.st.credentials[key].(signCount := next)]))))
  {
    Starts(s, p, ceremony, at);
    if CeremonyGood(s, ceremony) {
      LoadsWell(s, p, ceremony, key, at);
      if PasskeyGood(s, ceremony, key) {
        var u := Next(Next(s, TakeCeremony(p, ceremony, at)), LoadPasskey(p, key));
        UsesWell(s, u, p, key, next);
        var user := s.st.credentials[key].user;
        var v := Next(u, UsePasskey(p, next));
        assert user in s.st.users && s.st.users[user].status == Active;
        hide *;
        if p in v.flows { LogsWell(s, v, p, user, d, id, at, ttl); }
      }
    }
  }

  lemma Takes(s: State, p: int, d: Digest, at: int)
    requires Inv(s) && p !in s.flows
    ensures var t := Next(s, TakeLink(p, d, at));
            && (p in t.flows ==> t.flows[p].LinkTaken? && t.flows[p].link == d)
            && (p !in t.flows ==> t == s)
            && (d in s.grants && s.grants[d] == 1 ==> t == s)
  {
    hide OnePending, CountsClimb;
  }

  lemma Resolves(s: State, p: int, suggested: UserID, at: int)
    requires p in s.flows && s.flows[p].LinkTaken?
    ensures var t := Next(s, ResolveUser(p, suggested, at));
            p in t.flows && suggested !in s.st.users ==> t.flows[p].LinkUser? && t.flows[p].link == s.flows[p].link
  {
    hide Resolved;
  }

  lemma Aborts(s: State, p: int)
    ensures p !in Next(s, Abort(p)).flows
  {
  }

  lemma Grants(s: State, p: int, link: Digest, d: Digest, id: string, at: int, ttl: int)
    requires Inv(s) && p in s.flows && s.flows[p].LinkUser? && s.flows[p].link == link
    ensures var t := Next(s, GrantFromLink(p, d, id, at, ttl));
            && p !in t.flows
            && (SavedSession(s.st, d, Session(id, s.flows[p].user, at, at + ttl, None)).1.None? ==>
                  link in t.grants && t.grants[link] == 1 && d in t.st.sessions)
  {
    hide OnePending, CountsClimb;
    assert OnLink(s.flows, p, link);
  }

  lemma Begins(s: State, p: int, ceremony: CeremonyID, at: int)
    requires p !in s.flows
    ensures var t := Next(s, TakeCeremony(p, ceremony, at)); p in t.flows ==> t.flows[p].CeremonyTaken?
  {
  }

  lemma Loads(s: State, p: int, key: CredentialKey)
    requires p in s.flows && s.flows[p].CeremonyTaken?
    ensures var t := Next(s, LoadPasskey(p, key)); p in t.flows ==> t.flows[p].PasskeyLoaded? && t.flows[p].key == key
  {
  }

  lemma Uses(s: State, p: int, next: int)
    requires p in s.flows && s.flows[p].PasskeyLoaded? && 0 <= next < UINT32
    ensures var t, f := Next(s, UsePasskey(p, next)), s.flows[p];
            p in t.flows ==>
              && t.flows[p].PasskeyUsed? && f.key in s.st.credentials && s.st.credentials[f.key].signCount == f.count
              && !DidNotAdvance(f.count, next)
  {
  }

  lemma Logs(s: State, p: int, d: Digest, id: string, at: int, ttl: int)
    requires p in s.flows && s.flows[p].PasskeyUsed?
    ensures var t := Next(s, GrantFromPasskey(p, d, id, at, ttl));
            && p !in t.flows
            && (SavedSession(s.st, d, Session(id, s.flows[p].user, at, at + ttl, None)).1.None? ==> d in t.st.sessions)
  {
  }
}
