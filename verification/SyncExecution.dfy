/** Sync jobs over the in-memory store: every interleaving of scheduled and manual
    syncs, enqueues, queue drains and connection purges. */
module SyncExecution {
  import opened Keyset

  datatype Conn = Conn(id: string)
  datatype JobID = JobID(id: string)
  datatype Key = Key(hash: string)

  datatype Status = Pending | Running | Succeeded | Failed

  /** How far a job has come. */
  function Rank(s: Status): int {
    match s case Pending => 0 case Running => 1 case Succeeded => 2 case Failed => 2
  }

  /** What is fixed when a job is created. */
  datatype Birth = Birth(conn: Conn, key: Option<Key>, request: string, expires: int, createdAt: int)
  datatype Job = Job(birth: Birth, status: Status)

  const RETENTION := 24 * 60 * 60

  /** An unexpired job of this connection under this key. */
  predicate Answers(b: Birth, conn: Conn, key: Key, now: int) {
    b.conn == conn && b.key == Some(key) && b.expires > now
  }

  function WithoutConn(jobs: map<JobID, Job>, conn: Conn): map<JobID, Job> {
    map id | id in jobs && jobs[id].birth.conn != conn :: jobs[id]
  }

  /** What a caller of the service asks for. */
  datatype Want = Drain(id: JobID) | Sync(key: Option<Key>, request: string, expires: int)
                | Enqueue(key: Option<Key>, request: string, expires: int)

  /** Where one call of the service stands. */
  datatype Stage = Loaded | Started | Called
  datatype Proc =
    | Arrived(conn: Conn, want: Want)
    | Locked(conn: Conn, want: Want)
    | Cleared(conn: Conn, want: Want)
    | InHand(conn: Conn, id: JobID, birth: Birth, stage: Stage)
    | Releasing(conn: Conn)

  predicate Holds(p: Proc) { !p.Arrived? }

  /** The shared maps and the calls in progress. born, peak and calls record what
      has ever happened: every job created, the furthest status ever stored for it
      and how often a provider was called for it. */
  datatype State = State(now: int, inFlight: set<Conn>, jobs: map<JobID, Job>, procs: map<int, Proc>,
                         born: map<JobID, Birth>, peak: map<JobID, int>, calls: map<JobID, int>)

  /** One atomic step of a call, of a connection purge or of the clock. ok says
      whether the store accepted the write. */
  datatype Action =
    | Arrive(p: int, conn: Conn, want: Want)
    | Acquire(p: int)
    | Check(p: int)
    | GiveUp(p: int)
    | Create(p: int, id: JobID, ok: bool)
    | Start(p: int, ok: bool)
    | Call(p: int, reached: bool)
    | Finish(p: int, status: Status, ok: bool)
    | Release(p: int)
    | Purge(conn: Conn)
    | Tick(seconds: int)

  function Put(s: State, p: int, proc: Proc): State { s.(procs := s.procs[p := proc]) }

  function Expiring(s: State, want: Want): Want {
    if want.Drain? then want else want.(expires := s.now + RETENTION)
  }

  /** The drained job, if it is still queued, or the absence of an earlier job
      under the same key, lets a call proceed. */
  function Checked(s: State, proc: Proc): Proc
    requires proc.Locked?
  {
    match proc.want
    case Drain(id) =>
      if id in s.jobs && s.jobs[id].status == Pending
      then InHand(proc.conn, id, s.jobs[id].birth, Loaded) else Releasing(proc.conn)
    case Sync(key, _, _) =>
      if key.Some? && exists id :: id in s.jobs && Answers(s.jobs[id].birth, proc.conn, key.value, s.now)
      then Releasing(proc.conn) else Cleared(proc.conn, proc.want)
    case Enqueue(key, _, _) =>
      if key.Some? && exists id :: id in s.jobs && Answers(s.jobs[id].birth, proc.conn, key.value, s.now)
      then Releasing(proc.conn) else Cleared(proc.conn, proc.want)
  }

  function Created(s: State, p: int, proc: Proc, id: JobID): State
    requires proc.Cleared? && !proc.want.Drain?
  {
    var birth := Birth(proc.conn, proc.want.key, proc.want.request, proc.want.expires, s.now);
    var s' := s.(jobs := s.jobs[id := Job(birth, Pending)], born := s.born[id := birth],
                 peak := s.peak[id := 0], calls := s.calls[id := 0]);
    Put(s', p, if proc.want.Sync? then InHand(proc.conn, id, birth, Loaded) else Releasing(proc.conn))
  }

  function Stored(s: State, id: JobID, birth: Birth, status: Status): State {
    s.(jobs := s.jobs[id := Job(birth, status)], peak := s.peak[id := Rank(status)])
  }

  // Each step is enabled in one stage of a call; otherwise it changes nothing.

  function Arriving(s: State, p: int, conn: Conn, want: Want): State {
    if p in s.procs || (want.Drain? && want.id !in s.jobs) then s
    else Put(s, p, Arrived(if want.Drain? then s.jobs[want.id].birth.conn else conn, Expiring(s, want)))
  }

  function Acquiring(s: State, p: int): State {
    if p !in s.procs || !s.procs[p].Arrived? then s
    else if s.procs[p].conn in s.inFlight then s.(procs := s.procs - {p})
    else Put(s.(inFlight := s.inFlight + {s.procs[p].conn}), p, Locked(s.procs[p].conn, s.procs[p].want))
  }

  function Checking(s: State, p: int): State {
    if p !in s.procs || !s.procs[p].Locked? then s else Put(s, p, Checked(s, s.procs[p]))
  }

  function GivingUp(s: State, p: int): State {
    if p !in s.procs || !s.procs[p].Cleared? then s else Put(s, p, Releasing(s.procs[p].conn))
  }

  function Creating(s: State, p: int, id: JobID, ok: bool): State {
    if p !in s.procs || !s.procs[p].Cleared? || s.procs[p].want.Drain? || id in s.born then s
    else if !ok then Put(s, p, Releasing(s.procs[p].conn))
    else Created(s, p, s.procs[p], id)
  }

  function Starting(s: State, p: int, ok: bool): State {
    if p !in s.procs || !s.procs[p].InHand? || s.procs[p].stage != Loaded then s
    else if !ok then Put(s, p, Releasing(s.procs[p].conn))
    else Put(Stored(s, s.procs[p].id, s.procs[p].birth, Running), p, s.procs[p].(stage := Started))
  }

  function Calling(s: State, p: int, reached: bool): State {
    if p !in s.procs || !s.procs[p].InHand? || s.procs[p].stage != Started then s
    else
      var id := s.procs[p].id;
      var s' := if reached && id in s.calls then s.(calls := s.calls[id := s.calls[id] + 1]) else s;
      Put(s', p, s.procs[p].(stage := Called))
  }

  function Finishing(s: State, p: int, status: Status, ok: bool): State {
    if p !in s.procs || !s.procs[p].InHand? || s.procs[p].stage != Called || Rank(status) != 2 then s
    else
      var s' := if ok then Stored(s, s.procs[p].id, s.procs[p].birth, status) else s;
      Put(s', p, Releasing(s.procs[p].conn))
  }

  function Unlocking(s: State, p: int): State {
    if p !in s.procs || !s.procs[p].Releasing? then s
    else s.(inFlight := s.inFlight - {s.procs[p].conn}, procs := s.procs - {p})
  }

  function Next(s: State, a: Action): State {
    match a
    case Arrive(p, conn, want) => Arriving(s, p, conn, want)
    case Acquire(p) => Acquiring(s, p)
    case Check(p) => Checking(s, p)
    case GiveUp(p) => GivingUp(s, p)
    case Create(p, id, ok) => Creating(s, p, id, ok)
    case Start(p, ok) => Starting(s, p, ok)
    case Call(p, reached) => Calling(s, p, reached)
    case Finish(p, status, ok) => Finishing(s, p, status, ok)
    case Release(p) => Unlocking(s, p)
    case Purge(conn) => s.(jobs := WithoutConn(s.jobs, conn))
    case Tick(seconds) => if seconds < 0 then s else s.(now := s.now + seconds)
  }

  ghost function Run(s: State, trace: seq<Action>): State
    decreases |trace|
  {
    if trace == [] then s else Run(Next(s, trace[0]), trace[1..])
  }

  // ---------- the invariant ----------

  type Procs = map<int, Proc>

  ghost predicate HoldsAt(procs: Procs, p: int) { p in procs && Holds(procs[p]) }

  ghost predicate HeldBy(procs: Procs, c: Conn) { exists p :: HoldsAt(procs, p) && procs[p].conn == c }

  /** The in-flight set is exactly the connections held, each by one call. */
  ghost predicate Exclusive(inFlight: set<Conn>, procs: Procs) {
    && (forall p, q :: HoldsAt(procs, p) && HoldsAt(procs, q) && procs[p].conn == procs[q].conn ==> p == q)
    && (forall c :: c in inFlight <==> HeldBy(procs, c))
  }

  /** Stored jobs are what they were created as, at the furthest status ever
      stored, and a provider is called at most once, after the job ran. */
  ghost predicate Recorded(jobs: map<JobID, Job>, born: map<JobID, Birth>, peak: map<JobID, int>, calls: map<JobID, int>) {
    && peak.Keys == born.Keys && calls.Keys == born.Keys
    && (forall id :: id in jobs ==> id in born && jobs[id].birth == born[id] && Rank(jobs[id].status) == peak[id])
    && (forall id :: id in born ==> 0 <= peak[id] <= 2 && 0 <= calls[id] <= 1 && (peak[id] == 0 ==> calls[id] == 0))
  }

  /** What one call in progress knows of its job. */
  ghost predicate Knows(h: Proc, born: map<JobID, Birth>, peak: map<JobID, int>, calls: map<JobID, int>) {
    match h
    case Arrived(conn, want) => want.Drain? ==> want.id in born && born[want.id].conn == conn
    case Locked(conn, want) => want.Drain? ==> want.id in born && born[want.id].conn == conn
    case Cleared(conn, want) => !want.Drain?
    case InHand(conn, id, birth, stage) =>
      && id in born && id in peak && id in calls && born[id] == birth && birth.conn == conn
      && peak[id] == (if stage == Loaded then 0 else 1)
      && (stage != Called ==> calls[id] == 0)
    case Releasing(_) => true
  }

  ghost predicate InStep(procs: Procs, born: map<JobID, Birth>, peak: map<JobID, int>, calls: map<JobID, int>) {
    forall p :: p in procs ==> Knows(procs[p], born, peak, calls)
  }

  ghost predicate Working(procs: Procs, p: int, id: JobID) { p in procs && procs[p].InHand? && procs[p].id == id }

  /** A job that is stored or being worked on. */
  ghost predicate Live(jobs: map<JobID, Job>, procs: Procs, id: JobID) {
    id in jobs || exists p :: Working(procs, p, id)
  }

  /** Two different unexpired jobs of one connection under one key. */
  ghost predicate Clash(b: Birth, c: Birth, now: int) {
    b.conn == c.conn && b.key.Some? && b.key == c.key && b.expires > now && c.expires > now
  }

  ghost predicate OnePerKey(now: int, jobs: map<JobID, Job>, procs: Procs, born: map<JobID, Birth>) {
    forall i, j :: i in born && j in born && i != j && Live(jobs, procs, i) && Live(jobs, procs, j) ==>
      !Clash(born[i], born[j], now)
  }

  ghost predicate Seeks(procs: Procs, p: int) {
    p in procs && procs[p].Cleared? && !procs[p].want.Drain? && procs[p].want.key.Some?
  }

  /** What a call that found no earlier job may still rely on. */
  ghost predicate NoneFound(now: int, jobs: map<JobID, Job>, procs: Procs, born: map<JobID, Birth>) {
    forall p, i :: Seeks(procs, p) && i in born && Live(jobs, procs, i) ==>
      !Answers(born[i], procs[p].conn, procs[p].want.key.value, now)
  }

  ghost predicate Inv(s: State) {
    && Exclusive(s.inFlight, s.procs)
    && Recorded(s.jobs, s.born, s.peak, s.calls)
    && InStep(s.procs, s.born, s.peak, s.calls)
    && OnePerKey(s.now, s.jobs, s.procs, s.born)
    && NoneFound(s.now, s.jobs, s.procs, s.born)
  }

  function Initial(now: int): State { State(now, {}, map[], map[], map[], map[], map[]) }

  lemma InitialInv(now: int)
    ensures Inv(Initial(now))
  {
  }

  // ---------- the lock ----------

  /** A call that moves on keeps its connection. */
  lemma KeepsHolding(inFlight: set<Conn>, procs: Procs, p: int, proc: Proc)
    requires Exclusive(inFlight, procs) && HoldsAt(procs, p) && Holds(proc) && proc.conn == procs[p].conn
    ensures Exclusive(inFlight, procs[p := proc])
  {
    var now := procs[p := proc];
    forall c ensures HeldBy(procs, c) <==> HeldBy(now, c) {
      if HeldBy(procs, c) {
        var q :| HoldsAt(procs, q) && procs[q].conn == c;
        assert HoldsAt(now, q);
      }
      if HeldBy(now, c) {
        var q :| HoldsAt(now, q) && now[q].conn == c;
        assert HoldsAt(procs, q);
      }
    }
    forall q | HoldsAt(now, q) ensures HoldsAt(procs, q) && procs[q].conn == now[q].conn {
    }
  }

  lemma Joins(inFlight: set<Conn>, procs: Procs, p: int, proc: Proc)
    requires Exclusive(inFlight, procs) && !HoldsAt(procs, p)
    requires Holds(proc) ==> proc.conn !in inFlight
    ensures Exclusive(if Holds(proc) then inFlight + {proc.conn} else inFlight, procs[p := proc])
  {
    var now := procs[p := proc];
    forall q | HoldsAt(procs, q) ensures q != p && HoldsAt(now, q) && now[q].conn == procs[q].conn {
    }
    forall c | HeldBy(procs, c) ensures HeldBy(now, c) {
      var q :| HoldsAt(procs, q) && procs[q].conn == c;
      assert HoldsAt(now, q);
    }
    if Holds(proc) {
      assert HoldsAt(now, p);
      forall q | HoldsAt(procs, q) ensures procs[q].conn != proc.conn {
        assert HeldBy(procs, procs[q].conn);
      }
    }
    forall c | HeldBy(now, c) ensures HeldBy(procs, c) || (Holds(proc) && c == proc.conn) {
      var q :| HoldsAt(now, q) && now[q].conn == c;
      if q != p { assert HoldsAt(procs, q); }
    }
  }

  lemma Leaves(inFlight: set<Conn>, procs: Procs, p: int)
    requires Exclusive(inFlight, procs) && p in procs
    ensures Exclusive(if Holds(procs[p]) then inFlight - {procs[p].conn} else inFlight, procs - {p})
  {
    var now := procs - {p};
    forall q | HoldsAt(now, q) ensures q != p && HoldsAt(procs, q) && now[q] == procs[q] {
    }
    forall c | HeldBy(now, c) ensures HeldBy(procs, c) && (Holds(procs[p]) ==> c != procs[p].conn) {
      var q :| HoldsAt(now, q) && now[q].conn == c;
      assert HoldsAt(procs, q);
      assert HoldsAt(procs, p) <==> Holds(procs[p]);
    }
    forall c | HeldBy(procs, c) && !(Holds(procs[p]) && c == procs[p].conn) ensures HeldBy(now, c) {
      var q :| HoldsAt(procs, q) && procs[q].conn == c;
      assert HoldsAt(now, q);
    }
  }

  /** The call that takes a step. */
  predicate Moving(s: State, a: Action) {
    (a.Check? || a.GiveUp? || a.Create? || a.Start? || a.Call? || a.Finish?) && a.p in s.procs
  }

  lemma Moves(s: State, a: Action)
    requires Moving(s, a) && Next(s, a) != s
    ensures var s' := Next(s, a);
            && s'.inFlight == s.inFlight && a.p in s'.procs && s'.procs == s.procs[a.p := s'.procs[a.p]]
            && s'.now == s.now
            && Holds(s.procs[a.p]) && Holds(s'.procs[a.p]) && s'.procs[a.p].conn == s.procs[a.p].conn
  {
    hide Answers;
  }

  lemma ExclusiveStep(s: State, a: Action)
    requires Exclusive(s.inFlight, s.procs)
    ensures Exclusive(Next(s, a).inFlight, Next(s, a).procs)
  {
    hide Exclusive, Checked, Created, Stored, Expiring, WithoutConn;
    var s' := Next(s, a);
    if Moving(s, a) {
      if s' != s {
        Moves(s, a);
        KeepsHolding(s.inFlight, s.procs, a.p, s'.procs[a.p]);
      }
    } else if s' != s && (a.Arrive? || a.Acquire?) && a.p in s'.procs {
      Joins(s.inFlight, s.procs, a.p, s'.procs[a.p]);
    } else if s' != s && (a.Acquire? || a.Release?) {
      Leaves(s.inFlight, s.procs, a.p);
    }
  }

  // ---------- the record ----------

  lemma RecordedStep(s: State, a: Action)
    requires Recorded(s.jobs, s.born, s.peak, s.calls) && InStep(s.procs, s.born, s.peak, s.calls)
    ensures Recorded(Next(s, a).jobs, Next(s, a).born, Next(s, a).peak, Next(s, a).calls)
  {
    hide Checked, Expiring, InStep, Created, Stored, Knows, Recorded;
    match a
    case Create(p, id, ok) => if Next(s, a) != s && ok { CreatedRecorded(s, p, s.procs[p], id); }
    case Start(p, ok) => if Next(s, a) != s && ok { KnowsAt(s, p); StoredRecorded(s, s.procs[p], Running); }
    case Call(p, reached) => if Next(s, a) != s && reached { KnowsAt(s, p); CallRecorded(s, s.procs[p]); }
    case Finish(p, status, ok) => if Next(s, a) != s && ok { KnowsAt(s, p); StoredRecorded(s, s.procs[p], status); }
    case Purge(conn) => PurgeRecorded(s, conn);
    case _ =>
  }

  lemma CreatedRecorded(s: State, p: int, proc: Proc, id: JobID)
    requires Recorded(s.jobs, s.born, s.peak, s.calls) && proc.Cleared? && !proc.want.Drain? && id !in s.born
    ensures var t := Created(s, p, proc, id); Recorded(t.jobs, t.born, t.peak, t.calls)
  {
  }

  lemma StoredRecorded(s: State, h: Proc, status: Status)
    requires Recorded(s.jobs, s.born, s.peak, s.calls) && h.InHand? && Knows(h, s.born, s.peak, s.calls)
    requires status != Pending
    ensures var t := Stored(s, h.id, h.birth, status);
            Recorded(t.jobs, t.born, t.peak, t.calls) && t.procs == s.procs && t.born == s.born && t.calls == s.calls
  {
  }

  lemma CallRecorded(s: State, h: Proc)
    requires Recorded(s.jobs, s.born, s.peak, s.calls) && h.InHand? && Knows(h, s.born, s.peak, s.calls)
    requires h.stage == Started
    ensures Recorded(s.jobs, s.born, s.peak, s.calls[h.id := s.calls[h.id] + 1])
  {
  }

  lemma PurgeRecorded(s: State, conn: Conn)
    requires Recorded(s.jobs, s.born, s.peak, s.calls)
    ensures Recorded(WithoutConn(s.jobs, conn), s.born, s.peak, s.calls)
  {
  }

  lemma KnowsAt(s: State, p: int)
    requires InStep(s.procs, s.born, s.peak, s.calls) && p in s.procs
    ensures Knows(s.procs[p], s.born, s.peak, s.calls)
  {
  }

  /** A job is worked on by at most one call. */
  lemma OneWorker(s: State, p: int, q: int)
    requires Exclusive(s.inFlight, s.procs) && InStep(s.procs, s.born, s.peak, s.calls)
    requires p in s.procs && q in s.procs && p != q && s.procs[p].InHand? && s.procs[q].InHand?
    ensures s.procs[p].id != s.procs[q].id
  {
    assert HoldsAt(s.procs, p) && HoldsAt(s.procs, q);
    KnowsAt(s, p);
    KnowsAt(s, q);
  }

  /** Two records that differ at most in one job, and agree on how it was born. */
  ghost predicate SameBut(s: State, t: State, id: JobID) {
    && (forall x :: x in s.born ==> x in t.born && t.born[x] == s.born[x])
    && (forall x :: x in s.peak && x != id ==> x in t.peak && t.peak[x] == s.peak[x])
    && (forall x :: x in s.calls && x != id ==> x in t.calls && t.calls[x] == s.calls[x])
  }

  lemma StillKnows(s: State, t: State, id: JobID, h: Proc)
    requires Knows(h, s.born, s.peak, s.calls) && SameBut(s, t, id)
    requires h.InHand? ==> h.id != id
    ensures Knows(h, t.born, t.peak, t.calls)
  {
  }

  /** The job a step may touch. */
  function Touched(s: State, a: Action): Option<JobID> {
    if a.Create? then Some(a.id)
    else if (a.Start? || a.Call? || a.Finish?) && a.p in s.procs && s.procs[a.p].InHand? then Some(s.procs[a.p].id)
    else None
  }

  lemma TouchesOne(s: State, a: Action)
    requires Recorded(s.jobs, s.born, s.peak, s.calls)
    ensures if Touched(s, a).Some? then Next(s, a) == s || SameBut(s, Next(s, a), Touched(s, a).value)
            else Next(s, a).born == s.born && Next(s, a).peak == s.peak && Next(s, a).calls == s.calls
  {
    hide Arriving, Acquiring, Checking, GivingUp, Creating, Starting, Calling, Finishing, Unlocking, WithoutConn, SameBut, Recorded;
    match a
    case Create(p, id, ok) => CreateTouches(s, p, id, ok);
    case Start(p, ok) => StartTouches(s, p, ok);
    case Call(p, reached) => CallTouches(s, p, reached);
    case Finish(p, status, ok) => FinishTouches(s, p, status, ok);
    case _ => QuietStep(s, a);
  }

  /** The record stays as it is and no job is stored. */
  ghost predicate Quiet(s: State, t: State) {
    && t.born == s.born && t.peak == s.peak && t.calls == s.calls
    && forall x :: x in t.jobs ==> x in s.jobs && t.jobs[x] == s.jobs[x]
  }

  lemma QuietStep(s: State, a: Action)
    requires !a.Create? && !a.Start? && !a.Call? && !a.Finish?
    ensures Quiet(s, Next(s, a))
  {
    hide Arriving, Acquiring, Checking, GivingUp, Unlocking, Quiet;
    match a
    case Arrive(p, conn, want) => QuietArrival(s, p, conn, want);
    case Acquire(p) => QuietAcquisition(s, p);
    case Check(p) => QuietCheck(s, p);
    case GiveUp(p) => QuietExit(s, p);
    case Release(p) => QuietExit(s, p);
    case Purge(conn) => QuietPurge(s, conn);
    case Tick(seconds) => QuietClock(s, seconds);
  }

  lemma QuietArrival(s: State, p: int, conn: Conn, want: Want)
    ensures Quiet(s, Arriving(s, p, conn, want))
  {
    hide Expiring;
  }

  lemma QuietAcquisition(s: State, p: int)
    ensures Quiet(s, Acquiring(s, p))
  {
  }

  lemma QuietCheck(s: State, p: int)
    ensures Quiet(s, Checking(s, p))
  {
    hide Checked;
  }

  lemma QuietExit(s: State, p: int)
    ensures Quiet(s, GivingUp(s, p)) && Quiet(s, Unlocking(s, p))
  {
  }

  lemma QuietPurge(s: State, conn: Conn)
    ensures Quiet(s, s.(jobs := WithoutConn(s.jobs, conn)))
  {
  }

  lemma QuietClock(s: State, seconds: int)
    ensures Quiet(s, s) && Quiet(s, s.(now := s.now + seconds))
  {
  }

  lemma CreateTouches(s: State, p: int, id: JobID, ok: bool)
    requires Recorded(s.jobs, s.born, s.peak, s.calls)
    ensures Creating(s, p, id, ok) == s || SameBut(s, Creating(s, p, id, ok), id)
  {
    hide Recorded;
    BornHasAll(s, id);
  }

  lemma StartTouches(s: State, p: int, ok: bool)
    ensures Starting(s, p, ok) == s || (p in s.procs && s.procs[p].InHand? && SameBut(s, Starting(s, p, ok), s.procs[p].id))
  {
  }

  lemma CallTouches(s: State, p: int, reached: bool)
    ensures Calling(s, p, reached) == s || (p in s.procs && s.procs[p].InHand? && SameBut(s, Calling(s, p, reached), s.procs[p].id))
  {
  }

  lemma FinishTouches(s: State, p: int, status: Status, ok: bool)
    ensures Finishing(s, p, status, ok) == s || (p in s.procs && s.procs[p].InHand? && SameBut(s, Finishing(s, p, status, ok), s.procs[p].id))
  {
  }

  lemma BornHasAll(s: State, id: JobID)
    requires Recorded(s.jobs, s.born, s.peak, s.calls)
    ensures s.peak.Keys == s.born.Keys && s.calls.Keys == s.born.Keys
  {
  }

  /** The moving call knows its own job after its step. */
  lemma MoverKnows(s: State, a: Action)
    requires Exclusive(s.inFlight, s.procs) && Recorded(s.jobs, s.born, s.peak, s.calls)
    requires InStep(s.procs, s.born, s.peak, s.calls)
    requires (Moving(s, a) || a.Arrive? || a.Acquire?) && Next(s, a) != s
    ensures a.p in Next(s, a).procs ==> Knows(Next(s, a).procs[a.p], Next(s, a).born, Next(s, a).peak, Next(s, a).calls)
  {
    hide Exclusive, InStep, Recorded, Knows, Arriving, Acquiring, Checking, GivingUp, Creating, Starting, Calling, Finishing, Unlocking;
    if a.p in s.procs { KnowsAt(s, a.p); }
    match a
    case Arrive(p, conn, want) => ArriverKnows(s, p, conn, want);
    case Check(p) => CheckerKnows(s, p);
    case Create(p, id, ok) => CreatorKnows(s, p, id, ok);
    case Start(p, ok) => StarterKnows(s, p, ok);
    case Call(p, reached) => CallerKnows(s, p, reached);
    case Acquire(p) => HolderKnows(s, p);
    case GiveUp(p) => LeaverKnows(s, p);
    case Finish(p, status, ok) => FinisherKnows(s, p, status, ok);
    case Release(p) => LeaverKnows(s, p);
  }

  /** What a call knows of its job in a state, if it is still going on. */
  ghost predicate Informed(s: State, p: int) { p in s.procs ==> Knows(s.procs[p], s.born, s.peak, s.calls) }

  lemma ArriverKnows(s: State, p: int, conn: Conn, want: Want)
    requires Recorded(s.jobs, s.born, s.peak, s.calls) && Informed(s, p)
    ensures Informed(Arriving(s, p, conn, want), p)
  {
  }

  lemma CheckerKnows(s: State, p: int)
    requires Recorded(s.jobs, s.born, s.peak, s.calls) && Informed(s, p)
    ensures Informed(Checking(s, p), p)
  {
    hide Answers;
  }

  lemma CreatorKnows(s: State, p: int, id: JobID, ok: bool)
    requires Recorded(s.jobs, s.born, s.peak, s.calls) && Informed(s, p)
    ensures Informed(Creating(s, p, id, ok), p)
  {
  }

  lemma StarterKnows(s: State, p: int, ok: bool)
    requires Recorded(s.jobs, s.born, s.peak, s.calls) && Informed(s, p)
    ensures Informed(Starting(s, p, ok), p)
  {
  }

  lemma CallerKnows(s: State, p: int, reached: bool)
    requires Recorded(s.jobs, s.born, s.peak, s.calls) && Informed(s, p)
    ensures Informed(Calling(s, p, reached), p)
  {
  }

  lemma HolderKnows(s: State, p: int)
    requires Informed(s, p)
    ensures Informed(Acquiring(s, p), p)
  {
  }

  lemma LeaverKnows(s: State, p: int)
    requires Informed(s, p)
    ensures Informed(GivingUp(s, p), p) && Informed(Unlocking(s, p), p)
  {
  }

  lemma FinisherKnows(s: State, p: int, status: Status, ok: bool)
    requires Informed(s, p)
    ensures Informed(Finishing(s, p, status, ok), p)
  {
  }

  lemma InStepStep(s: State, a: Action)
    requires Exclusive(s.inFlight, s.procs) && Recorded(s.jobs, s.born, s.peak, s.calls)
    requires InStep(s.procs, s.born, s.peak, s.calls)
    ensures InStep(Next(s, a).procs, Next(s, a).born, Next(s, a).peak, Next(s, a).calls)
  {
    hide Knows, Exclusive, Recorded, SameBut;
    var s' := Next(s, a);
    if s' != s {
      TouchesOne(s, a);
      if Moving(s, a) || a.Arrive? || a.Acquire? { MoverKnows(s, a); }
      OthersStay(s, a);
      forall q | q in s'.procs ensures Knows(s'.procs[q], s'.born, s'.peak, s'.calls) {
        if !(Moving(s, a) || a.Arrive? || a.Acquire?) || q != a.p {
          KnowsAt(s, q);
          var id := Touched(s, a);
          if id.Some? {
            if s.procs[q].InHand? { NotTouched(s, a, q); }
            StillKnows(s, s', id.value, s.procs[q]);
          }
        }
      }
    }
  }

  /** A step changes no call but the one that takes it. */
  lemma OthersStay(s: State, a: Action)
    ensures forall q :: q in Next(s, a).procs && !((Moving(s, a) || a.Arrive? || a.Acquire?) && q == a.p) ==>
              q in s.procs && Next(s, a).procs[q] == s.procs[q]
  {
    hide Checked, Answers, Expiring;
  }

  lemma NotTouched(s: State, a: Action, q: int)
    requires Exclusive(s.inFlight, s.procs) && InStep(s.procs, s.born, s.peak, s.calls)
    requires q in s.procs && s.procs[q].InHand? && Touched(s, a).Some? && Next(s, a) != s && q != a.p
    ensures s.procs[q].id != Touched(s, a).value
  {
    hide Checked, Created, Stored, Exclusive;
    KnowsAt(s, q);
    if !a.Create? { OneWorker(s, a.p, q); }
  }

  // ---------- one unexpired job per key ----------

  /** Fewer live jobs, a later time and no new searcher keep keys unique. */
  lemma LiveShrinks(s: State, t: State)
    requires OnePerKey(s.now, s.jobs, s.procs, s.born) && NoneFound(s.now, s.jobs, s.procs, s.born)
    requires t.born == s.born && t.now >= s.now
    requires forall id :: Live(t.jobs, t.procs, id) ==> Live(s.jobs, s.procs, id)
    requires forall p :: Seeks(t.procs, p) ==> Seeks(s.procs, p) && s.procs[p] == t.procs[p]
    ensures OnePerKey(t.now, t.jobs, t.procs, t.born) && NoneFound(t.now, t.jobs, t.procs, t.born)
  {
    hide Live;
  }

  lemma LiveStep(s: State, a: Action, id: JobID)
    requires !(a.Create? && a.ok && Next(s, a) != s) && InStep(s.procs, s.born, s.peak, s.calls)
    requires Live(Next(s, a).jobs, Next(s, a).procs, id)
    ensures Live(s.jobs, s.procs, id)
  {
    hide Next, InStep;
    var s' := Next(s, a);
    if id in s'.jobs {
      WasStored(s, a, id);
    } else {
      var p :| Working(s'.procs, p, id);
      WasWorking(s, a, p, id);
    }
  }

  /** A job that a step stores was stored or in the hands of the call that moves. */
  lemma WasStored(s: State, a: Action, id: JobID)
    requires !(a.Create? && a.ok && Next(s, a) != s) && id in Next(s, a).jobs
    ensures id in s.jobs || exists p :: Working(s.procs, p, id)
  {
    hide Arriving, Acquiring, Checking, GivingUp, Unlocking, WithoutConn;
    match a
    case Create(_, _, _) =>
    case Start(p, ok) => assert id in s.jobs || Working(s.procs, p, id);
    case Call(_, _) =>
    case Finish(p, status, ok) => assert id in s.jobs || Working(s.procs, p, id);
    case _ => QuietStep(s, a);
  }

  /** A call at work after a step was at work before, or has just loaded a stored job. */
  lemma WasWorking(s: State, a: Action, p: int, id: JobID)
    requires !(a.Create? && a.ok && Next(s, a) != s) && Working(Next(s, a).procs, p, id)
    ensures id in s.jobs || exists q :: Working(s.procs, q, id)
  {
    if !Acts(a, p) {
      OthersStay(s, a);
      assert Working(s.procs, p, id);
    } else {
      hide Answers, WithoutConn;
      assert id in s.jobs || Working(s.procs, p, id);
    }
  }

  lemma SeeksStep(s: State, a: Action, p: int)
    requires Seeks(Next(s, a).procs, p) && (a.Check? && a.p == p ==> Seeks(s.procs, p))
    ensures Seeks(s.procs, p) && s.procs[p] == Next(s, a).procs[p]
  {
    hide Answers, Expiring, Checked;
  }

  lemma TimeGoesOn(s: State, a: Action)
    ensures Next(s, a).now >= s.now
  {
    hide Checked;
  }

  /** The lookup found nothing, and no other call works on this connection. */
  lemma CheckKeys(s: State, a: Action)
    requires Inv(s) && a.Check? && Seeks(Next(s, a).procs, a.p) && !Seeks(s.procs, a.p)
    ensures OnePerKey(Next(s, a).now, Next(s, a).jobs, Next(s, a).procs, Next(s, a).born)
    ensures NoneFound(Next(s, a).now, Next(s, a).jobs, Next(s, a).procs, Next(s, a).born)
  {
    hide Live, Recorded, Exclusive, InStep;
    var s', p := Next(s, a), a.p;
    var key := s'.procs[p].want.key.value;
    forall id | Live(s'.jobs, s'.procs, id) ensures Live(s.jobs, s.procs, id) { LiveStep(s, a, id); }
    forall q, i | Seeks(s'.procs, q) && i in s'.born && Live(s'.jobs, s'.procs, i)
      ensures !Answers(s'.born[i], s'.procs[q].conn, s'.procs[q].want.key.value, s'.now)
    {
      if q == p {
        NothingElseAnswers(s, p, i, key);
      } else {
        SeeksStep(s, a, q);
      }
    }
  }

  lemma NothingElseAnswers(s: State, p: int, i: JobID, key: Key)
    requires Exclusive(s.inFlight, s.procs) && Recorded(s.jobs, s.born, s.peak, s.calls)
    requires InStep(s.procs, s.born, s.peak, s.calls)
    requires p in s.procs && s.procs[p].Locked? && i in s.born && Live(s.jobs, s.procs, i)
    requires forall id :: id in s.jobs ==> !Answers(s.jobs[id].birth, s.procs[p].conn, key, s.now)
    ensures !Answers(s.born[i], s.procs[p].conn, key, s.now)
  {
    if i !in s.jobs {
      var q :| Working(s.procs, q, i);
      KnowsAt(s, q);
      assert HoldsAt(s.procs, p) && HoldsAt(s.procs, q);
    }
  }

  /** The new job is the only unexpired one, as the lookup said. */
  lemma CreateKeys(s: State, a: Action)
    requires Inv(s) && a.Create? && a.ok && Next(s, a) != s
    ensures OnePerKey(Next(s, a).now, Next(s, a).jobs, Next(s, a).procs, Next(s, a).born)
    ensures NoneFound(Next(s, a).now, Next(s, a).jobs, Next(s, a).procs, Next(s, a).born)
  {
    hide Live, Recorded, Exclusive;
    var s', p := Next(s, a), a.p;
    KnowsAt(s, p);
    var conn, want := s.procs[p].conn, s.procs[p].want;
    assert s'.born == s.born[a.id := Birth(conn, want.key, want.request, want.expires, s.now)];
    forall i | i in s'.born && i != a.id && Live(s'.jobs, s'.procs, i) ensures Live(s.jobs, s.procs, i) {
      CreateLive(s, a, i);
    }
    assert want.key.Some? ==> Seeks(s.procs, p);
    forall q | Seeks(s'.procs, q) ensures Seeks(s.procs, q) && s'.procs[q] == s.procs[q] && s.procs[q].conn != conn {
      CreateSeeks(s, a, q);
    }
  }

  lemma CreateLive(s: State, a: Action, i: JobID)
    requires a.Create? && i != a.id && Live(Next(s, a).jobs, Next(s, a).procs, i)
    ensures Live(s.jobs, s.procs, i)
  {
    if i !in s.jobs && Next(s, a) != s {
      var q :| Working(Next(s, a).procs, q, i);
      assert Working(s.procs, q, i);
    }
  }

  lemma CreateSeeks(s: State, a: Action, q: int)
    requires Exclusive(s.inFlight, s.procs) && a.Create? && Next(s, a) != s && Seeks(Next(s, a).procs, q)
    ensures Seeks(s.procs, q) && Next(s, a).procs[q] == s.procs[q] && s.procs[q].conn != s.procs[a.p].conn
  {
    assert q != a.p && q in s.procs;
    assert HoldsAt(s.procs, q) && HoldsAt(s.procs, a.p);
  }

  lemma KeysStep(s: State, a: Action)
    requires Inv(s)
    ensures OnePerKey(Next(s, a).now, Next(s, a).jobs, Next(s, a).procs, Next(s, a).born)
    ensures NoneFound(Next(s, a).now, Next(s, a).jobs, Next(s, a).procs, Next(s, a).born)
  {
    hide Live, Exclusive, Recorded, OnePerKey, NoneFound, Next, InStep;
    var s' := Next(s, a);
    if a.Create? && a.ok && s' != s {
      CreateKeys(s, a);
    } else if a.Check? && Seeks(s'.procs, a.p) && !Seeks(s.procs, a.p) {
      CheckKeys(s, a);
    } else {
      BornStays(s, a);
      TimeGoesOn(s, a);
      forall id | Live(s'.jobs, s'.procs, id) ensures Live(s.jobs, s.procs, id) { LiveStep(s, a, id); }
      forall p | Seeks(s'.procs, p) ensures Seeks(s.procs, p) && s.procs[p] == s'.procs[p] {
        SeeksStep(s, a, p);
      }
      LiveShrinks(s, s');
    }
  }

  lemma BornStays(s: State, a: Action)
    requires !(a.Create? && a.ok && Next(s, a) != s)
    ensures Next(s, a).born == s.born
  {
    hide Checked;
  }

  // ---------- every run ----------

  lemma StepInv(s: State, a: Action)
    requires Inv(s)
    ensures Inv(Next(s, a))
  {
    hide Exclusive, Recorded, InStep, OnePerKey, NoneFound, Next;
    ExclusiveStep(s, a);
    RecordedStep(s, a);
    InStepStep(s, a);
    KeysStep(s, a);
  }

  lemma {:induction false} RunInv(s: State, trace: seq<Action>)
    requires Inv(s)
    ensures Inv(Run(s, trace))
    decreases |trace|
  {
    hide Inv, Next;
    if trace != [] {
      StepInv(s, trace[0]);
      RunInv(Next(s, trace[0]), trace[1..]);
    }
  }

  /** In every reachable state at most one call works on a connection, a provider
      has been called at most once for any job, and at most one unexpired job
      exists per connection and idempotency key. */
  lemma ReachableStatesAreSafe(now: int, trace: seq<Action>)
    ensures var s := Run(Initial(now), trace);
            && (forall p, q :: HoldsAt(s.procs, p) && HoldsAt(s.procs, q) && s.procs[p].conn == s.procs[q].conn ==> p == q)
            && (forall id :: id in s.calls ==> s.calls[id] <= 1)
            && (forall i, j :: i in s.jobs && j in s.jobs && i != j ==> !Clash(s.jobs[i].birth, s.jobs[j].birth, s.now))
  {
    hide Next, Run;
    InitialInv(now);
    RunInv(Initial(now), trace);
  }

  /** From s to t the job keeps its furthest status or takes the next one, and is
      stored with that status if at all. */
  ghost predicate Progresses(s: State, t: State, id: JobID) {
    && id in s.born && id in s.peak && id in t.born && id in t.peak && t.born[id] == s.born[id]
    && s.peak[id] <= t.peak[id] <= s.peak[id] + 1
    && id in s.calls && id in t.calls && s.calls[id] <= t.calls[id]
    && (id in s.jobs && id in t.jobs && s.jobs[id].status != t.jobs[id].status ==>
          || (s.jobs[id].status == Pending && t.jobs[id].status == Running)
          || (s.jobs[id].status == Running && t.jobs[id].status in {Succeeded, Failed}))
    && (s.peak[id] == 2 && id in t.jobs ==> id in s.jobs && t.jobs[id] == s.jobs[id])
  }

  /** What a step may do to a job: keep its status, or take it from pending to running
      or from running to a final status, which stays. */
  lemma StatusStep(s: State, a: Action, id: JobID)
    requires Inv(s) && id in s.born
    ensures Progresses(s, Next(s, a), id)
  {
    hide Exclusive, OnePerKey, NoneFound, InStep, Recorded, Knows, Progresses,
         Arriving, Acquiring, Checking, GivingUp, Creating, Starting, Calling, Finishing, Unlocking, WithoutConn;
    if (a.Start? || a.Call? || a.Finish?) && a.p in s.procs { KnowsAt(s, a.p); }
    match a
    case Create(p, created, ok) => CreateMoves(s, p, created, ok, id);
    case Start(p, ok) => StartMoves(s, p, ok, id);
    case Call(p, reached) => CallMoves(s, p, reached, id);
    case Finish(p, status, ok) => FinishMoves(s, p, status, ok, id);
    case _ =>
      QuietStep(s, a);
      QuietMoves(s, Next(s, a), id);
  }

  lemma QuietMoves(s: State, t: State, id: JobID)
    requires Recorded(s.jobs, s.born, s.peak, s.calls) && id in s.born
    requires Quiet(s, t)
    ensures Progresses(s, t, id)
  {
  }

  lemma CreateMoves(s: State, p: int, other: JobID, ok: bool, id: JobID)
    requires Recorded(s.jobs, s.born, s.peak, s.calls) && id in s.born
    ensures Progresses(s, Creating(s, p, other, ok), id)
  {
  }

  lemma StartMoves(s: State, p: int, ok: bool, id: JobID)
    requires Recorded(s.jobs, s.born, s.peak, s.calls) && Informed(s, p) && id in s.born
    ensures Progresses(s, Starting(s, p, ok), id)
  {
  }

  lemma CallMoves(s: State, p: int, reached: bool, id: JobID)
    requires Recorded(s.jobs, s.born, s.peak, s.calls) && id in s.born
    ensures Progresses(s, Calling(s, p, reached), id)
  {
  }

  lemma FinishMoves(s: State, p: int, status: Status, ok: bool, id: JobID)
    requires Recorded(s.jobs, s.born, s.peak, s.calls) && Informed(s, p) && id in s.born
    ensures Progresses(s, Finishing(s, p, status, ok), id)
  {
  }

  /** Over any stretch of a run a job's status only moves forward, and a job that
      has finished keeps its status or is purged. */
  lemma {:induction false} StatusOnlyMovesForward(s: State, trace: seq<Action>, id: JobID)
    requires Inv(s) && id in s.born
    ensures id in Run(s, trace).born && id in Run(s, trace).peak && s.peak[id] <= Run(s, trace).peak[id]
    ensures id in s.jobs && id in Run(s, trace).jobs ==> Rank(s.jobs[id].status) <= Rank(Run(s, trace).jobs[id].status)
    ensures s.peak[id] == 2 && id in Run(s, trace).jobs ==> id in s.jobs && Run(s, trace).jobs[id] == s.jobs[id]
    decreases |trace|
  {
    hide Next, Exclusive, OnePerKey, NoneFound, InStep, Rank;
    RunInv(s, trace);
    if trace != [] {
      StatusStep(s, trace[0], id);
      StepInv(s, trace[0]);
      StatusOnlyMovesForward(Next(s, trace[0]), trace[1..], id);
    }
  }

  /** Purging a connection's data takes its jobs and nobody else's, and leaves the
      record, the lock and the calls in progress alone. */
  lemma PurgeTakesItsConnection(s: State, conn: Conn, id: JobID)
    ensures var t := Next(s, Purge(conn));
            && (id in t.jobs <==> id in s.jobs && s.jobs[id].birth.conn != conn)
            && (id in t.jobs ==> t.jobs[id] == s.jobs[id]) && t == s.(jobs := t.jobs)
  {
  }

  // ---------- the service's own calls, under any interference ----------

  datatype Error = EmptyConnection | AlreadyRunning | NotFound | Conflict | NotSyncable | NoID | SaveFailed | SyncFailed

  /** An earlier job of this connection and key that has not run out yet. */
  ghost predicate Unexpired(s: State, conn: Conn, key: Key) {
    exists id :: id in s.jobs && s.jobs[id].birth.conn == conn && s.jobs[id].birth.key == Some(key) && s.jobs[id].birth.expires > s.now
  }

  /** How an execution ends: without an error exactly when the provider was called and
      everything accepted, the job then stored as succeeded; as failed when only the
      provider or what it returned is at fault. */
  ghost predicate Outcome(s: State, id: JobID, o: Oracle, error: Option<Error>) {
    && (error.None? <==> o.started && o.reached && o.succeeded && o.finished)
    && (error == Some(SyncFailed) <==> o.started && o.finished && !(o.reached && o.succeeded))
    && (error.None? || error == Some(SyncFailed) || error == Some(SaveFailed))
    && (error.None? ==> id in s.jobs && s.jobs[id].status == Succeeded && id in s.calls && s.calls[id] == 1)
    && (error == Some(SyncFailed) ==> id in s.jobs && s.jobs[id].status == Failed)
  }

  /** What the stores and the provider answer during one call. */
  datatype Oracle = Oracle(id: JobID, syncable: bool, created: bool, started: bool, reached: bool, succeeded: bool, finished: bool)

  class SyncService {
    /** The shared maps and every call in progress. */
    var s: State
    /** What everybody else does between two steps of a call. */
    var script: seq<seq<Action>>

    constructor (now: int, script: seq<seq<Action>>)
      ensures s == Initial(now) && this.script == script && Inv(s)
    {
      s, this.script := Initial(now), script;
      new;
      InitialInv(now);
    }

    /** Others go on; this call stays where it is. */
    method Others(p: int)
      requires Inv(s) && p in s.procs
      modifies this
      ensures Inv(s) && p in s.procs && s.procs[p] == old(s).procs[p]
      ensures Later(old(s), s)
      ensures old(script) == [] ==> s == old(s) && script == []
    {
      hide Inv, Next;
      LaterStarts(s);
      if script == [] { return; }
      var actions := script[0];
      script := script[1..];
      for i := 0 to |actions|
        invariant Inv(s) && p in s.procs && s.procs[p] == old(s).procs[p] && Later(old(s), s)
      {
        if !Acts(actions[i], p) {
          Undisturbed(s, actions[i], p);
          LaterSteps(old(s), s, actions[i]);
          StepInv(s, actions[i]);
          s := Next(s, actions[i]);
        }
      }
    }

    method Step(a: Action)
      requires Inv(s)
      modifies this`s
      ensures Inv(s) && s == Next(old(s), a) && Later(old(s), s)
    {
      hide Inv, Next;
      StepInv(s, a);
      LaterStarts(s);
      LaterSteps(s, s, a);
      s := Next(s, a);
    }

    /** The test and the mark are one step under the service's mutex. */
    method AcquireExecution(p: int) returns (acquired: bool)
      requires Inv(s) && p in s.procs && s.procs[p].Arrived?
      modifies this`s
      ensures Inv(s) && s == Next(old(s), Acquire(p)) && Later(old(s), s)
      ensures acquired == (old(s).procs[p].conn !in old(s).inFlight)
      ensures if acquired then p in s.procs && s.procs[p] == Locked(old(s).procs[p].conn, old(s).procs[p].want)
              else p !in s.procs
    {
      hide Inv;
      acquired := s.procs[p].conn !in s.inFlight;
      Step(Acquire(p));
    }

    /** The latest unexpired job under this connection and key. */
    method GetSyncJobByIdempotencyKey(conn: Conn, key: Key) returns (latest: Option<JobID>)
      ensures latest.Some? <==> exists id :: id in s.jobs && Answers(s.jobs[id].birth, conn, key, s.now)
      ensures latest.Some? ==> latest.value in s.jobs && Answers(s.jobs[latest.value].birth, conn, key, s.now)
      ensures forall id :: latest.Some? && id in s.jobs && Answers(s.jobs[id].birth, conn, key, s.now) ==>
                s.jobs[id].birth.createdAt <= s.jobs[latest.value].birth.createdAt
    {
      var left := s.jobs.Keys;
      latest := None;
      while left != {}
        invariant left <= s.jobs.Keys
        invariant latest.Some? ==> latest.value in s.jobs && Answers(s.jobs[latest.value].birth, conn, key, s.now)
        invariant forall id :: id in s.jobs && id !in left && Answers(s.jobs[id].birth, conn, key, s.now) ==>
                    latest.Some? && s.jobs[id].birth.createdAt <= s.jobs[latest.value].birth.createdAt
        decreases |left|
      {
        var id :| id in left;
        left := left - {id};
        var birth := s.jobs[id].birth;
        if birth.conn != conn || birth.key != Some(key) || birth.expires <= s.now { continue; }
        if latest.None? || s.jobs[latest.value].birth.createdAt < birth.createdAt { latest := Some(id); }
      }
    }

    /** A repeated key replays its job; the same key for another request conflicts. */
    method IdempotentJob(conn: Conn, key: Option<Key>, request: string) returns (previous: Option<JobID>, conflict: bool)
      ensures previous.Some? || conflict <==>
                key.Some? && exists id :: id in s.jobs && Answers(s.jobs[id].birth, conn, key.value, s.now)
      ensures previous.Some? ==>
                && !conflict && previous.value in s.jobs && Answers(s.jobs[previous.value].birth, conn, key.value, s.now)
                && s.jobs[previous.value].birth.request == request
      ensures conflict ==> exists id :: id in s.jobs && Answers(s.jobs[id].birth, conn, key.value, s.now)
                                        && s.jobs[id].birth.request != request
    {
      if key.None? { return None, false; }
      var latest := GetSyncJobByIdempotencyKey(conn, key.value);
      if latest.None? { return None, false; }
      if s.jobs[latest.value].birth.request != request { return None, true; }
      return latest, false;
    }

    /** Leaving a call gives its connection back. */
    method Leave(p: int)
      requires Inv(s) && p in s.procs && s.procs[p].Releasing?
      modifies this`s
      ensures Inv(s) && p !in s.procs && old(s).procs[p].conn !in s.inFlight && Later(old(s), s)
      ensures s.jobs == old(s).jobs && s.calls == old(s).calls && s.born == old(s).born
    {
      hide Inv, Later;
      Step(Release(p));
    }

    /** The body shared by every execution of a job in hand. */
    method ExecuteAcquired(p: int, o: Oracle) returns (error: Option<Error>)
      requires Inv(s) && p in s.procs && s.procs[p].InHand? && s.procs[p].stage == Loaded
      modifies this
      ensures Inv(s) && p in s.procs && s.procs[p] == Releasing(old(s).procs[p].conn)
      ensures Later(old(s), s) && old(s).procs[p].id in s.born
      ensures error.None? ==> s.peak[old(s).procs[p].id] == 2
      ensures Outcome(s, old(s).procs[p].id, o, error) && (error.None? || error == Some(SyncFailed) || error == Some(SaveFailed))
    {
      hide Inv, Next, Later;
      ghost var was, h := s, s.procs[p];
      KnowsItsJob(s, p);
      Step(Start(p, o.started));
      AfterStart(was, p, o.started);
      LaterKeepsJob(was, s, h.id);
      if !o.started { return Some(SaveFailed); }
      ghost var s1 := s;
      Others(p);
      LaterJoins(was, s1, s);
      ghost var s2 := s;
      LaterKeepsJob(was, s, h.id);
      CalledOnce(s, h.id);
      Step(Call(p, o.reached));
      AfterCall(s2, p, o.reached);
      LaterJoins(was, s2, s);
      ghost var s3 := s;
      LaterKeepsJob(was, s, h.id);
      Others(p);
      LaterKeepsJob(s3, s, h.id);
      LaterJoins(was, s3, s);
      ghost var s4 := s;
      LaterKeepsJob(was, s, h.id);
      var status := if o.reached && o.succeeded then Succeeded else Failed;
      Step(Finish(p, status, o.finished));
      AfterFinish(s4, p, status, o.finished);
      LaterKeepsJob(s4, s, h.id);
      LaterJoins(was, s4, s);
      LaterKeepsJob(was, s, h.id);
      CalledOnce(s, h.id);
      if !o.finished { return Some(SaveFailed); }
      return if status == Succeeded then None else Some(SyncFailed);
    }

    /** A queued job: read, lock, read again, and run it only if still pending. */
    method ExecutePending(p: int, id: JobID, o: Oracle) returns (error: Option<Error>, ghost ran: bool)
      requires Inv(s) && p !in s.procs
      modifies this
      ensures Inv(s) && p !in s.procs && Later(old(s), s)
      ensures id !in old(s).jobs ==> error == Some(NotFound) && s == old(s)
      ensures error.None? ==> id in s.born && s.peak[id] >= 1
      ensures ran ==> Outcome(s, id, o, error)
      ensures !ran ==> error.None? || error == Some(NotFound) || error == Some(AlreadyRunning)
      ensures old(script) == [] && id in old(s).jobs ==>
                && (error == Some(AlreadyRunning) <==> old(s).jobs[id].birth.conn in old(s).inFlight)
                && (ran <==> old(s).jobs[id].status == Pending && error != Some(AlreadyRunning))
    {
      hide Inv, Next, Later, Outcome;
      ghost var was := s;
      LaterStarts(s);
      ran := false;
      if id !in s.jobs { return Some(NotFound), false; }
      ghost var s1 := s;
      var conn := s.jobs[id].birth.conn;
      Step(Arrive(p, conn, Drain(id)));
      AfterArrive(s1, p, conn, Drain(id));
      ghost var s2 := s;
      var acquired := AcquireExecution(p);
      LaterJoins(was, s2, s);
      if !acquired { return Some(AlreadyRunning), false; }
      ghost var s3 := s;
      AcquireKeepsJobs(s2, p);
      Others(p);
      LaterJoins(was, s3, s);
      ghost var s4 := s;
      var found, pending := id in s.jobs, id in s.jobs && s.jobs[id].status == Pending;
      Step(Check(p));
      AfterCheck(s4, p);
      LaterJoins(was, s4, s);
      ghost var s5 := s;
      if !found {
        error := Some(NotFound);
      } else if !pending {
        error := None;
        HasStarted(s4, id);
      } else {
        AfterDrainCheck(s4, p);
        ran := true;
        error := ExecuteAcquired(p, o);
      }
      LaterJoins(was, s5, s);
      ghost var s6 := s;
      Leave(p);
      if ran { SameOutcome(s6, s, id, o, error); }
      LaterJoins(was, s6, s);
      if found { StoredWasBorn(s4, id); LaterKeepsJob(s4, s5, id); LaterKeepsJob(s5, s6, id); LaterKeepsJob(s6, s, id); }
    }

    /** Locking, and the idempotency lookup that decides whether to go on. */
    method Begin(p: int, conn: Conn, want: Want) returns (previous: Option<JobID>, error: Option<Error>)
      requires Inv(s) && p !in s.procs && !want.Drain?
      modifies this
      ensures Inv(s) && Later(old(s), s)
      ensures error == Some(AlreadyRunning) <==> p !in s.procs
      ensures p in s.procs ==> s.procs[p].conn == conn
      ensures p in s.procs && previous.None? && error.None? ==>
                s.procs[p].Cleared? && s.procs[p].want == want.(expires := old(s).now + 24 * 3600)
      ensures p in s.procs && (previous.Some? || error.Some?) ==> s.procs[p].Releasing?
      ensures previous.Some? ==>
                error.None? && want.key.Some? && previous.value in s.born && Replays(s.born[previous.value], conn, want)
      ensures error.None? || error == Some(AlreadyRunning) || error == Some(Conflict)
      ensures old(script) == [] ==> script == [] && s.jobs == old(s).jobs && s.born == old(s).born
      ensures old(script) == [] ==>
                && (error == Some(AlreadyRunning) <==> conn in old(s).inFlight)
                && (error != Some(AlreadyRunning) ==>
                      (previous.Some? || error.Some? <==> want.key.Some? && Unexpired(old(s), conn, want.key.value)))
    {
      hide Inv, Next, Later;
      previous, error := None, None;
      ghost var was := s;
      Step(Arrive(p, conn, want));
      AfterArrive(was, p, conn, want);
      ghost var s2 := s;
      AcquireKeepsJobs(s2, p);
      var acquired := AcquireExecution(p);
      LaterJoins(was, s2, s);
      if !acquired { return None, Some(AlreadyRunning); }
      ghost var s3 := s;
      Others(p);
      LaterJoins(was, s3, s);
      ghost var s4 := s;
      var conflict;
      previous, conflict := IdempotentJob(conn, want.key, want.request);
      Step(Check(p));
      AfterCheck(s4, p);
      CheckKeepsJobs(s4, p);
      LaterJoins(was, s4, s);
      if previous.Some? { StoredWasBorn(s4, previous.value); LaterKeepsJob(s4, s, previous.value); }
      if conflict { error := Some(Conflict); }
    }

    /** A manual or scheduled synchronisation, executed at once. */
    method Sync(p: int, conn: Conn, key: Option<Key>, request: string, o: Oracle)
      returns (job: Option<JobID>, error: Option<Error>, ghost made: bool)
      requires Inv(s) && p !in s.procs
      modifies this
      ensures Inv(s) && p !in s.procs && Later(old(s), s)
      ensures conn.id == "" ==> error == Some(EmptyConnection) && s == old(s)
      ensures error.None? ==> job.Some? && job.value in s.born && Replays(s.born[job.value], conn, Want.Sync(key, request, 0))
      ensures made ==> job == Some(o.id) && o.created && Outcome(s, o.id, o, error)
      ensures made ==> o.id !in old(s).born && o.id in s.born && s.born[o.id].expires == old(s).now + 24 * 3600
      ensures !made && error.None? ==> key.Some?
      ensures old(script) == [] && conn.id != "" ==>
                && (error == Some(AlreadyRunning) <==> conn in old(s).inFlight)
                && (made <==> && error != Some(AlreadyRunning) && o.id !in old(s).born && o.created
                               && !(key.Some? && Unexpired(old(s), conn, key.value)))
    {
      hide Inv, Next, Later, Outcome, Unexpired;
      ghost var was := s;
      LaterStarts(s);
      made := false;
      if conn.id == "" { return None, Some(EmptyConnection), false; }
      job, error := Begin(p, conn, Want.Sync(key, request, 0));
      if error == Some(AlreadyRunning) { return; }
      ghost var s1 := s;
      if job.None? && error.None? {
        Others(p);
        LaterJoins(was, s1, s);
        ghost var s2 := s;
        job, error := NewJob(p, o);
        LaterJoins(was, s2, s);
        ghost var s3 := s;
        if error.None? {
          made := true;
          ghost var born := s.born[o.id];
          Others(p);
          LaterJoins(was, s3, s);
          ghost var s4 := s;
          error := ExecuteAcquired(p, o);
          LaterJoins(was, s4, s);
          LaterKeepsJob(s3, s4, job.value);
          LaterKeepsJob(s4, s, job.value);
        }
      }
      ghost var s5 := s;
      Leave(p);
      if made { SameOutcome(s5, s, o.id, o, error); }
      LaterJoins(was, s5, s);
      if error.None? { LaterKeepsJob(s5, s, job.value); }
    }

    /** Storing a new pending job. */
    method NewJob(p: int, o: Oracle) returns (job: Option<JobID>, error: Option<Error>)
      requires Inv(s) && p in s.procs && s.procs[p].Cleared?
      modifies this`s
      ensures Inv(s) && Later(old(s), s) && p in s.procs && s.procs[p].conn == old(s).procs[p].conn
      ensures error.Some? ==> s.procs[p].Releasing?
      ensures error.None? ==>
                && job == Some(o.id) && o.id !in old(s).born && o.id in s.born
                && Replays(s.born[o.id], old(s).procs[p].conn, old(s).procs[p].want)
                && (if old(s).procs[p].want.Sync? then s.procs[p].InHand? && s.procs[p].id == o.id && s.procs[p].stage == Loaded
                    else s.procs[p].Releasing?)
                && o.id in s.jobs && s.jobs[o.id] == Job(s.born[o.id], Pending)
                && s.born[o.id].expires == old(s).procs[p].want.expires && s.born[o.id].createdAt == old(s).now
      ensures error.None? <==> o.id !in old(s).born && o.created
      ensures error.None? || error == Some(NoID) || error == Some(SaveFailed)
    {
      hide Inv, Next, Later;
      ghost var was := s;
      NotADrain(s, p);
      if o.id in s.born {
        Step(GiveUp(p));
        AfterGiveUp(was, p);
        return None, Some(NoID);
      }
      Step(Create(p, o.id, o.created));
      AfterCreate(was, p, o.id, o.created);
      if !o.created { return None, Some(SaveFailed); }
      return Some(o.id), None;
    }

    /** Recording a manual synchronisation for a later drain. */
    method EnqueueManualSync(p: int, conn: Conn, key: Key, request: string, o: Oracle)
      returns (job: Option<JobID>, error: Option<Error>, ghost made: bool)
      requires Inv(s) && p !in s.procs
      modifies this
      ensures Inv(s) && p !in s.procs && Later(old(s), s)
      ensures error.None? ==> job.Some? && job.value in s.born && Replays(s.born[job.value], conn, Enqueue(Some(key), request, 0))
      ensures made ==> error.None? && job == Some(o.id) && o.syncable && o.created && o.id !in old(s).born
      ensures made ==> o.id in s.jobs && s.jobs[o.id].status == Pending && s.jobs[o.id].birth.expires == old(s).now + 24 * 3600
      ensures error == Some(NotSyncable) ==> !o.syncable
      ensures old(script) == [] ==>
                && (error == Some(AlreadyRunning) <==> conn in old(s).inFlight)
                && (made <==> && error != Some(AlreadyRunning) && o.syncable && o.id !in old(s).born && o.created
                               && !Unexpired(old(s), conn, key))
    {
      hide Inv, Next, Later, Unexpired;
      ghost var was := s;
      made := false;
      job, error := Begin(p, conn, Enqueue(Some(key), request, 0));
      if error == Some(AlreadyRunning) { return; }
      ghost var s1 := s;
      if job.None? && error.None? {
        Others(p);
        LaterJoins(was, s1, s);
        ghost var s2 := s;
        if !o.syncable {
          Step(GiveUp(p));
          AfterGiveUp(s2, p);
          error := Some(NotSyncable);
        } else {
          job, error := NewJob(p, o);
          made := error.None?;
        }
        LaterJoins(was, s2, s);
      }
      ghost var s3 := s;
      Leave(p);
      LaterJoins(was, s3, s);
      if error.None? { LaterKeepsJob(s3, s, job.value); }
    }
  }

  // ---------- what the service's steps rely on ----------

  /** A job that stands for this request. */
  predicate Replays(b: Birth, conn: Conn, want: Want)
    requires !want.Drain?
  {
    b.conn == conn && b.key == want.key && (want.key.Some? ==> b.request == want.request)
  }

  predicate Acts(a: Action, p: int) {
    !a.Purge? && !a.Tick? && a.p == p
  }

  /** Time, births and furthest statuses only grow. */
  ghost predicate Later(s: State, t: State) {
    && s.now <= t.now && s.peak.Keys == s.born.Keys && t.peak.Keys == t.born.Keys
    && (forall id :: id in s.born ==> id in t.born && t.born[id] == s.born[id] && s.peak[id] <= t.peak[id])
    && (forall id :: id in s.born && id in s.calls ==> id in t.calls && s.calls[id] <= t.calls[id])
  }

  lemma LaterStarts(s: State)
    requires Inv(s)
    ensures Later(s, s)
  {
  }

  lemma LaterSteps(s: State, t: State, a: Action)
    requires Inv(t) && Later(s, t)
    ensures Later(s, Next(t, a))
  {
    hide Next, Exclusive, OnePerKey, NoneFound, InStep;
    TimeGoesOn(t, a);
    StepInv(t, a);
    forall id | id in s.born
      ensures id in Next(t, a).born && Next(t, a).born[id] == t.born[id] && t.peak[id] <= Next(t, a).peak[id]
      ensures id in t.calls && id in Next(t, a).calls && t.calls[id] <= Next(t, a).calls[id]
    {
      StatusStep(t, a, id);
    }
  }

  lemma LaterJoins(s: State, t: State, u: State)
    requires Later(s, t) && Later(t, u)
    ensures Later(s, u)
  {
  }

  lemma LaterKeepsJob(s: State, t: State, id: JobID)
    requires Later(s, t) && id in s.born
    ensures id in s.peak && id in t.born && t.born[id] == s.born[id] && id in t.peak && s.peak[id] <= t.peak[id]
    ensures id in s.calls ==> id in t.calls && s.calls[id] <= t.calls[id]
  {
  }

  lemma CalledOnce(s: State, id: JobID)
    requires Inv(s) && id in s.born
    ensures id in s.calls && 0 <= s.calls[id] <= 1
  {
  }

  /** A step of somebody else leaves a call where it is. */
  lemma Undisturbed(s: State, a: Action, p: int)
    requires p in s.procs && !Acts(a, p)
    ensures p in Next(s, a).procs && Next(s, a).procs[p] == s.procs[p]
  {
    hide Checked, Expiring;
  }

  lemma KnowsItsJob(s: State, p: int)
    requires Inv(s) && p in s.procs && s.procs[p].InHand?
    ensures s.procs[p].id in s.born && s.born[s.procs[p].id].conn == s.procs[p].conn
  {
    KnowsAt(s, p);
  }

  lemma NotADrain(s: State, p: int)
    requires Inv(s) && p in s.procs && s.procs[p].Cleared?
    ensures !s.procs[p].want.Drain?
  {
    KnowsAt(s, p);
  }

  lemma StoredWasBorn(s: State, id: JobID)
    requires Inv(s) && id in s.jobs
    ensures id in s.born && s.born[id] == s.jobs[id].birth
  {
  }

  lemma HasStarted(s: State, id: JobID)
    requires Inv(s) && id in s.jobs && s.jobs[id].status != Pending
    ensures id in s.born && id in s.peak && s.peak[id] >= 1
  {
  }

  lemma AfterArrive(s: State, p: int, conn: Conn, want: Want)
    requires p !in s.procs && (want.Drain? ==> want.id in s.jobs && conn == s.jobs[want.id].birth.conn)
    ensures var t := Next(s, Arrive(p, conn, want));
            && p in t.procs && t.procs[p] == Arrived(conn, Expiring(s, want)) && t.jobs == s.jobs && t.inFlight == s.inFlight
            && t.born == s.born && (!want.Drain? ==> t.procs[p].want.expires == s.now + 24 * 3600) && t.now == s.now
  {
  }

  lemma AcquireKeepsJobs(s: State, p: int)
    ensures Next(s, Acquire(p)).jobs == s.jobs && Next(s, Acquire(p)).born == s.born && Next(s, Acquire(p)).now == s.now
  {
  }

  lemma CheckKeepsJobs(s: State, p: int)
    ensures Next(s, Check(p)).jobs == s.jobs && Next(s, Check(p)).born == s.born
  {
    hide Checked;
  }

  lemma AfterDrainCheck(s: State, p: int)
    requires p in s.procs && s.procs[p].Locked? && s.procs[p].want.Drain?
    ensures var t := Next(s, Check(p));
            p in t.procs && t.procs[p].InHand? ==> t.procs[p].id == s.procs[p].want.id
  {
  }

  lemma SameOutcome(s: State, t: State, id: JobID, o: Oracle, error: Option<Error>)
    requires Outcome(s, id, o, error) && t.jobs == s.jobs && t.calls == s.calls
    ensures Outcome(t, id, o, error)
  {
  }

  lemma AfterCheck(s: State, p: int)
    requires p in s.procs && s.procs[p].Locked?
    ensures var t := Next(s, Check(p));
            && p in t.procs && t.procs[p] == Checked(s, s.procs[p]) && t.procs[p].conn == s.procs[p].conn
  {
  }

  lemma AfterGiveUp(s: State, p: int)
    requires p in s.procs && s.procs[p].Cleared?
    ensures var t := Next(s, GiveUp(p)); p in t.procs && t.procs[p] == Releasing(s.procs[p].conn)
  {
  }

  lemma AfterCreate(s: State, p: int, id: JobID, ok: bool)
    requires p in s.procs && s.procs[p].Cleared? && !s.procs[p].want.Drain? && id !in s.born
    ensures var t, h := Next(s, Create(p, id, ok)), s.procs[p];
            && p in t.procs && t.procs[p].conn == h.conn
            && (if !ok || h.want.Enqueue? then t.procs[p].Releasing?
                else t.procs[p].InHand? && t.procs[p].id == id && t.procs[p].stage == Loaded)
            && (ok ==> id in t.born && Replays(t.born[id], h.conn, h.want) && id in t.jobs && t.jobs[id] == Job(t.born[id], Pending)
                       && t.born[id].expires == h.want.expires && t.born[id].createdAt == s.now)
  {
  }

  lemma AfterStart(s: State, p: int, ok: bool)
    requires p in s.procs && s.procs[p].InHand? && s.procs[p].stage == Loaded
    ensures var t, h := Next(s, Start(p, ok)), s.procs[p];
            p in t.procs && t.procs[p] == if ok then h.(stage := Started) else Releasing(h.conn)
  {
  }

  lemma AfterCall(s: State, p: int, reached: bool)
    requires p in s.procs && s.procs[p].InHand? && s.procs[p].stage == Started
    ensures var t := Next(s, Call(p, reached)); p in t.procs && t.procs[p] == s.procs[p].(stage := Called)
    ensures var t, id := Next(s, Call(p, reached)), s.procs[p].id;
            reached && id in s.calls && s.calls[id] >= 0 ==> id in t.calls && t.calls[id] >= 1
  {
  }

  lemma AfterFinish(s: State, p: int, status: Status, ok: bool)
    requires p in s.procs && s.procs[p].InHand? && s.procs[p].stage == Called && Rank(status) == 2
    ensures var t, h := Next(s, Finish(p, status, ok)), s.procs[p];
            && p in t.procs && t.procs[p] == Releasing(h.conn)
            && (ok ==> h.id in t.peak && t.peak[h.id] == 2 && h.id in t.jobs && t.jobs[h.id].status == status)
  {
  }
}
