/** Provider token revocation: leased jobs, fenced by claim tokens, worked on by
    any number of workers that may crash or outlive their lease. */
module Revocation {
  import opened Keyset
  import Backoff

  datatype ID = ID(id: string)

  datatype Status = Pending | Processing | Dead

  /** A stored job. token and lease belong to the current claim, if any. */
  datatype Job = Job(status: Status, attempts: int, available: int, lease: int, token: int)

  /** A job as a claim handed it to a worker. */
  datatype Held = Held(id: ID, token: int, attempts: int)

  /** The jobs of a batch still to be processed and, once the first one has been
      attempted, whether the attempt succeeded. */
  datatype Worker = Worker(queue: seq<Held>, outcome: Option<bool>)

  datatype Config = Config(max: int, lease: int, batch: int) {
    predicate Valid() { 1 <= max <= 100 && lease > 0 && 1 <= batch <= 100 }
  }

  /** The constructor's checks: a limit of no attempts stands for eight, a call has to
      end before the lease does, and limit and batch are at most a hundred. */
  method NewConfig(poll: int, lease: int, callTimeout: int, batch: int, max: int) returns (c: Option<Config>)
    ensures c.Some? <==>
              poll > 0 && 0 < callTimeout < lease && 0 < batch <= 100 && (max == 0 || 0 < max <= 100)
    ensures c.Some? ==> c.value == Config(if max == 0 then 8 else max, lease, batch) && c.value.Valid()
    ensures c.None? && poll > 0 && 0 < callTimeout < lease ==> !Config(if max == 0 then 8 else max, lease, batch).Valid()
  {
    var limit := if max == 0 then 8 else max;
    if poll <= 0 || lease <= 0 || callTimeout <= 0 || callTimeout >= lease { return None; }
    if batch <= 0 || batch > 100 || limit < 1 || limit > 100 { return None; }
    return Some(Config(limit, lease, batch));
  }

  /** The store, the workers, and what has ever happened to a job: how often it was
      claimed, which claims reached the provider, and which jobs it accepted. */
  datatype State = State(now: int, jobs: map<ID, Job>, nextToken: int, workers: map<int, Worker>,
                         claims: map<ID, int>, called: map<ID, set<int>>, calls: map<ID, int>,
                         accepted: set<ID>, completed: set<ID>)

  // ---------- the store ----------

  /** Queued and due, or left behind by a claim whose lease ran out. */
  predicate Claimable(j: Job, now: int) {
    (j.status == Pending && j.available <= now) || (j.status == Processing && j.lease <= now)
  }

  /** Only the current claim may change a job. */
  predicate Owns(jobs: map<ID, Job>, h: Held) {
    h.id in jobs && jobs[h.id].status == Processing && jobs[h.id].token == h.token
  }

  function ClaimOne(c: Config, s: State, w: int, id: ID): State
    requires w in s.workers
  {
    if id !in s.jobs || !Claimable(s.jobs[id], s.now) || id !in s.claims then s
    else
      var n := s.claims[id] + 1;
      s.(jobs := s.jobs[id := Job(Processing, n, s.jobs[id].available, s.now + c.lease, s.nextToken)],
         nextToken := s.nextToken + 1,
         claims := s.claims[id := n],
         workers := s.workers[w := Worker(s.workers[w].queue + [Held(id, s.nextToken, n)], s.workers[w].outcome)])
  }

  function ClaimAll(c: Config, s: State, w: int, ids: seq<ID>): State
    requires w in s.workers
    decreases |ids|
  {
    if ids == [] then s else ClaimAll(c, ClaimOne(c, s, w, ids[0]), w, ids[1..])
  }

  /** What becomes of the first job of a queue: terminal when its attempts are
      used up, done when the provider accepted, otherwise queued again. */
  datatype Disposition = Complete | DeadLetter | Retry

  function Disposed(c: Config, h: Held, outcome: Option<bool>): Disposition {
    if h.attempts > c.max then DeadLetter
    else if outcome == Some(true) then Complete
    else if h.attempts >= c.max then DeadLetter
    else Retry
  }

  function Settle(s: State, h: Held, d: Disposition, available: int): State {
    if !Owns(s.jobs, h) then s
    else
      match d
      case Complete => s.(jobs := s.jobs - {h.id}, completed := s.completed + {h.id})
      case DeadLetter => s.(jobs := s.jobs[h.id := s.jobs[h.id].(status := Dead, lease := 0, token := 0)])
      case Retry => s.(jobs := s.jobs[h.id := s.jobs[h.id].(status := Pending, available := available, lease := 0, token := 0)])
  }

  // ---------- steps ----------

  datatype Action =
    | Enqueue(id: ID)
    | Claim(w: int, ids: seq<ID>)
    | Attempt(w: int, decrypts: bool, accepts: bool)
    | Dispose(w: int, available: int, stores: bool)
    | Crash(w: int)
    | Tick(seconds: int)

  predicate Ready(c: Config, s: State, w: int) {
    w in s.workers && s.workers[w].queue != [] && s.workers[w].outcome.None? && s.workers[w].queue[0].attempts <= c.max
  }

  predicate Settling(c: Config, s: State, w: int) {
    && w in s.workers && s.workers[w].queue != []
    && (s.workers[w].outcome.Some? || s.workers[w].queue[0].attempts > c.max)
  }

  function Attempted(s: State, w: int, decrypts: bool, accepts: bool): State
    requires w in s.workers && s.workers[w].queue != []
  {
    var h := s.workers[w].queue[0];
    var s' := s.(workers := s.workers[w := Worker(s.workers[w].queue, Some(decrypts && accepts))]);
    if !decrypts || h.id !in s.called || h.id !in s.calls then s'.(workers := s.workers[w := Worker(s.workers[w].queue, Some(false))])
    else
      s'.(called := s.called[h.id := s.called[h.id] + {h.attempts}], calls := s.calls[h.id := s.calls[h.id] + 1],
          accepted := if accepts then s.accepted + {h.id} else s.accepted)
  }

  function Popped(s: State, w: int): State
    requires w in s.workers && s.workers[w].queue != []
  {
    s.(workers := s.workers[w := Worker(s.workers[w].queue[1..], None)])
  }

  function Next(c: Config, s: State, a: Action): State {
    match a
    case Enqueue(id) =>
      if id in s.claims then s
      else s.(jobs := s.jobs[id := Job(Pending, 0, s.now, 0, 0)], claims := s.claims[id := 0],
              called := s.called[id := {}], calls := s.calls[id := 0])
    case Claim(w, ids) =>
      if (w in s.workers && s.workers[w].queue != []) || |ids| > c.batch then s
      else ClaimAll(c, s.(workers := s.workers[w := Worker([], None)]), w, ids)
    case Attempt(w, decrypts, accepts) => if Ready(c, s, w) then Attempted(s, w, decrypts, accepts) else s
    case Dispose(w, available, stores) =>
      if !Settling(c, s, w) then s
      else
        var h := s.workers[w].queue[0];
        Popped(if stores then Settle(s, h, Disposed(c, h, s.workers[w].outcome), available) else s, w)
    case Crash(w) => s.(workers := s.workers - {w})
    case Tick(seconds) => if seconds < 0 then s else s.(now := s.now + seconds)
  }

  function Run(c: Config, s: State, trace: seq<Action>): State
    decreases |trace|
  {
    if trace == [] then s else Run(c, Next(c, s, trace[0]), trace[1..])
  }

  // ---------- the invariant ----------

  predicate Holds(workers: map<int, Worker>, w: int, i: int) {
    w in workers && 0 <= i < |workers[w].queue|
  }

  function Item(workers: map<int, Worker>, w: int, i: int): Held
    requires Holds(workers, w, i)
  {
    workers[w].queue[i]
  }

  /** The record is complete and says how often a provider was called, at most once
      per claim and only for the first max claims. */
  ghost predicate Recorded(c: Config, claims: map<ID, int>, called: map<ID, set<int>>, calls: map<ID, int>) {
    && called.Keys == claims.Keys && calls.Keys == claims.Keys
    && (forall id :: id in claims ==> claims[id] >= 0 && calls[id] == |called[id]|)
    && (forall id, n :: id in claims && n in called[id] ==> 1 <= n <= c.max && n <= claims[id])
  }

  /** Stored jobs know their number of claims; terminal ones used them up. */
  ghost predicate Counted(c: Config, jobs: map<ID, Job>, claims: map<ID, int>) {
    forall id :: id in jobs ==>
      id in claims && jobs[id].attempts == claims[id] && (jobs[id].status == Dead ==> claims[id] >= c.max)
  }

  /** What is known of a job in a worker's hands; a claim not yet attempted was
      never called. */
  ghost predicate Known(h: Held, untried: bool, claims: map<ID, int>, called: map<ID, set<int>>) {
    && h.id in claims && h.id in called && 1 <= h.attempts <= claims[h.id]
    && (untried ==> h.attempts !in called[h.id])
  }

  predicate Untried(workers: map<int, Worker>, w: int, i: int)
    requires Holds(workers, w, i)
  {
    i > 0 || workers[w].outcome.None?
  }

  ghost predicate SameClaim(workers: map<int, Worker>, w: int, i: int, v: int, j: int) {
    && Holds(workers, w, i) && Holds(workers, v, j)
    && Item(workers, w, i).id == Item(workers, v, j).id && Item(workers, w, i).attempts == Item(workers, v, j).attempts
  }

  /** Every claim is in one hand at most. */
  ghost predicate OneHand(workers: map<int, Worker>) {
    forall w, i, v, j :: SameClaim(workers, w, i, v, j) ==> w == v && i == j
  }

  ghost predicate InHand(workers: map<int, Worker>, claims: map<ID, int>, called: map<ID, set<int>>) {
    && (forall w, i :: Holds(workers, w, i) ==> Known(Item(workers, w, i), Untried(workers, w, i), claims, called))
    && OneHand(workers)
  }

  /** An attempt counts as accepted, and a job as completed, only if the provider accepted. */
  ghost predicate Honest(workers: map<int, Worker>, accepted: set<ID>, completed: set<ID>) {
    && (forall w :: w in workers && workers[w].outcome == Some(true) ==>
          workers[w].queue != [] && workers[w].queue[0].id in accepted)
    && completed <= accepted
  }

  ghost predicate Inv(c: Config, s: State) {
    && Recorded(c, s.claims, s.called, s.calls)
    && Counted(c, s.jobs, s.claims)
    && InHand(s.workers, s.claims, s.called)
    && Honest(s.workers, s.accepted, s.completed)
  }

  function Initial(now: int): State { State(now, map[], 0, map[], map[], map[], map[], {}, {}) }

  /** Handing out a new claim of a job. */
  lemma HandOut(workers: map<int, Worker>, claims: map<ID, int>, called: map<ID, set<int>>, w: int, h: Held)
    requires InHand(workers, claims, called) && w in workers && workers[w].outcome.None?
    requires h.id in claims && h.id in called && claims[h.id] >= 0 && h.attempts == claims[h.id] + 1
    requires forall n :: n in called[h.id] ==> n <= claims[h.id]
    ensures InHand(workers[w := Worker(workers[w].queue + [h], None)], claims[h.id := h.attempts], called)
  {
    var q := workers[w].queue;
    var now := workers[w := Worker(q + [h], None)];
    var claims' := claims[h.id := h.attempts];
    forall v, j | Holds(now, v, j)
      ensures (v == w && j == |q| && Item(now, v, j) == h)
           || (Holds(workers, v, j) && Item(workers, v, j) == Item(now, v, j) && Untried(workers, v, j) == Untried(now, v, j)
               && Known(Item(now, v, j), Untried(now, v, j), claims', called) && Item(now, v, j) != h
               && (Item(now, v, j).id == h.id ==> Item(now, v, j).attempts != h.attempts))
    {
      if !(v == w && j == |q|) {
        assert Holds(workers, v, j);
      }
    }
    forall v, i, u, j | SameClaim(now, v, i, u, j) ensures v == u && i == j {
      if Holds(workers, v, i) && Holds(workers, u, j) && !(v == w && i == |q|) && !(u == w && j == |q|) {
        assert SameClaim(workers, v, i, u, j);
      }
    }
  }

  lemma ClaimOneInv(c: Config, s: State, w: int, id: ID)
    requires Inv(c, s) && w in s.workers && s.workers[w].outcome.None?
    ensures Inv(c, ClaimOne(c, s, w, id))
    ensures w in ClaimOne(c, s, w, id).workers && ClaimOne(c, s, w, id).workers[w].outcome.None?
  {
    hide InHand;
    var t := ClaimOne(c, s, w, id);
    if t != s {
      HandOut(s.workers, s.claims, s.called, w, Held(id, s.nextToken, s.claims[id] + 1));
    }
  }

  lemma {:induction false} ClaimAllInv(c: Config, s: State, w: int, ids: seq<ID>)
    requires Inv(c, s) && w in s.workers && s.workers[w].outcome.None?
    ensures Inv(c, ClaimAll(c, s, w, ids))
    decreases |ids|
  {
    hide Inv, ClaimOne;
    if ids != [] {
      ClaimOneInv(c, s, w, ids[0]);
      ClaimAllInv(c, ClaimOne(c, s, w, ids[0]), w, ids[1..]);
    }
  }

  /** Emptying a worker's hands, or starting with empty ones. */
  lemma Drops(workers: map<int, Worker>, claims: map<ID, int>, called: map<ID, set<int>>, w: int)
    requires InHand(workers, claims, called)
    ensures InHand(workers[w := Worker([], None)], claims, called)
    ensures InHand(workers - {w}, claims, called)
  {
    var now, gone := workers[w := Worker([], None)], workers - {w};
    forall v, j | Holds(now, v, j)
      ensures v != w && Holds(workers, v, j) && Item(now, v, j) == Item(workers, v, j)
              && Untried(now, v, j) == Untried(workers, v, j)
    {
    }
    forall v, j | Holds(gone, v, j)
      ensures v != w && Holds(workers, v, j) && Item(gone, v, j) == Item(workers, v, j)
              && Untried(gone, v, j) == Untried(workers, v, j)
    {
    }
    forall v, i, u, j | SameClaim(now, v, i, u, j) ensures SameClaim(workers, v, i, u, j) {
    }
    forall v, i, u, j | SameClaim(gone, v, i, u, j) ensures SameClaim(workers, v, i, u, j) {
    }
  }

  /** Removing the first job from a worker's hands. */
  lemma Pops(workers: map<int, Worker>, claims: map<ID, int>, called: map<ID, set<int>>, w: int)
    requires InHand(workers, claims, called) && w in workers && workers[w].queue != []
    ensures InHand(workers[w := Worker(workers[w].queue[1..], None)], claims, called)
  {
    var now := workers[w := Worker(workers[w].queue[1..], None)];
    forall v, j | Holds(now, v, j)
      ensures var i := if v == w then j + 1 else j;
              Holds(workers, v, i) && Item(now, v, j) == Item(workers, v, i) && (v == w ==> Untried(workers, v, i))
              && (v != w ==> Untried(now, v, j) == Untried(workers, v, i))
    {
    }
    forall v, j | Holds(now, v, j) ensures Known(Item(now, v, j), Untried(now, v, j), claims, called) {
      assert Holds(workers, v, if v == w then j + 1 else j);
    }
    forall v, i, u, j | SameClaim(now, v, i, u, j) ensures v == u && i == j {
      assert SameClaim(workers, v, if v == w then i + 1 else i, u, if u == w then j + 1 else j);
    }
  }

  /** Attempting the first job marks its claim as called, and no other claim in hand. */
  lemma Tries(workers: map<int, Worker>, claims: map<ID, int>, called: map<ID, set<int>>, w: int, outcome: bool, reached: bool)
    requires InHand(workers, claims, called) && w in workers && workers[w].queue != []
    requires workers[w].queue[0].id in called
    ensures var h := workers[w].queue[0];
            InHand(workers[w := Worker(workers[w].queue, Some(outcome))], claims,
                   if reached then called[h.id := called[h.id] + {h.attempts}] else called)
  {
    var h := workers[w].queue[0];
    var now := workers[w := Worker(workers[w].queue, Some(outcome))];
    var called' := if reached then called[h.id := called[h.id] + {h.attempts}] else called;
    assert Holds(workers, w, 0) && Item(workers, w, 0) == h;
    forall v, j | Holds(now, v, j) ensures Known(Item(now, v, j), Untried(now, v, j), claims, called') {
      assert Holds(workers, v, j) && Item(workers, v, j) == Item(now, v, j);
      if v != w || j != 0 {
        assert !SameClaim(workers, v, j, w, 0);
      }
    }
    forall v, i, u, j | SameClaim(now, v, i, u, j) ensures SameClaim(workers, v, i, u, j) {
    }
  }

  lemma AttemptInv(c: Config, s: State, w: int, decrypts: bool, accepts: bool)
    requires Inv(c, s) && Ready(c, s, w)
    ensures Inv(c, Attempted(s, w, decrypts, accepts))
  {
    hide InHand;
    var h := s.workers[w].queue[0];
    HeadKnown(s, w);
    Tries(s.workers, s.claims, s.called, w, decrypts && accepts, decrypts);
    assert |s.called[h.id] + {h.attempts}| == |s.called[h.id]| + 1;
  }

  lemma HeadKnown(s: State, w: int)
    requires InHand(s.workers, s.claims, s.called) && w in s.workers && s.workers[w].queue != []
    ensures var h := s.workers[w].queue[0];
            && h.id in s.claims && h.id in s.called && 1 <= h.attempts <= s.claims[h.id]
            && (s.workers[w].outcome.None? ==> h.attempts !in s.called[h.id])
  {
    assert Holds(s.workers, w, 0);
  }

  lemma DisposeInv(c: Config, s: State, w: int, available: int, stores: bool)
    requires Inv(c, s) && Settling(c, s, w)
    ensures Inv(c, Next(c, s, Dispose(w, available, stores)))
  {
    hide InHand;
    HeadKnown(s, w);
    Pops(s.workers, s.claims, s.called, w);
  }

  lemma EnqueueInHand(s: State, id: ID)
    requires InHand(s.workers, s.claims, s.called) && id !in s.claims
    ensures InHand(s.workers, s.claims[id := 0], s.called[id := {}])
  {
    forall w, i | Holds(s.workers, w, i)
      ensures Known(Item(s.workers, w, i), Untried(s.workers, w, i), s.claims[id := 0], s.called[id := {}])
    {
    }
  }

  lemma StepInv(c: Config, s: State, a: Action)
    requires Inv(c, s)
    ensures Inv(c, Next(c, s, a))
  {
    hide InHand, ClaimAll, Attempted, Popped, Settle;
    match a
    case Enqueue(id) => if id !in s.claims { EnqueueInHand(s, id); }
    case Claim(w, ids) =>
      if !((w in s.workers && s.workers[w].queue != []) || |ids| > c.batch) {
        Drops(s.workers, s.claims, s.called, w);
        ClaimAllInv(c, s.(workers := s.workers[w := Worker([], None)]), w, ids);
      }
    case Attempt(w, decrypts, accepts) => if Ready(c, s, w) { AttemptInv(c, s, w, decrypts, accepts); }
    case Dispose(w, available, stores) => if Settling(c, s, w) { DisposeInv(c, s, w, available, stores); }
    case Crash(w) => Drops(s.workers, s.claims, s.called, w);
    case Tick(seconds) =>
  }

  lemma {:induction false} RunInv(c: Config, s: State, trace: seq<Action>)
    requires Inv(c, s)
    ensures Inv(c, Run(c, s, trace))
    decreases |trace|
  {
    hide Inv, Next;
    if trace != [] {
      StepInv(c, s, trace[0]);
      RunInv(c, Next(c, s, trace[0]), trace[1..]);
    }
  }

  function UpTo(n: int): (s: set<int>)
    ensures n >= 0 ==> |s| == n
    ensures forall k :: k in s <==> 1 <= k <= n
  {
    if n <= 0 then {} else UpTo(n - 1) + {n}
  }

  lemma {:induction false} SubsetSize<T>(a: set<T>, b: set<T>)
    requires a <= b
    ensures |a| <= |b|
    decreases |a|
  {
    if a != {} {
      var x :| x in a;
      SubsetSize(a - {x}, b - {x});
    }
  }

  lemma UpToCount(xs: set<int>, n: int)
    requires n >= 0 && forall x :: x in xs ==> 1 <= x <= n
    ensures |xs| <= n
  {
    SubsetSize(xs, UpTo(n));
  }

  /** Whatever crashes, lease expiries and races a run has: no job gets more than
      max provider calls, none is completed that the provider did not accept, and
      none is dead-lettered before it was claimed max times. */
  lemma ReachableStatesAreSafe(c: Config, now: int, trace: seq<Action>, id: ID)
    requires c.Valid()
    ensures var s := Run(c, Initial(now), trace);
            && (id in s.calls ==> s.calls[id] <= c.max)
            && (id in s.completed ==> id in s.accepted)
            && (id in s.jobs && s.jobs[id].status == Dead ==> id in s.claims && s.claims[id] >= c.max)
  {
    hide Run, Next;
    RunInv(c, Initial(now), trace);
    var s := Run(c, Initial(now), trace);
    if id in s.calls { UpToCount(s.called[id], c.max); }
  }

  // ---------- fencing ----------

  /** Tokens are handed out once, and a stored token was handed out. */
  ghost predicate Fenced(s: State) {
    && (forall id :: id in s.jobs && s.jobs[id].status == Processing ==> s.jobs[id].token < s.nextToken)
    && (forall w, i :: Holds(s.workers, w, i) ==> Item(s.workers, w, i).token < s.nextToken)
  }

  lemma FencedOne(c: Config, s: State, w: int, id: ID)
    requires Fenced(s) && w in s.workers
    ensures Fenced(ClaimOne(c, s, w, id)) && ClaimOne(c, s, w, id).nextToken >= s.nextToken
  {
    var t := ClaimOne(c, s, w, id);
    if t != s {
      forall v, j | Holds(t.workers, v, j) ensures Item(t.workers, v, j).token < t.nextToken {
        if !(v == w && j == |s.workers[w].queue|) { assert Holds(s.workers, v, j); }
      }
    }
  }

  lemma {:induction false} FencedAll(c: Config, s: State, w: int, ids: seq<ID>)
    requires Fenced(s) && w in s.workers
    ensures Fenced(ClaimAll(c, s, w, ids))
    decreases |ids|
  {
    hide Fenced;
    if ids != [] {
      FencedOne(c, s, w, ids[0]);
      FencedAll(c, ClaimOne(c, s, w, ids[0]), w, ids[1..]);
    }
  }

  lemma FencedStep(c: Config, s: State, a: Action)
    requires Fenced(s)
    ensures Fenced(Next(c, s, a))
  {
    hide ClaimAll, Fenced, Settle;
    match a
    case Enqueue(id) => assert Fenced(Next(c, s, a)) by { FencedEnqueue(c, s, id); }
    case Claim(w, ids) =>
      if Next(c, s, a) != s {
        FencedQueue(s, w, Worker([], None));
        FencedAll(c, s.(workers := s.workers[w := Worker([], None)]), w, ids);
      }
    case Attempt(w, decrypts, accepts) => if Ready(c, s, w) { FencedAttempt(s, w, decrypts, accepts); }
    case Dispose(w, available, stores) =>
      if Settling(c, s, w) {
        var h := s.workers[w].queue[0];
        FencedSettle(s, h, Disposed(c, h, s.workers[w].outcome), available);
        FencedQueue(if stores then Settle(s, h, Disposed(c, h, s.workers[w].outcome), available) else s, w,
                    Worker(s.workers[w].queue[1..], None));
      }
    case Crash(w) => FencedCrash(s, w);
    case Tick(seconds) => FencedTick(s, seconds);
  }

  lemma FencedEnqueue(c: Config, s: State, id: ID)
    requires Fenced(s)
    ensures Fenced(Next(c, s, Enqueue(id)))
  {
  }

  lemma FencedQueue(s: State, w: int, worker: Worker)
    requires Fenced(s)
    requires forall j :: 0 <= j < |worker.queue| ==> w in s.workers && worker.queue[j] in s.workers[w].queue
    ensures Fenced(s.(workers := s.workers[w := worker]))
  {
    var t := s.(workers := s.workers[w := worker]);
    forall v, j | Holds(t.workers, v, j) ensures Item(t.workers, v, j).token < t.nextToken {
      if v == w {
        assert w in s.workers && worker.queue[j] in s.workers[w].queue;
        var i :| 0 <= i < |s.workers[w].queue| && s.workers[w].queue[i] == worker.queue[j];
        assert Holds(s.workers, w, i);
      } else {
        assert Holds(s.workers, v, j);
      }
    }
  }

  lemma FencedAttempt(s: State, w: int, decrypts: bool, accepts: bool)
    requires Fenced(s) && w in s.workers && s.workers[w].queue != []
    ensures Fenced(Attempted(s, w, decrypts, accepts))
  {
    var t := Attempted(s, w, decrypts, accepts);
    forall v, j | Holds(t.workers, v, j) ensures Item(t.workers, v, j).token < t.nextToken {
      assert Holds(s.workers, v, j);
    }
  }

  lemma FencedSettle(s: State, h: Held, d: Disposition, available: int)
    requires Fenced(s)
    ensures Fenced(Settle(s, h, d, available)) && Settle(s, h, d, available).workers == s.workers
  {
  }

  lemma FencedCrash(s: State, w: int)
    requires Fenced(s)
    ensures Fenced(s.(workers := s.workers - {w}))
  {
    forall v, j | Holds(s.workers - {w}, v, j) ensures Item(s.workers - {w}, v, j).token < s.nextToken {
      assert Holds(s.workers, v, j);
    }
  }

  lemma FencedTick(s: State, seconds: int)
    requires Fenced(s)
    ensures Fenced(s.(now := s.now + seconds))
  {
  }

  lemma {:induction false} FencedRun(c: Config, s: State, trace: seq<Action>)
    requires Fenced(s)
    ensures Fenced(Run(c, s, trace))
    decreases |trace|
  {
    hide Fenced, Next;
    if trace != [] {
      FencedStep(c, s, trace[0]);
      FencedRun(c, Next(c, s, trace[0]), trace[1..]);
    }
  }

  /** In every reachable state all tokens, stored or in a worker's hands, were handed out. */
  lemma ReachableStatesAreFenced(c: Config, now: int, trace: seq<Action>)
    ensures Fenced(Run(c, Initial(now), trace))
  {
    hide Run;
    FencedRun(c, Initial(now), trace);
  }

  /** A handed-out claim that does not own its job. */
  predicate Lost(s: State, h: Held) { h.token < s.nextToken && !Owns(s.jobs, h) }

  lemma {:induction false} LostAll(c: Config, s: State, w: int, ids: seq<ID>, h: Held)
    requires w in s.workers && h.token < s.nextToken
    requires !Owns(s.jobs, h) || (h.id in ids && h.id in s.claims && Claimable(s.jobs[h.id], s.now))
    ensures Lost(ClaimAll(c, s, w, ids), h)
    decreases |ids|
  {
    if ids != [] { LostAll(c, ClaimOne(c, s, w, ids[0]), w, ids[1..], h); }
  }

  lemma LostStep(c: Config, s: State, a: Action, h: Held)
    requires Lost(s, h)
    ensures Lost(Next(c, s, a), h)
  {
    hide ClaimAll;
    match a
    case Claim(w, ids) =>
      if Next(c, s, a) != s { LostAll(c, s.(workers := s.workers[w := Worker([], None)]), w, ids, h); }
    case _ =>
  }

  /** A claim once lost is never regained. */
  lemma {:induction false} LostClaimsStayLost(c: Config, s: State, trace: seq<Action>, h: Held)
    requires Lost(s, h)
    ensures Lost(Run(c, s, trace), h)
    decreases |trace|
  {
    hide Lost, Next;
    if trace != [] {
      LostStep(c, s, trace[0], h);
      LostClaimsStayLost(c, Next(c, s, trace[0]), trace[1..], h);
    }
  }

  /** Disposing of the claim h, whoever holds it, changes neither job nor outcome. */
  ghost predicate Powerless(c: Config, s: State, h: Held) {
    forall w, available, stores :: Settling(c, s, w) && s.workers[w].queue[0] == h ==>
      var t := Next(c, s, Dispose(w, available, stores));
      t.jobs == s.jobs && t.completed == s.completed
  }

  lemma LostIsPowerless(c: Config, s: State, h: Held)
    requires Lost(s, h)
    ensures Powerless(c, s, h)
  {
    forall w, available, stores | Settling(c, s, w) && s.workers[w].queue[0] == h
      ensures var t := Next(c, s, Dispose(w, available, stores)); t.jobs == s.jobs && t.completed == s.completed
    {
      assert Settle(s, h, Disposed(c, h, s.workers[w].outcome), available) == s;
    }
  }

  /** In every run: a claim in some worker's hands whose job is meanwhile completed,
      dead, queued again or claimed under another token changes nothing from then on. */
  lemma LostClaimChangesNothing(c: Config, now: int, before: seq<Action>, w: int, i: int, after: seq<Action>)
    requires Holds(Run(c, Initial(now), before).workers, w, i)
    requires var s := Run(c, Initial(now), before);
             var h := Item(s.workers, w, i);
             h.id !in s.jobs || s.jobs[h.id].status != Processing || s.jobs[h.id].token != h.token
    ensures var s := Run(c, Initial(now), before);
            Powerless(c, Run(c, s, after), Item(s.workers, w, i))
  {
    hide Run, Powerless;
    var s := Run(c, Initial(now), before);
    ReachableStatesAreFenced(c, now, before);
    LostClaimsStayLost(c, s, after, Item(s.workers, w, i));
    LostIsPowerless(c, Run(c, s, after), Item(s.workers, w, i));
  }

  /** In every run: once a job is claimed again, every earlier claim of it is
      powerless from then on. */
  lemma ReclaimFencesOlderClaims(c: Config, now: int, before: seq<Action>, w: int, i: int, v: int, ids: seq<ID>, after: seq<Action>)
    requires Holds(Run(c, Initial(now), before).workers, w, i)
    requires var s := Run(c, Initial(now), before);
             var h := Item(s.workers, w, i);
             && h.id in ids && h.id in s.jobs && Claimable(s.jobs[h.id], s.now)
             && |ids| <= c.batch && (v in s.workers ==> s.workers[v].queue == [])
    requires c.Valid()
    ensures var s := Run(c, Initial(now), before);
            Powerless(c, Run(c, Next(c, s, Claim(v, ids)), after), Item(s.workers, w, i))
  {
    hide Run, Powerless, ClaimAll, Inv;
    var s := Run(c, Initial(now), before);
    var h := Item(s.workers, w, i);
    ReachableStatesAreFenced(c, now, before);
    assert Inv(c, Initial(now)) by { InitialInv(c, now); }
    RunInv(c, Initial(now), before);
    JobsAreClaimed(c, s, h.id);
    LostAll(c, s.(workers := s.workers[v := Worker([], None)]), v, ids, h);
    LostClaimsStayLost(c, Next(c, s, Claim(v, ids)), after, h);
    LostIsPowerless(c, Run(c, Next(c, s, Claim(v, ids)), after), h);
  }

  lemma InitialInv(c: Config, now: int)
    ensures Inv(c, Initial(now))
  {
  }

  lemma JobsAreClaimed(c: Config, s: State, id: ID)
    requires Inv(c, s) && id in s.jobs
    ensures id in s.claims
  {
  }

  // ---------- when a job may be taken, and what becomes of it ----------

  /** A job that waits for its time, or that somebody holds on a lease still running. */
  predicate NotToBeTaken(s: State, id: ID) {
    id in s.jobs &&
    match s.jobs[id].status
    case Pending => s.now < s.jobs[id].available
    case Processing => s.now < s.jobs[id].lease
    case Dead => true
  }

  lemma {:induction false} ClaimingSpares(c: Config, s: State, w: int, ids: seq<ID>, id: ID)
    requires w in s.workers && NotToBeTaken(s, id)
    ensures var t := ClaimAll(c, s, w, ids); NotToBeTaken(t, id) && t.jobs[id] == s.jobs[id]
    decreases |ids|
  {
    if ids != [] { ClaimingSpares(c, ClaimOne(c, s, w, ids[0]), w, ids[1..], id); }
  }

  /** Such a job is changed by no step but the disposal by the worker whose claim it is. */
  lemma NobodyTakesIt(c: Config, s: State, a: Action, id: ID)
    requires Inv(c, s) && NotToBeTaken(s, id)
    requires a.Dispose? && a.w in s.workers && s.workers[a.w].queue != [] && s.workers[a.w].queue[0].id == id ==>
               s.jobs[id].status != Processing || s.workers[a.w].queue[0].token != s.jobs[id].token
    ensures id in Next(c, s, a).jobs && Next(c, s, a).jobs[id] == s.jobs[id]
  {
    hide ClaimAll, InHand, Honest;
    match a
    case Claim(w, ids) =>
      if Next(c, s, a) != s { ClaimingSpares(c, s.(workers := s.workers[w := Worker([], None)]), w, ids, id); }
    case _ =>
  }

  /** The claim h of worker w stands in its queue and owns its job until the lease ends. */
  ghost predicate Taken(c: Config, s: State, w: int, h: Held) {
    && w in s.workers && h in s.workers[w].queue
    && h.id in s.jobs && s.jobs[h.id].status == Processing && s.jobs[h.id].token == h.token
    && s.jobs[h.id].lease == s.now + c.lease && s.jobs[h.id].attempts == h.attempts
  }

  lemma {:induction false} ClaimingKeepsTaken(c: Config, s: State, w: int, ids: seq<ID>, h: Held)
    requires Taken(c, s, w, h) && c.lease > 0
    ensures Taken(c, ClaimAll(c, s, w, ids), w, h)
    decreases |ids|
  {
    if ids != [] { ClaimingKeepsTaken(c, ClaimOne(c, s, w, ids[0]), w, ids[1..], h); }
  }

  lemma {:induction false} ClaimingTakes(c: Config, s: State, w: int, ids: seq<ID>, id: ID)
    requires w in s.workers && c.lease > 0 && id in ids && id in s.jobs && id in s.claims && !NotToBeTaken(s, id)
    ensures exists h :: Taken(c, ClaimAll(c, s, w, ids), w, h) && h.id == id && h.attempts == s.claims[id] + 1
    decreases |ids|
  {
    var t := ClaimOne(c, s, w, ids[0]);
    if ids[0] == id {
      var h := Held(id, s.nextToken, s.claims[id] + 1);
      assert t.workers[w].queue[|s.workers[w].queue|] == h;
      ClaimingKeepsTaken(c, t, w, ids[1..], h);
    } else {
      ClaimingTakes(c, t, w, ids[1..], id);
    }
  }

  /** A worker with free hands that asks for a job that is due, or whose lease ran out,
      gets it on a lease of its own, as one more attempt; a new job is due at once. */
  lemma WhatIsDueIsTaken(c: Config, s: State, w: int, ids: seq<ID>, id: ID)
    requires c.Valid() && Inv(c, s) && id in ids && |ids| <= c.batch && (w in s.workers ==> s.workers[w].queue == [])
    ensures id in s.jobs && !NotToBeTaken(s, id) ==>
              exists h :: Taken(c, Next(c, s, Claim(w, ids)), w, h) && h.id == id && h.attempts == s.jobs[id].attempts + 1
    ensures id !in s.claims ==>
              var t := Next(c, s, Enqueue(id)); id in t.jobs && t.jobs[id].attempts == 0 && !NotToBeTaken(t, id)
  {
    hide InHand, Honest, ClaimAll, Taken;
    if id in s.jobs && !NotToBeTaken(s, id) {
      ClaimingTakes(c, s.(workers := s.workers[w := Worker([], None)]), w, ids, id);
    }
  }

  /** An attempt calls the provider once if the token can be decrypted, and not at all
      otherwise; only the call can be accepted, and no job changes. */
  lemma AttemptCallsOnce(c: Config, s: State, w: int, decrypts: bool, accepts: bool)
    requires Inv(c, s) && Ready(c, s, w)
    ensures var id := s.workers[w].queue[0].id;
            var t := Next(c, s, Attempt(w, decrypts, accepts));
            && id in s.calls && t.calls == s.calls[id := s.calls[id] + if decrypts then 1 else 0] && t.jobs == s.jobs
            && t.accepted == s.accepted + (if decrypts && accepts then {id} else {})
            && w in t.workers && t.workers[w] == Worker(s.workers[w].queue, Some(decrypts && accepts))
  {
    HeadKnown(s, w);
    assert s.called.Keys == s.claims.Keys == s.calls.Keys;
    hide Inv, Recorded, Counted, InHand, Honest;
  }

  /** What the disposal of a job by its own claim comes to: gone and completed if the
      provider accepted it in time, dead once its attempts are used up, and otherwise
      queued again for the time that was chosen. */
  lemma OwnClaimDecides(c: Config, s: State, w: int, available: int)
    requires Settling(c, s, w)
    requires var h := s.workers[w].queue[0];
             h.id in s.jobs && s.jobs[h.id].status == Processing && s.jobs[h.id].token == h.token
    ensures var h := s.workers[w].queue[0];
            var t := Next(c, s, Dispose(w, available, true));
            if h.attempts <= c.max && s.workers[w].outcome == Some(true) then
              h.id !in t.jobs && t.completed == s.completed + {h.id}
            else
              && h.id in t.jobs && t.completed == s.completed
              && (if h.attempts >= c.max then t.jobs[h.id].status == Dead
                  else t.jobs[h.id].status == Pending && t.jobs[h.id].available == available)
              && t.jobs[h.id].attempts == s.jobs[h.id].attempts && t.jobs[h.id].lease == 0 && t.jobs[h.id].token == 0
  {
  }

  /** A job with attempts left is not disposed of before it was tried. */
  lemma NothingIsDisposedUntried(c: Config, s: State, w: int, available: int, stores: bool)
    requires w in s.workers && s.workers[w].queue != [] && s.workers[w].outcome == None
    requires s.workers[w].queue[0].attempts <= c.max
    ensures Next(c, s, Dispose(w, available, stores)) == s
  {
  }

  // ---------- what lasts ----------

  /** Terminal states, completions and provider calls are for good. */
  ghost predicate Lasts(s: State, t: State) {
    && s.completed <= t.completed
    && (forall id :: id in s.claims && id !in s.jobs ==> id in t.claims && id !in t.jobs)
    && (forall id :: id in s.jobs && s.jobs[id].status == Dead ==> id in t.jobs && t.jobs[id] == s.jobs[id])
    && (forall id :: id in s.called ==> id in t.called && s.called[id] <= t.called[id])
  }

  lemma LastsOn(s: State, t: State, u: State)
    requires Lasts(s, t) && Lasts(t, u)
    ensures Lasts(s, u)
  {
  }

  lemma {:induction false} LastsClaiming(c: Config, s: State, w: int, ids: seq<ID>)
    requires w in s.workers
    ensures Lasts(s, ClaimAll(c, s, w, ids))
    decreases |ids|
  {
    if ids != [] {
      var t := ClaimOne(c, s, w, ids[0]);
      LastsClaiming(c, t, w, ids[1..]);
      LastsOn(s, t, ClaimAll(c, s, w, ids));
    }
  }

  ghost predicate Listed(s: State) { forall id :: id in s.jobs || id in s.called ==> id in s.claims }

  lemma InvLists(c: Config, s: State)
    requires Inv(c, s)
    ensures Listed(s)
  {
  }

  lemma LastsStep(c: Config, s: State, a: Action)
    requires Inv(c, s)
    ensures Lasts(s, Next(c, s, a))
  {
    InvLists(c, s);
    hide ClaimAll, Settle, Attempted, Inv, Lasts, Listed;
    StaysItself(s);
    match a
    case Enqueue(id) => LastsEnqueue(c, s, id);
    case Claim(w, ids) =>
      if Next(c, s, a) != s {
        var t := s.(workers := s.workers[w := Worker([], None)]);
        LastsClaiming(c, t, w, ids);
        LastsOf(t, s, ClaimAll(c, t, w, ids));
      }
    case Attempt(w, decrypts, accepts) => if Ready(c, s, w) { LastsAttempt(s, w, decrypts, accepts); }
    case Dispose(w, available, stores) =>
      if Settling(c, s, w) {
        var h := s.workers[w].queue[0];
        var t := if stores then Settle(s, h, Disposed(c, h, s.workers[w].outcome), available) else s;
        LastsSettling(s, h, Disposed(c, h, s.workers[w].outcome), available);
        SettleKeepsWorkers(s, h, Disposed(c, h, s.workers[w].outcome), available);
        LastsTo(s, t, Popped(t, w));
      }
    case Crash(w) => LastsTo(s, s, Next(c, s, a));
    case Tick(seconds) => LastsTo(s, s, Next(c, s, a));
  }

  /** The same in all that lasts. */
  predicate Alike(s: State, t: State) {
    s.jobs == t.jobs && s.claims == t.claims && s.called == t.called && s.completed == t.completed
  }

  lemma LastsTo(s: State, t: State, u: State)
    requires Lasts(s, t) && Alike(t, u)
    ensures Lasts(s, u)
  {
  }

  lemma LastsOf(t: State, s: State, u: State)
    requires Lasts(t, u) && Alike(t, s)
    ensures Lasts(s, u)
  {
  }

  lemma LastsEnqueue(c: Config, s: State, id: ID)
    requires Listed(s)
    ensures Lasts(s, Next(c, s, Enqueue(id)))
  {
  }

  lemma LastsAttempt(s: State, w: int, decrypts: bool, accepts: bool)
    requires w in s.workers && s.workers[w].queue != []
    ensures Lasts(s, Attempted(s, w, decrypts, accepts))
  {
  }

  lemma SettleKeepsWorkers(s: State, h: Held, d: Disposition, available: int)
    ensures Settle(s, h, d, available).workers == s.workers
  {
  }

  lemma LastsSettling(s: State, h: Held, d: Disposition, available: int)
    ensures Lasts(s, Settle(s, h, d, available))
  {
  }

  lemma {:induction false} RunLasts(c: Config, s: State, trace: seq<Action>)
    requires Inv(c, s)
    ensures Lasts(s, Run(c, s, trace))
    decreases |trace|
  {
    hide Inv, Next, Lasts;
    if trace == [] {
      assert Lasts(s, s) by { StaysItself(s); }
    } else {
      StepInv(c, s, trace[0]);
      LastsStep(c, s, trace[0]);
      RunLasts(c, Next(c, s, trace[0]), trace[1..]);
      LastsOn(s, Next(c, s, trace[0]), Run(c, s, trace));
    }
  }

  lemma StaysItself(s: State)
    ensures Lasts(s, s)
  {
  }

  /** A completed job is no longer stored. */
  ghost predicate Gone(s: State) { forall id :: id in s.completed ==> id in s.claims && id !in s.jobs }

  lemma GoneStep(c: Config, s: State, a: Action)
    requires Inv(c, s) && Gone(s)
    ensures Gone(Next(c, s, a))
  {
    hide ClaimAll, InHand, Honest;
    LastsStep(c, s, a);
    match a
    case Claim(w, ids) => if Next(c, s, a) != s { ClaimingCompletesNothing(c, s.(workers := s.workers[w := Worker([], None)]), w, ids); }
    case _ =>
  }

  lemma {:induction false} ClaimingCompletesNothing(c: Config, s: State, w: int, ids: seq<ID>)
    requires w in s.workers
    ensures ClaimAll(c, s, w, ids).completed == s.completed
    decreases |ids|
  {
    if ids != [] { ClaimingCompletesNothing(c, ClaimOne(c, s, w, ids[0]), w, ids[1..]); }
  }

  lemma {:induction false} RunGone(c: Config, s: State, trace: seq<Action>)
    requires Inv(c, s) && Gone(s)
    ensures Gone(Run(c, s, trace))
    decreases |trace|
  {
    hide Inv, Next, Gone;
    if trace != [] {
      StepInv(c, s, trace[0]);
      GoneStep(c, s, trace[0]);
      RunGone(c, Next(c, s, trace[0]), trace[1..]);
    }
  }

  /** In every run a dead-lettered job is kept as it is, and a completed one never
      comes back. */
  lemma TerminalIsForGood(c: Config, now: int, before: seq<Action>, after: seq<Action>, id: ID)
    requires c.Valid()
    ensures var s := Run(c, Initial(now), before);
            var t := Run(c, s, after);
            && (id in s.jobs && s.jobs[id].status == Dead ==> id in t.jobs && t.jobs[id] == s.jobs[id])
            && (id in s.completed ==> id in t.completed && id !in t.jobs)
  {
    hide Run, Inv;
    var s := Run(c, Initial(now), before);
    InitialInv(c, now);
    RunInv(c, Initial(now), before);
    RunGone(c, Initial(now), before);
    RunLasts(c, s, after);
  }

  // ---------- the worker ----------

  predicate Acts(a: Action, w: int) {
    (a.Claim? || a.Attempt? || a.Dispose? || a.Crash?) && a.w == w
  }

  lemma {:induction false} ClaimingKeepsOthers(c: Config, s: State, w: int, ids: seq<ID>, v: int)
    requires w in s.workers && v in s.workers && v != w
    ensures var t := ClaimAll(c, s, w, ids); v in t.workers && t.workers[v] == s.workers[v]
    decreases |ids|
  {
    if ids != [] { ClaimingKeepsOthers(c, ClaimOne(c, s, w, ids[0]), w, ids[1..], v); }
  }

  /** A step of anybody else leaves a worker where it is. */
  lemma OthersKeep(c: Config, s: State, a: Action, w: int)
    requires w in s.workers && !Acts(a, w)
    ensures w in Next(c, s, a).workers && Next(c, s, a).workers[w] == s.workers[w]
  {
    hide ClaimAll;
    if a.Claim? && !((a.w in s.workers && s.workers[a.w].queue != []) || |a.ids| > c.batch) {
      ClaimingKeepsOthers(c, s.(workers := s.workers[a.w := Worker([], None)]), a.w, a.ids, w);
    }
  }

  lemma Tried(c: Config, s: State, w: int, decrypts: bool, accepts: bool)
    requires Inv(c, s) && Ready(c, s, w)
    ensures var t := Next(c, s, Attempt(w, decrypts, accepts));
            var h := s.workers[w].queue[0];
            && w in t.workers && t.workers[w] == Worker(s.workers[w].queue, Some(decrypts && accepts))
            && (decrypts ==> h.id in t.called && h.attempts in t.called[h.id])
  {
    HeadKnown(s, w);
  }

  /** A retry is due after a doubling number of minutes, give or take a fifth, and
      within a day. */
  ghost predicate DelayedFrom(now: int, at: int, attempts: int) {
    var base := Backoff.Min(Backoff.DAY, Backoff.MINUTE * Backoff.Pow2((if attempts < 1 then 1 else attempts) - 1)) as real;
    && now <= at <= now + Backoff.DAY
    && 0.8 * base - 1.0 < (at - now) as real <= 1.2 * base
  }

  /** LeaseLost stands for any error of the store. */
  datatype Report = Settled | DeadLettered | LeaseLost

  /** What a report about one claimed job says, then and ever after: the provider was
      called if the token could be decrypted and attempts were left, success completed
      the job, and a dead letter had used up its attempts. */
  ghost predicate Truthful(c: Config, s: State, h: Held, decrypts: bool, accepts: bool, answers: bool, report: Report) {
    && (h.attempts <= c.max && decrypts ==> h.id in s.called && h.attempts in s.called[h.id])
    && (report == DeadLettered ==> h.attempts >= c.max && h.id in s.jobs && s.jobs[h.id].status == Dead)
    && (report == Settled ==> if decrypts && accepts then h.attempts <= c.max && h.id in s.completed else h.attempts < c.max)
    && (!answers ==> report == LeaseLost)
  }

  /** What the worker reports about the job it disposes of. The store may take the
      call and yet not say so. */
  function ReportOf(c: Config, s: State, h: Held, outcome: Option<bool>, answers: bool): Report {
    if !answers || !Owns(s.jobs, h) then LeaseLost else if Disposed(c, h, outcome) == DeadLetter then DeadLettered else Settled
  }

  lemma ReportIsTruthful(c: Config, s: State, w: int, available: int, decrypts: bool, accepts: bool, stores: bool, answers: bool)
    requires Settling(c, s, w) && (answers ==> stores)
    requires var h := s.workers[w].queue[0];
             h.attempts <= c.max ==>
               && s.workers[w].outcome == Some(decrypts && accepts)
               && (decrypts ==> h.id in s.called && h.attempts in s.called[h.id])
    ensures var h := s.workers[w].queue[0];
            var t := Next(c, s, Dispose(w, available, stores));
            && w in t.workers && t.workers[w] == Worker(s.workers[w].queue[1..], None)
            && Truthful(c, t, h, decrypts, accepts, answers, ReportOf(c, s, h, s.workers[w].outcome, answers))
  {
  }

  lemma DeadLetterIsDead(c: Config, s: State, h: Held, decrypts: bool, accepts: bool, answers: bool, report: Report)
    requires Truthful(c, s, h, decrypts, accepts, answers, report)
    ensures report == DeadLettered ==> h.id in s.jobs && s.jobs[h.id].status == Dead && h.attempts >= c.max
  {
  }

  lemma CalledStays(s: State, t: State, h: Held)
    requires Lasts(s, t)
    ensures h.id in s.called && h.attempts in s.called[h.id] ==> h.id in t.called && h.attempts in t.called[h.id]
  {
  }

  lemma TruthLasts(c: Config, s: State, t: State, h: Held, decrypts: bool, accepts: bool, answers: bool, report: Report)
    requires Truthful(c, s, h, decrypts, accepts, answers, report) && Lasts(s, t)
    ensures Truthful(c, t, h, decrypts, accepts, answers, report)
  {
  }

  method RetryAt(now: int, attempts: int, random: real) returns (at: int)
    ensures DelayedFrom(now, at, attempts)
  {
    var delay := Backoff.RevocationRetryDelay(attempts, random);
    at := now + delay;
  }

  class RevocationWorker {
    const c: Config
    const w: int
    var s: State
    /** What other workers, operators and the clock do between two steps. */
    var script: seq<seq<Action>>

    constructor (c: Config, w: int, s: State, script: seq<seq<Action>>)
      requires c.Valid() && Inv(c, s)
      ensures this.c == c && this.w == w && this.s == s && this.script == script && Valid()
    {
      this.c, this.w, this.s, this.script := c, w, s, script;
    }

    ghost predicate Valid() reads this { c.Valid() && Inv(c, s) }

    method Others()
      requires Valid() && w in s.workers
      modifies this
      ensures Valid() && w in s.workers && s.workers[w] == old(s).workers[w] && Lasts(old(s), s)
      ensures old(script) == [] ==> s == old(s) && script == []
    {
      hide Inv, Next, Lasts;
      StaysItself(s);
      if script == [] { return; }
      var actions := script[0];
      script := script[1..];
      for i := 0 to |actions|
        invariant Valid() && w in s.workers && s.workers[w] == old(s).workers[w] && Lasts(old(s), s)
      {
        if !Acts(actions[i], w) {
          OthersKeep(c, s, actions[i], w);
          StepInv(c, s, actions[i]);
          LastsStep(c, s, actions[i]);
          LastsOn(old(s), s, Next(c, s, actions[i]));
          s := Next(c, s, actions[i]);
        }
      }
    }

    method Step(a: Action)
      requires Valid()
      modifies this`s
      ensures Valid() && s == Next(c, old(s), a) && Lasts(old(s), s)
    {
      hide Inv, Next, Lasts;
      StepInv(c, s, a);
      LastsStep(c, s, a);
      s := Next(c, s, a);
    }

    /** One job: fenced off once its attempts are used up, otherwise tried once and
        completed, retried after a growing delay, or dead-lettered. stores says whether
        the last store call takes effect, answers whether it then reports success. */
    method Process(decrypts: bool, accepts: bool, stores: bool, answers: bool, random: real) returns (report: Report, ghost before: State, at: int)
      requires Valid() && w in s.workers && s.workers[w].queue != [] && s.workers[w].outcome.None?
      modifies this
      ensures Valid() && w in s.workers && s.workers[w] == Worker(old(s).workers[w].queue[1..], None)
      ensures s == Next(c, before, Dispose(w, at, stores)) && Settling(c, before, w)
      ensures var h := old(s).workers[w].queue[0];
              && before.workers[w].queue[0] == h
              && (h.attempts > c.max ==> before == old(s))
              && (h.attempts <= c.max ==> before.workers[w].outcome == Some(decrypts && accepts))
              && (report == LeaseLost <==> !stores || !answers || !Owns(before.jobs, h))
              && (report == DeadLettered ==> h.id in s.jobs && s.jobs[h.id].status == Dead && h.attempts >= c.max)
      ensures Truthful(c, s, old(s).workers[w].queue[0], decrypts, accepts, stores && answers, report) && Lasts(old(s), s)
      ensures old(s).workers[w].queue[0].attempts < c.max && !(decrypts && accepts) ==>
                DelayedFrom(before.now, at, old(s).workers[w].queue[0].attempts)
      ensures old(script) == [] && old(s).workers[w].queue[0].attempts <= c.max ==>
                before == Next(c, old(s), Attempt(w, decrypts, accepts))
    {
      hide Inv, DelayedFrom, Next, Lasts, Truthful;
      var h := s.workers[w].queue[0];
      ghost var s0 := s;
      StaysItself(s);
      at := 0;
      if h.attempts <= c.max {
        Tried(c, s, w, decrypts, accepts);
        Step(Attempt(w, decrypts, accepts));
        ghost var s1 := s;
        Others();
        LastsOn(s0, s1, s);
        CalledStays(s1, s, h);
        if !(decrypts && accepts) && h.attempts < c.max {
          at := RetryAt(s.now, h.attempts, random);
        }
      }
      before := s;
      report := ReportOf(c, s, h, s.workers[w].outcome, stores && answers);
      ReportIsTruthful(c, s, w, at, decrypts, accepts, stores, stores && answers);
      Step(Dispose(w, at, stores));
      LastsOn(s0, before, s);
      DeadLetterIsDead(c, s, h, decrypts, accepts, stores && answers, report);
    }

    /** One poll: claim a batch and process it job by job; a failing job does not
        keep the others from being processed. */
    method RunOnce(ids: seq<ID>, decrypts: ID -> bool, accepts: ID -> bool, stores: ID -> bool, answers: ID -> bool,
                   random: ID -> real)
      returns (reports: seq<Report>, ghost batch: seq<Held>)
      requires Valid() && |ids| <= c.batch && (w in s.workers ==> s.workers[w].queue == [])
      modifies this
      ensures Valid() && w in s.workers && s.workers[w] == Worker([], None) && Lasts(old(s), s)
      ensures w in Next(c, old(s), Claim(w, ids)).workers && batch == Next(c, old(s), Claim(w, ids)).workers[w].queue
      ensures |reports| == |batch| <= |ids|
      ensures forall i :: 0 <= i < |batch| ==>
                Truthful(c, s, batch[i], decrypts(batch[i].id), accepts(batch[i].id), stores(batch[i].id) && answers(batch[i].id), reports[i])
    {
      hide Inv, Lasts, Truthful;
      ClaimedBatch(c, s.(workers := s.workers[w := Worker([], None)]), w, ids);
      Step(Claim(w, ids));
      reports := [];
      batch := s.workers[w].queue;
      while s.workers[w].queue != []
        invariant Valid() && w in s.workers && s.workers[w].outcome.None? && Lasts(old(s), s)
        invariant |reports| <= |batch| && s.workers[w].queue == batch[|reports|..]
        invariant forall i :: 0 <= i < |reports| ==>
                    Truthful(c, s, batch[i], decrypts(batch[i].id), accepts(batch[i].id), stores(batch[i].id) && answers(batch[i].id), reports[i])
        decreases |s.workers[w].queue|
      {
        ghost var s1 := s;
        Others();
        ghost var s2 := s;
        var h := s.workers[w].queue[0];
        var report, before, at := Process(decrypts(h.id), accepts(h.id), stores(h.id), answers(h.id), random(h.id));
        LastsOn(s1, s2, s);
        LastsOn(old(s), s1, s);
        forall i | 0 <= i < |reports|
          ensures Truthful(c, s, batch[i], decrypts(batch[i].id), accepts(batch[i].id), stores(batch[i].id) && answers(batch[i].id), reports[i])
        {
          TruthLasts(c, s1, s, batch[i], decrypts(batch[i].id), accepts(batch[i].id), stores(batch[i].id) && answers(batch[i].id), reports[i]);
        }
        reports := reports + [report];
      }
    }
  }

  lemma {:induction false} ClaimedBatch(c: Config, s: State, w: int, ids: seq<ID>)
    requires w in s.workers && s.workers[w].outcome.None?
    ensures var t := ClaimAll(c, s, w, ids);
            w in t.workers && t.workers[w].outcome.None? && |t.workers[w].queue| <= |s.workers[w].queue| + |ids|
    decreases |ids|
  {
    if ids != [] { ClaimedBatch(c, ClaimOne(c, s, w, ids[0]), w, ids[1..]); }
  }
}
