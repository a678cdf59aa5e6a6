/** The staged deletion of one account or subject, resumed by fenced claims. */
module Deletion {
  import opened Keyset

  datatype Stage = Requested | CredentialsRevoked | PrimaryDeleted | StageVerified | StageCompleted

  function Rank(s: Stage): int {
    match s
    case Requested => 1
    case CredentialsRevoked => 2
    case PrimaryDeleted => 3
    case StageVerified => 4
    case StageCompleted => 5
  }

  // ---------- residual counters ----------

  const TWO_63 := 0x8000_0000_0000_0000
  const TWO_64 := 0x1_0000_0000_0000_0000

  /** Two's-complement addition on 64 bits. */
  function Wrap(x: int): (w: int)
    ensures -TWO_63 <= w < TWO_63
    ensures (x - w) % TWO_64 == 0
  {
    var m := x % TWO_64;
    if m < TWO_63 then m else m - TWO_64
  }

  function Sum(counters: seq<int>): int {
    if counters == [] then 0 else Sum(counters[..|counters| - 1]) + counters[|counters| - 1]
  }

  /** The residual total as the machine computes it, one wrapping addition at a time. */
  function Total(counters: seq<int>): int {
    if counters == [] then 0 else Wrap(Total(counters[..|counters| - 1]) + counters[|counters| - 1])
  }

  lemma SameResidue(a: int, b: int, x: int)
    requires (a - b) % TWO_64 == 0
    ensures ((a + x) - Wrap(b + x)) % TWO_64 == 0
  {
    assert ((b + x) - Wrap(b + x)) % TWO_64 == 0;
    assert (a + x) - Wrap(b + x) == (a - b) + ((b + x) - Wrap(b + x));
  }

  lemma {:induction false} TotalIsSumModulo(counters: seq<int>)
    ensures (Sum(counters) - Total(counters)) % TWO_64 == 0
  {
    if counters != [] {
      var n := |counters| - 1;
      TotalIsSumModulo(counters[..n]);
      SameResidue(Sum(counters[..n]), Total(counters[..n]), counters[n]);
    }
  }

  lemma {:induction false} SumBounds(counters: seq<int>, top: int)
    requires top >= 0 && forall i :: 0 <= i < |counters| ==> 0 <= counters[i] <= top
    ensures 0 <= Sum(counters) <= |counters| * top
    ensures Sum(counters) == 0 <==> forall i :: 0 <= i < |counters| ==> counters[i] == 0
  {
    if counters != [] {
      var n := |counters| - 1;
      SumBounds(counters[..n], top);
      assert forall i :: 0 <= i < n ==> counters[..n][i] == counters[i];
      assert (n + 1) * top == n * top + top;
    }
  }

  /** A zero total means exactly that the true sum is a multiple of 2^64. */
  lemma ZeroTotalExactlyWhen(counters: seq<int>)
    ensures Total(counters) == 0 <==> Sum(counters) % TWO_64 == 0
  {
    TotalIsSumModulo(counters);
    if counters == [] {
    } else {
      assert -TWO_63 <= Total(counters) < TWO_63;
    }
  }

  /** Twelve non-negative counters of 64 bits, as a verification reports them. */
  predicate Counters(residuals: seq<int>) {
    |residuals| == 12 && forall i :: 0 <= i < |residuals| ==> 0 <= residuals[i] < TWO_63
  }

  predicate NothingLeft(residuals: seq<int>) {
    forall i :: 0 <= i < |residuals| ==> residuals[i] == 0
  }

  /** Residues pass for nothing exactly when their true sum is a positive multiple
      of 2^64; counters below 2^60 cannot add up to one. */
  lemma ZeroTotalMisleadsExactlyWhen(residuals: seq<int>)
    requires Counters(residuals)
    ensures Total(residuals) == 0 && !NothingLeft(residuals) <==> Sum(residuals) > 0 && Sum(residuals) % TWO_64 == 0
    ensures (forall i :: 0 <= i < 12 ==> residuals[i] < 0x1000_0000_0000_0000) ==>
              (Total(residuals) == 0 <==> NothingLeft(residuals))
  {
    hide Total, Sum;
    ZeroTotalExactlyWhen(residuals);
    SumBounds(residuals, TWO_63);
    if forall i :: 0 <= i < 12 ==> residuals[i] < 0x1000_0000_0000_0000 {
      SumBounds(residuals, 0x0FFF_FFFF_FFFF_FFFF);
    }
  }

  const QUARTER := 0x4000_0000_0000_0000
  const HIDDEN := [QUARTER, QUARTER, QUARTER, QUARTER, 0, 0, 0, 0, 0, 0, 0, 0]

  lemma HiddenTotalsZero()
    ensures Total(HIDDEN) == 0
  {
    SumOfFour(QUARTER, HIDDEN);
    ZeroTotalExactlyWhen(HIDDEN);
  }

  lemma {:induction false} SumOfFour(q: int, c: seq<int>)
    requires |c| >= 4 && c[0] == c[1] == c[2] == c[3] == q && forall i :: 4 <= i < |c| ==> c[i] == 0
    ensures Sum(c) == 4 * q
  {
    if |c| == 4 {
      assert c[..3][..2][..1] == [q] && c[..3][..2] == [q, q] && c[..3] == [q, q, q];
      assert Sum([q]) == q by { assert [q][..0] == []; }
      assert Sum([q, q]) == 2 * q by { assert [q, q][..1] == [q]; }
      assert Sum([q, q, q]) == 3 * q by { assert [q, q, q][..2] == [q, q]; }
    } else {
      SumOfFour(q, c[..|c| - 1]);
    }
  }

  // ---------- one request and its claims ----------

  const MAX_CLAIMS := 100
  const RETRY_AFTER := 60

  /** The stored request with its claim row; no token means no current claim. */
  datatype Request = Request(stage: Stage, token: Option<int>, lease: int, attempts: int, available: int)

  /** Where one executor stands: holding a claim; running with the stage it knows,
      which may be ahead of the stored one by a verification; about to record a
      failure. */
  datatype Worker =
    | Claimed(token: int)
    | Running(token: int, stage: Stage)
    | Failing(token: int, held: bool)

  /** What happened, under which claim, and what a passed verification had reported. */
  datatype Event = Revoked(claim: int) | Deleted(claim: int) | Verified(claim: int, residuals: seq<int>) | Completed(claim: int)

  datatype State = State(now: int, request: Request, nextToken: int, workers: map<int, Worker>, log: seq<Event>)

  /** How a store call ends: done; refused by a legal hold; failed without effect;
      failed towards the caller although it took effect. */
  datatype Outcome = Fine | Hold | Error | Committed

  datatype Action =
    | Claim(w: int, lease: int)
    | Load(w: int)
    | Advance(w: int, outcome: Outcome, residuals: seq<int>)
    | Fail(w: int, outcome: Outcome, availableAt: int)
    | Crash(w: int)
    | Tick(seconds: int)

  /** The claim may be taken: not done, not exhausted, due, and not leased. */
  predicate Claimable(r: Request, now: int) {
    r.stage != StageCompleted && r.attempts < MAX_CLAIMS && r.available <= now && (r.token.None? || r.lease <= now)
  }

  /** The lease lock of every transition: the current token, and still in time. */
  predicate Leased(s: State, token: int) {
    s.request.token == Some(token) && s.request.lease > s.now
  }

  function Put(s: State, w: int, worker: Worker): State { s.(workers := s.workers[w := worker]) }

  /** A destructive or completing transition of the stored request. */
  function Moved(s: State, stage: Stage, e: Event): State {
    s.(request := s.request.(stage := stage, token := if stage == StageCompleted then None else s.request.token),
       log := s.log + [e])
  }

  /** One store call of a running executor, chosen by the stage it knows. */
  function Advanced(s: State, w: int, token: int, known: Stage, outcome: Outcome, residuals: seq<int>): State {
    if known == StageCompleted then s.(workers := s.workers - {w})
    else if known == PrimaryDeleted then
      if outcome != Fine || Total(residuals) != 0 then Put(s, w, Failing(token, false))
      else Put(s.(log := s.log + [Verified(token, residuals)]), w, Running(token, StageVerified))
    else if !Leased(s, token) || outcome == Error then Put(s, w, Failing(token, false))
    else if outcome == Hold && known != StageVerified then Put(s, w, Failing(token, true))
    else
      var next, e :=
        match known
        case Requested => CredentialsRevoked
        case CredentialsRevoked => PrimaryDeleted
        case _ => StageCompleted,
        match known
        case Requested => Revoked(token)
        case CredentialsRevoked => Deleted(token)
        case _ => Completed(token);
      var s' := Moved(s, next, e);
      if outcome == Committed then Put(s', w, Failing(token, false))
      else if next == StageCompleted then s'.(workers := s'.workers - {w})
      else Put(s', w, Running(token, next))
  }

  /** Recording a failure or a legal-hold deferral: the stage stays, the claim goes. */
  function Failed(s: State, w: int, token: int, held: bool, outcome: Outcome, availableAt: int): State {
    var gone := s.(workers := s.workers - {w});
    if !Leased(s, token) || outcome == Error || s.request.stage == StageCompleted then gone
    else
      var attempts := if held && s.request.attempts > 0 then s.request.attempts - 1 else s.request.attempts;
      gone.(request := Request(s.request.stage, None, 0, attempts, if held then availableAt else s.now + RETRY_AFTER))
  }

  function Next(s: State, a: Action): State {
    match a
    case Claim(w, lease) =>
      if w in s.workers || !Claimable(s.request, s.now) || lease <= 0 then s
      else
        Put(s.(request := s.request.(token := Some(s.nextToken), lease := s.now + lease, attempts := s.request.attempts + 1),
               nextToken := s.nextToken + 1), w, Claimed(s.nextToken))
    case Load(w) =>
      if w !in s.workers || !s.workers[w].Claimed? then s
      else if s.request.token != Some(s.workers[w].token) then s.(workers := s.workers - {w})
      else Put(s, w, Running(s.workers[w].token, s.request.stage))
    case Advance(w, outcome, residuals) =>
      if w !in s.workers || !s.workers[w].Running? then s
      else Advanced(s, w, s.workers[w].token, s.workers[w].stage, outcome, residuals)
    case Fail(w, outcome, availableAt) =>
      if w !in s.workers || !s.workers[w].Failing? then s
      else Failed(s, w, s.workers[w].token, s.workers[w].held, outcome, availableAt)
    case Crash(w) => s.(workers := s.workers - {w})
    case Tick(seconds) => if seconds < 0 then s else s.(now := s.now + seconds)
  }

  function Run(s: State, trace: seq<Action>): State
    decreases |trace|
  {
    if trace == [] then s else Run(Next(s, trace[0]), trace[1..])
  }

  // ---------- the invariant ----------

  function Revocations(log: seq<Event>): int {
    if log == [] then 0 else Revocations(log[..|log| - 1]) + (if log[|log| - 1].Revoked? then 1 else 0)
  }

  function Deletions(log: seq<Event>): int {
    if log == [] then 0 else Deletions(log[..|log| - 1]) + (if log[|log| - 1].Deleted? then 1 else 0)
  }

  function Completions(log: seq<Event>): int {
    if log == [] then 0 else Completions(log[..|log| - 1]) + (if log[|log| - 1].Completed? then 1 else 0)
  }

  lemma Logs(log: seq<Event>, e: Event)
    ensures Revocations(log + [e]) == Revocations(log) + if e.Revoked? then 1 else 0
    ensures Deletions(log + [e]) == Deletions(log) + if e.Deleted? then 1 else 0
    ensures Completions(log + [e]) == Completions(log) + if e.Completed? then 1 else 0
  {
    assert (log + [e])[..|log|] == log;
  }

  /** Some deletion is logged before place i. */
  ghost predicate DeletedBefore(log: seq<Event>, i: int) {
    exists j :: 0 <= j < i && j < |log| && log[j].Deleted?
  }

  /** The claim verified with a zero total, after a deletion, at place j. */
  ghost predicate ZeroVerified(log: seq<Event>, j: int, claim: int) {
    && 0 <= j < |log| && log[j].Verified? && log[j].claim == claim
    && Total(log[j].residuals) == 0 && DeletedBefore(log, j)
  }

  ghost predicate VerifiedBefore(log: seq<Event>, i: int, claim: int) {
    exists j :: j < i && ZeroVerified(log, j, claim)
  }

  /** Every completion follows a zero verification by the same claim, which in turn
      follows the primary deletion. */
  ghost predicate Ordered(log: seq<Event>) {
    forall i :: 0 <= i < |log| && log[i].Completed? ==> VerifiedBefore(log, i, log[i].claim)
  }

  /** The stored stage says exactly which destructive steps were ever taken. */
  ghost predicate Matches(stage: Stage, log: seq<Event>) {
    && stage != StageVerified
    && Revocations(log) == (if Rank(stage) >= 2 then 1 else 0)
    && Deletions(log) == (if Rank(stage) >= 3 then 1 else 0)
    && Completions(log) == (if Rank(stage) >= 5 then 1 else 0)
    && (Rank(stage) >= 3 ==> DeletedBefore(log, |log|))
  }

  /** What an executor knows is true, and current while its token is. */
  ghost predicate Informed(s: State, h: Worker) {
    && h.token < s.nextToken
    && (h.Running? ==>
          && Rank(h.stage) <= Rank(s.request.stage) + 1
          && (Rank(h.stage) >= 3 ==> Rank(s.request.stage) >= 3)
          && (h.stage == StageVerified ==> VerifiedBefore(s.log, |s.log|, h.token))
          && (s.request.token == Some(h.token) ==>
                s.request.stage == if h.stage == StageVerified then PrimaryDeleted else h.stage))
  }

  ghost predicate Inv(s: State) {
    && Matches(s.request.stage, s.log) && Ordered(s.log)
    && (s.request.stage == StageCompleted ==> s.request.token.None?)
    && (s.request.token.Some? ==> s.request.token.value < s.nextToken)
    && (forall w :: w in s.workers ==> Informed(s, s.workers[w]))
    && (forall v, w :: v in s.workers && w in s.workers && s.workers[v].token == s.workers[w].token ==> v == w)
  }

  function Initial(now: int): State {
    State(now, Request(Requested, None, 0, 0, now), 0, map[], [])
  }

  lemma InitialInv(now: int)
    ensures Inv(Initial(now))
  {
  }

  lemma BeforeGrows(log: seq<Event>, e: Event, i: int, claim: int)
    ensures DeletedBefore(log, i) ==> DeletedBefore(log + [e], i)
    ensures VerifiedBefore(log, i, claim) ==> VerifiedBefore(log + [e], i, claim) && VerifiedBefore(log + [e], i + 1, claim)
    ensures DeletedBefore(log, |log|) ==> DeletedBefore(log + [e], |log| + 1)
  {
    var more := log + [e];
    forall k | DeletedBefore(log, k) ensures DeletedBefore(more, k) {
      var j :| 0 <= j < k && j < |log| && log[j].Deleted?;
      assert more[j].Deleted?;
    }
    if VerifiedBefore(log, i, claim) {
      var j :| j < i && ZeroVerified(log, j, claim);
      assert more[j] == log[j] && ZeroVerified(more, j, claim);
    }
    if DeletedBefore(log, |log|) {
      var j :| 0 <= j < |log| && log[j].Deleted?;
      assert more[j].Deleted?;
    }
  }

  lemma OrderedGrows(log: seq<Event>, e: Event)
    requires Ordered(log) && (e.Completed? ==> VerifiedBefore(log, |log|, e.claim))
    ensures Ordered(log + [e])
  {
    var more := log + [e];
    forall i | 0 <= i < |more| && more[i].Completed? ensures VerifiedBefore(more, i, more[i].claim) {
      BeforeGrows(log, e, i, more[i].claim);
      if i < |log| { assert more[i] == log[i]; }
    }
  }

  /** A transition of the stored request under its current claim. */
  lemma MovedInv(s: State, w: int)
    requires Inv(s) && w in s.workers && s.workers[w].Running? && Leased(s, s.workers[w].token)
    requires s.workers[w].stage in {Requested, CredentialsRevoked, StageVerified}
    ensures Inv(Advanced(s, w, s.workers[w].token, s.workers[w].stage, Fine, []))
    ensures Inv(Advanced(s, w, s.workers[w].token, s.workers[w].stage, Committed, []))
  {
    hide Ordered, VerifiedBefore, DeletedBefore, Total, Revocations, Deletions, Completions;
    var h := s.workers[w];
    assert Informed(s, h);
    var e := match h.stage
      case Requested => Revoked(h.token)
      case CredentialsRevoked => Deleted(h.token)
      case _ => Completed(h.token);
    Logs(s.log, e);
    OrderedGrows(s.log, e);
    LastIsDeleted(s.log, e);
    forall v | v in s.workers ensures VerifiedBefore(s.log, |s.log|, s.workers[v].token) ==>
                                      VerifiedBefore(s.log + [e], |s.log| + 1, s.workers[v].token) {
      BeforeGrows(s.log, e, |s.log|, s.workers[v].token);
    }
    BeforeGrows(s.log, e, |s.log|, h.token);
  }

  lemma LastIsDeleted(log: seq<Event>, e: Event)
    ensures e.Deleted? ==> DeletedBefore(log + [e], |log| + 1)
  {
    assert (log + [e])[|log|] == e;
  }

  lemma VerifiedInv(s: State, w: int, residuals: seq<int>)
    requires Inv(s) && w in s.workers && s.workers[w].Running? && s.workers[w].stage == PrimaryDeleted
    ensures Inv(Advanced(s, w, s.workers[w].token, PrimaryDeleted, Fine, residuals))
  {
    hide Ordered, VerifiedBefore, DeletedBefore, Total, Revocations, Deletions, Completions;
    var h := s.workers[w];
    assert Informed(s, h);
    if Total(residuals) != 0 { return; }
    var e := Verified(h.token, residuals);
    Logs(s.log, e);
    OrderedGrows(s.log, e);
    NowVerified(s.log, h.token, residuals);
    forall v | v in s.workers ensures VerifiedBefore(s.log, |s.log|, s.workers[v].token) ==>
                                      VerifiedBefore(s.log + [e], |s.log| + 1, s.workers[v].token) {
      BeforeGrows(s.log, e, |s.log|, s.workers[v].token);
    }
    BeforeGrows(s.log, e, |s.log|, h.token);
  }

  lemma NowVerified(log: seq<Event>, claim: int, residuals: seq<int>)
    requires DeletedBefore(log, |log|) && Total(residuals) == 0
    ensures VerifiedBefore(log + [Verified(claim, residuals)], |log| + 1, claim)
  {
    var more := log + [Verified(claim, residuals)];
    var j :| 0 <= j < |log| && log[j].Deleted?;
    assert more[j].Deleted?;
    assert ZeroVerified(more, |log|, claim);
  }

  lemma StepInv(s: State, a: Action)
    requires Inv(s)
    ensures Inv(Next(s, a))
  {
    hide Ordered, VerifiedBefore, DeletedBefore, Matches, Total;
    if a.Advance? && a.w in s.workers && s.workers[a.w].Running? {
      var h := s.workers[a.w];
      assert Informed(s, h);
      if h.stage == PrimaryDeleted {
        VerifiedInv(s, a.w, a.residuals);
      } else if h.stage != StageCompleted && Leased(s, h.token) {
        MovedInv(s, a.w);
      }
    } else if a.Load? {
      NotVerified(s.request.stage, s.log);
    }
  }

  lemma NotVerified(stage: Stage, log: seq<Event>)
    requires Matches(stage, log)
    ensures stage != StageVerified
  {
  }

  lemma {:induction false} RunInv(s: State, trace: seq<Action>)
    requires Inv(s)
    ensures Inv(Run(s, trace))
    decreases |trace|
  {
    hide Inv, Next;
    if trace != [] {
      StepInv(s, trace[0]);
      RunInv(Next(s, trace[0]), trace[1..]);
    }
  }

  /** However claims crash, fail, are held and are superseded: credentials are
      revoked and primary data deleted at most once, and completion comes at most
      once, after a zero verification by the same claim that follows the deletion. */
  lemma ReachableStatesAreSafe(now: int, trace: seq<Action>)
    ensures var s := Run(Initial(now), trace);
            && Revocations(s.log) <= 1 && Deletions(s.log) <= 1 && Completions(s.log) <= 1
            && Ordered(s.log)
            && (s.request.stage == StageCompleted <==> Completions(s.log) == 1)
  {
    hide Run, Next, Ordered, Revocations, Deletions, Completions;
    InitialInv(now);
    RunInv(Initial(now), trace);
  }

  /** In every run a completion has, before it and after the deletion, a verification
      by the same claim that reported a zero total. For twelve counters that means
      nothing was left, except exactly where their true sum is a positive multiple of
      2^64, which counters below 2^60 never reach. */
  lemma CompletionFollowsZeroVerification(now: int, trace: seq<Action>, i: nat) returns (j: nat)
    requires i < |Run(Initial(now), trace).log| && Run(Initial(now), trace).log[i].Completed?
    ensures var log := Run(Initial(now), trace).log;
            && j < i && ZeroVerified(log, j, log[i].claim)
            && var r := log[j].residuals;
               Counters(r) ==>
                 && (NothingLeft(r) <==> !(Sum(r) > 0 && Sum(r) % TWO_64 == 0))
                 && ((forall k :: 0 <= k < 12 ==> r[k] < 0x1000_0000_0000_0000) ==> NothingLeft(r))
  {
    hide Run, Next, Total, Sum;
    ReachableStatesAreSafe(now, trace);
    var log := Run(Initial(now), trace).log;
    j :| j < i && ZeroVerified(log, j, log[i].claim);
    if Counters(log[j].residuals) { ZeroTotalMisleadsExactlyWhen(log[j].residuals); }
  }

  /** A first claim that has revoked the credentials. */
  const REVOKED := State(0, Request(CredentialsRevoked, Some(0), 60, 1, 0), 1, map[0 := Running(0, CredentialsRevoked)], [Revoked(0)])

  lemma FirstHalf()
    ensures Next(Next(Next(Initial(0), Claim(0, 60)), Load(0)), Advance(0, Fine, [])) == REVOKED
  {
    hide Total;
    var s1 := Next(Initial(0), Claim(0, 60));
    assert s1 == State(0, Request(Requested, Some(0), 60, 1, 0), 1, map[0 := Claimed(0)], []);
    var s2 := Next(s1, Load(0));
    assert s2 == s1.(workers := map[0 := Running(0, Requested)]);
  }

  lemma SecondHalf()
    requires Total(HIDDEN) == 0
    ensures var s := Next(Next(Next(REVOKED, Advance(0, Fine, [])), Advance(0, Fine, HIDDEN)), Advance(0, Fine, []));
            s.request.stage == StageCompleted && s.log == [Revoked(0), Deleted(0), Verified(0, HIDDEN), Completed(0)]
  {
    hide Total;
    var s4 := Next(REVOKED, Advance(0, Fine, []));
    assert s4 == REVOKED.(request := REVOKED.request.(stage := PrimaryDeleted), workers := map[0 := Running(0, PrimaryDeleted)],
                          log := [Revoked(0), Deleted(0)]);
    var s5 := Next(s4, Advance(0, Fine, HIDDEN));
    assert s5 == s4.(workers := map[0 := Running(0, StageVerified)], log := s4.log + [Verified(0, HIDDEN)]);
  }

  /** A verification that reports such a sum is passed: with four counters of 2^62 a
      run completes although rows remain. */
  lemma CompletionCanHideResidues()
    ensures Counters(HIDDEN) && !NothingLeft(HIDDEN)
    ensures exists trace :: var s := Run(Initial(0), trace);
              s.request.stage == StageCompleted && Verified(0, HIDDEN) in s.log
  {
    hide Total, Run, Next;
    assert HIDDEN[0] == QUARTER;
    var trace := [Claim(0, 60), Load(0), Advance(0, Fine, []), Advance(0, Fine, []), Advance(0, Fine, HIDDEN), Advance(0, Fine, [])];
    HiddenTotalsZero();
    FirstHalf();
    SecondHalf();
    RunThree(Initial(0), trace);
    RunThree(REVOKED, trace[3..]);
    var s := Next(Next(Next(REVOKED, Advance(0, Fine, [])), Advance(0, Fine, HIDDEN)), Advance(0, Fine, []));
    RunNothing(s);
    assert trace[3..][3..] == [];
    assert Run(Initial(0), trace) == s;
    assert s.log[2] == Verified(0, HIDDEN);
  }

  lemma RunNothing(s: State)
    ensures Run(s, []) == s
  {
  }

  lemma RunThree(s: State, trace: seq<Action>)
    requires |trace| >= 3
    ensures Run(s, trace) == Run(Next(Next(Next(s, trace[0]), trace[1]), trace[2]), trace[3..])
  {
    hide Next;
    var s1 := Next(s, trace[0]);
    var s2 := Next(s1, trace[1]);
    assert trace[1..][0] == trace[1] && trace[2..][0] == trace[2];
    assert trace[1..][1..] == trace[2..] && trace[2..][1..] == trace[3..];
    assert Run(s, trace) == Run(s1, trace[1..]) == Run(s2, trace[2..]);
  }

  /** The stage never goes backward. */
  lemma StageStep(s: State, a: Action)
    requires Inv(s)
    ensures Rank(s.request.stage) <= Rank(Next(s, a).request.stage) <= Rank(s.request.stage) + 2
    ensures s.log <= Next(s, a).log
  {
    hide Ordered, VerifiedBefore, Matches, Total;
    if a.Advance? && a.w in s.workers && s.workers[a.w].Running? {
      assert Informed(s, s.workers[a.w]);
    }
  }

  lemma {:induction false} StageNeverGoesBack(s: State, trace: seq<Action>)
    requires Inv(s)
    ensures Rank(s.request.stage) <= Rank(Run(s, trace).request.stage) && s.log <= Run(s, trace).log
    decreases |trace|
  {
    hide Inv, Next, Rank;
    if trace != [] {
      StepInv(s, trace[0]);
      StageStep(s, trace[0]);
      StageNeverGoesBack(Next(s, trace[0]), trace[1..]);
    }
  }

  /** The claim an action is made under. */
  function Actor(s: State, a: Action): Option<int> {
    if (a.Load? || a.Advance? || a.Fail? || a.Crash?) && a.w in s.workers then Some(s.workers[a.w].token) else None
  }

  /** A step under a claim that is not leased leaves the request alone; all it can
      still do is read a zero verification. */
  lemma UnleasedStep(s: State, a: Action)
    requires Actor(s, a).Some? && !Leased(s, Actor(s, a).value)
    ensures Next(s, a).request == s.request
    ensures s.log <= Next(s, a).log
    ensures forall i :: |s.log| <= i < |Next(s, a).log| ==> Next(s, a).log[i].Verified?
  {
    hide Total;
  }

  /** A claim once lost is never regained. */
  lemma LostStep(s: State, a: Action, t: int)
    requires t < s.nextToken && !Leased(s, t)
    ensures t < Next(s, a).nextToken && !Leased(Next(s, a), t)
  {
    hide Total;
  }

  lemma {:induction false} LostClaimsStayLost(s: State, trace: seq<Action>, t: int)
    requires t < s.nextToken && (s.request.token != Some(t) || s.request.lease <= s.now)
    ensures !Leased(Run(s, trace), t)
    ensures var u := Run(s, trace); u.request.token != Some(t) || u.request.lease <= u.now
    decreases |trace|
  {
    assert !Leased(s, t);
    if trace != [] { assert !Leased(Next(s, trace[0]), t) by { LostStep(s, trace[0], t); } }
    hide Next;
    if trace != [] {
      LostStep(s, trace[0], t);
      LostClaimsStayLost(Next(s, trace[0]), trace[1..], t);
    }
  }

  /** In every run: once an executor's claim is superseded, released or out of time,
      nothing done under it at any later point changes the request or takes a
      destructive or completing step. */
  lemma LostClaimChangesNothing(now: int, before: seq<Action>, v: int, after: seq<Action>, a: Action)
    requires v in Run(Initial(now), before).workers
    requires var s := Run(Initial(now), before);
             s.request.token != Some(s.workers[v].token) || s.request.lease <= s.now
    ensures var s := Run(Initial(now), before);
            var u := Run(s, after);
            Actor(u, a) == Some(s.workers[v].token) ==>
              && Next(u, a).request == u.request && u.log <= Next(u, a).log
              && forall i :: |u.log| <= i < |Next(u, a).log| ==> Next(u, a).log[i].Verified?
  {
    var s := Run(Initial(now), before);
    assert !Leased(s, s.workers[v].token);
    hide Run, Next, Leased, Actor;
    InitialInv(now);
    RunInv(Initial(now), before);
    Issued(s, v);
    LostClaimsStayLost(s, after, s.workers[v].token);
    var u := Run(s, after);
    if Actor(u, a) == Some(s.workers[v].token) { UnleasedStep(u, a); }
  }

  lemma Issued(s: State, v: int)
    requires Inv(s) && v in s.workers
    ensures s.workers[v].token < s.nextToken
  {
    assert Informed(s, s.workers[v]);
  }

  /** In every run: once the request is claimed again, no executor of an earlier claim
      changes it at any later point. */
  lemma NewClaimFencesEarlierOnes(now: int, before: seq<Action>, w: int, lease: int, v: int, after: seq<Action>, a: Action)
    requires v in Run(Initial(now), before).workers
    requires Next(Run(Initial(now), before), Claim(w, lease)) != Run(Initial(now), before)
    ensures var s := Run(Initial(now), before);
            var u := Run(Next(s, Claim(w, lease)), after);
            Actor(u, a) == Some(s.workers[v].token) ==>
              && Next(u, a).request == u.request && u.log <= Next(u, a).log
              && forall i :: |u.log| <= i < |Next(u, a).log| ==> Next(u, a).log[i].Verified?
  {
    hide Run, Leased, Actor;
    var s := Run(Initial(now), before);
    InitialInv(now);
    RunInv(Initial(now), before);
    Issued(s, v);
    Superseded(s, w, lease, s.workers[v].token);
    hide Next;
    LostClaimsStayLost(Next(s, Claim(w, lease)), after, s.workers[v].token);
    var u := Run(Next(s, Claim(w, lease)), after);
    if Actor(u, a) == Some(s.workers[v].token) { UnleasedStep(u, a); }
  }

  lemma Superseded(s: State, w: int, lease: int, t: int)
    requires Next(s, Claim(w, lease)) != s && t < s.nextToken
    ensures t < Next(s, Claim(w, lease)).nextToken && !Leased(Next(s, Claim(w, lease)), t)
  {
  }

  // ---------- when the request may be taken, and what one step does ----------

  /** The request is handed out exactly while it is not completed, was tried fewer than
      a hundred times, is due, and is nobody's or on a lease that has ended; the new
      claim runs for the lease asked for and counts as a try. */
  lemma TakenExactlyWhen(s: State, w: int, lease: int)
    requires w !in s.workers
    ensures var r, t := s.request, Next(s, Claim(w, lease));
            if lease > 0 && r.stage != StageCompleted && r.attempts < 100 && r.available <= s.now && (r.token.None? || r.lease <= s.now) then
              && w in t.workers && t.workers[w] == Claimed(s.nextToken) && t.nextToken == s.nextToken + 1
              && t.request == Request(r.stage, Some(s.nextToken), s.now + lease, r.attempts + 1, r.available)
            else t == s
  {
  }

  /** What a running executor's claim, still in force, makes of the request: a legal hold
      stops the two destructive stages but not the completion, a store that fails stops
      any, and otherwise the next stage is stored with its event, whether or not the
      store then says so; a completed request has no claim. */
  lemma AdvanceDecides(s: State, w: int, outcome: Outcome, residuals: seq<int>)
    requires w in s.workers && s.workers[w].Running? && s.workers[w].stage in {Requested, CredentialsRevoked, StageVerified}
    requires s.request.token == Some(s.workers[w].token) && s.request.lease > s.now
    ensures var known, token := s.workers[w].stage, s.workers[w].token;
            var t := Next(s, Advance(w, outcome, residuals));
            if outcome == Error || (outcome == Hold && known != StageVerified) then
              && t.request == s.request && t.log == s.log
              && w in t.workers && t.workers[w] == Failing(token, outcome == Hold)
            else
              && (known == Requested ==> t.request.stage == CredentialsRevoked && t.log == s.log + [Revoked(token)] && t.request.token == Some(token))
              && (known == CredentialsRevoked ==> t.request.stage == PrimaryDeleted && t.log == s.log + [Deleted(token)] && t.request.token == Some(token))
              && (known == StageVerified ==> t.request.stage == StageCompleted && t.log == s.log + [Completed(token)] && t.request.token == None)
              && (outcome == Committed <==> w in t.workers && t.workers[w] == Failing(token, false))
              && (outcome != Committed ==>
                    if known == StageVerified then w !in t.workers
                    else w in t.workers && t.workers[w] == Running(token, if known == Requested then CredentialsRevoked else PrimaryDeleted))
  {
    hide Total;
  }

  /** A verification is passed exactly when it succeeds with a zero total, and stores
      nothing; otherwise there is a failure to record. */
  lemma VerificationDecides(s: State, w: int, outcome: Outcome, residuals: seq<int>)
    requires w in s.workers && s.workers[w] == Running(s.workers[w].token, PrimaryDeleted)
    ensures var token := s.workers[w].token;
            var t := Next(s, Advance(w, outcome, residuals));
            && t.request == s.request && w in t.workers
            && t.workers[w] == (if outcome == Fine && Sum(residuals) % TWO_64 == 0 then Running(token, StageVerified) else Failing(token, false))
  {
    hide Total, Sum;
    ZeroTotalExactlyWhen(residuals);
  }

  /** A failure recorded under a claim in force leaves the stage, ends the claim, and
      gives a try back only for a legal hold, if there is one to give back; any other
      recording changes nothing of the request. */
  lemma FailDecides(s: State, w: int, outcome: Outcome, availableAt: int)
    requires w in s.workers && s.workers[w].Failing?
    ensures var r, held := s.request, s.workers[w].held;
            var t := Next(s, Fail(w, outcome, availableAt));
            && w !in t.workers && t.log == s.log
            && t.request ==
                 if r.token == Some(s.workers[w].token) && r.lease > s.now && outcome != Error && r.stage != StageCompleted
                 then Request(r.stage, None, 0, if held && r.attempts >= 1 then r.attempts - 1 else r.attempts,
                              if held then availableAt else s.now + 60)
                 else r
  {
  }

  /** A legal hold gives the claim back unspent, to be taken again when the hold
      ends; any other failure spends it and waits a minute. Neither moves the stage. */
  lemma FailureReturnsClaim(s: State, w: int, lease: int, u: State, availableAt: int)
    requires Inv(s) && Next(s, Claim(w, lease)) != s && s.request.attempts >= 0
    requires u.request.attempts == Next(s, Claim(w, lease)).request.attempts && u.request.stage != StageCompleted
    requires w in u.workers && u.workers[w].Failing? && Leased(u, u.workers[w].token)
    ensures var r := Next(u, Fail(w, Fine, availableAt)).request;
            && r.token.None? && r.stage == u.request.stage
            && r.attempts == s.request.attempts + (if u.workers[w].held then 0 else 1)
            && r.available == if u.workers[w].held then availableAt else u.now + 60
  {
  }

  // ---------- the executor ----------

  predicate Acts(a: Action, w: int) {
    !a.Tick? && a.w == w
  }

  datatype Reply = Done | LeaseLost | Refused

  class DeletionWorkflow {
    var s: State
    var script: seq<seq<Action>>

    constructor (s: State, script: seq<seq<Action>>)
      requires Inv(s)
      ensures this.s == s && this.script == script && Inv(this.s)
    {
      this.s, this.script := s, script;
    }

    /** Other claims, legal holds and the clock go on; this claim stays where it is. */
    method Others(w: int)
      requires Inv(s)
      modifies this
      ensures Inv(s) && (w in s.workers <==> w in old(s).workers)
      ensures w in s.workers ==> s.workers[w] == old(s).workers[w]
      ensures old(s).log <= s.log && Rank(old(s).request.stage) <= Rank(s.request.stage)
      ensures old(script) == [] ==> s == old(s) && script == []
    {
      hide Inv, Next, Rank;
      if script == [] { return; }
      var actions := script[0];
      script := script[1..];
      for i := 0 to |actions|
        invariant Inv(s) && (w in s.workers <==> w in old(s).workers)
        invariant w in s.workers ==> s.workers[w] == old(s).workers[w]
        invariant old(s).log <= s.log && Rank(old(s).request.stage) <= Rank(s.request.stage)
      {
        if !Acts(actions[i], w) {
          OthersKeep(s, actions[i], w);
          StepInv(s, actions[i]);
          StageStep(s, actions[i]);
          s := Next(s, actions[i]);
        }
      }
    }

    method Step(a: Action)
      requires Inv(s)
      modifies this`s
      ensures Inv(s) && s == Next(old(s), a)
      ensures old(s).log <= s.log && Rank(old(s).request.stage) <= Rank(s.request.stage)
    {
      hide Inv, Next, Rank;
      StepInv(s, a);
      StageStep(s, a);
      s := Next(s, a);
    }

    /** One durable stage: the executor goes on, or has a failure to record. */
    method Stage(w: int, known: Stage, outcome: Outcome, residuals: seq<int>)
      requires Inv(s) && w in s.workers && s.workers[w] == Running(s.workers[w].token, known)
      requires known in {Requested, CredentialsRevoked, PrimaryDeleted}
      modifies this
      ensures Inv(s) && w in s.workers && s.workers[w].token == old(s).workers[w].token
      ensures s.workers[w].Failing? || s.workers[w] == Running(s.workers[w].token, Following(known))
      ensures old(s).log <= s.log && Rank(old(s).request.stage) <= Rank(s.request.stage)
      ensures old(script) == [] ==> script == []
      ensures old(script) == [] && InForce(old(s), w) && outcome == Fine && NoneReported(residuals) ==>
                s.workers[w].Running? && InForce(s, w)
    {
      hide *;
      GoesOn(s, w, known, outcome, residuals);
      GoesWell(s, w, known, residuals);
      Step(Advance(w, outcome, residuals));
      Others(w);
    }

    /** The stages that remain, in order, up to the first failure. */
    method Stages(w: int, outcomes: seq<Outcome>, residuals: seq<int>)
      requires Inv(s) && w in s.workers && s.workers[w].Running? && |outcomes| == 4
      modifies this
      ensures Inv(s) && w in s.workers && s.workers[w].token == old(s).workers[w].token
      ensures s.workers[w].Failing? || (s.workers[w].Running? && s.workers[w].stage !in {Requested, CredentialsRevoked, PrimaryDeleted})
      ensures old(s).log <= s.log && Rank(old(s).request.stage) <= Rank(s.request.stage)
      ensures old(script) == [] ==> script == []
      ensures old(script) == [] && InForce(old(s), w) && Untroubled(outcomes, residuals) ==> s.workers[w].Running? && InForce(s, w)
    {
      hide *;
      AllFine(outcomes, residuals);
      var known := s.workers[w].stage;
      if known == Requested {
        Stage(w, Requested, outcomes[0], residuals);
        if s.workers[w].Failing? { return; }
        known := CredentialsRevoked;
      }
      if known == CredentialsRevoked {
        Stage(w, CredentialsRevoked, outcomes[1], residuals);
        if s.workers[w].Failing? { return; }
        known := PrimaryDeleted;
      }
      if known == PrimaryDeleted {
        Stage(w, PrimaryDeleted, outcomes[2], residuals);
      }
    }

    /** One claim's run: load under the token, then every remaining stage in order;
        a failure is recorded and ends it. */
    method RunClaimed(w: int, outcomes: seq<Outcome>, residuals: seq<int>, recorded: Outcome, availableAt: int) returns (reply: Reply)
      requires Inv(s) && w in s.workers && s.workers[w].Claimed? && |outcomes| == 4
      modifies this
      ensures Inv(s) && w !in s.workers
      ensures reply == Done ==> s.request.stage == StageCompleted
      ensures reply == LeaseLost <==> old(s).request.token != Some(old(s).workers[w].token)
      ensures old(script) == [] && old(s).request.token == Some(old(s).workers[w].token) && old(s).request.lease > old(s).now
              && Untroubled(outcomes, residuals) ==>
                reply == Done
      ensures old(s).log <= s.log && Rank(old(s).request.stage) <= Rank(s.request.stage)
    {
      hide *;
      Loads(s, w);
      LoadsExactly(s, w);
      Step(Load(w));
      if w !in s.workers { return LeaseLost; }
      Others(w);
      Stages(w, outcomes, residuals);
      if s.workers[w].Running? {
        Settled(s, w);
        Ends(s, w, outcomes[3], residuals);
        AllFine(outcomes, residuals);
        EndsWell(s, w, residuals);
        Step(Advance(w, outcomes[3], residuals));
        if w !in s.workers { return Done; }
        Others(w);
      }
      FailureEnds(s, w, recorded, availableAt);
      Step(Fail(w, recorded, availableAt));
      return Refused;
    }
  }

  ghost predicate NoneReported(residuals: seq<int>) { Sum(residuals) % TWO_64 == 0 }

  /** Every store call succeeds, and the verification finds nothing. */
  ghost predicate Untroubled(outcomes: seq<Outcome>, residuals: seq<int>) {
    (forall i :: 0 <= i < |outcomes| ==> outcomes[i] == Fine) && NoneReported(residuals)
  }

  lemma AllFine(outcomes: seq<Outcome>, residuals: seq<int>)
    requires |outcomes| == 4
    ensures Untroubled(outcomes, residuals) ==>
              && NoneReported(residuals)
              && outcomes[0] == Fine && outcomes[1] == Fine && outcomes[2] == Fine && outcomes[3] == Fine
  {
  }

  /** The executor's claim is the current one and still in time. */
  ghost predicate InForce(s: State, w: int) {
    w in s.workers && s.request.token == Some(s.workers[w].token) && s.request.lease > s.now
  }

  lemma LoadsExactly(s: State, w: int)
    requires w in s.workers && s.workers[w].Claimed?
    ensures var t := Next(s, Load(w));
            && (w in t.workers <==> s.request.token == Some(s.workers[w].token))
            && (w in t.workers && s.request.lease > s.now ==> InForce(t, w))
  {
  }

  lemma GoesWell(s: State, w: int, known: Stage, residuals: seq<int>)
    requires w in s.workers && s.workers[w] == Running(s.workers[w].token, known)
    requires known in {Requested, CredentialsRevoked, PrimaryDeleted}
    ensures InForce(s, w) && NoneReported(residuals) ==>
              var t := Next(s, Advance(w, Fine, residuals)); InForce(t, w) && t.workers[w].Running?
  {
    hide Total, Sum;
    ZeroTotalExactlyWhen(residuals);
  }

  lemma EndsWell(s: State, w: int, residuals: seq<int>)
    requires w in s.workers && s.workers[w].Running?
    requires s.workers[w].stage == StageVerified || s.request.stage == StageCompleted
    requires s.workers[w].stage !in {Requested, CredentialsRevoked, PrimaryDeleted}
    ensures InForce(s, w) ==> w !in Next(s, Advance(w, Fine, residuals)).workers
  {
    hide Total;
  }

  function Following(stage: Stage): (next: Stage)
    ensures stage == Requested ==> next == CredentialsRevoked
    ensures stage == CredentialsRevoked ==> next == PrimaryDeleted
    ensures stage == PrimaryDeleted ==> next == StageVerified
  {
    match stage
    case Requested => CredentialsRevoked
    case CredentialsRevoked => PrimaryDeleted
    case PrimaryDeleted => StageVerified
    case StageVerified => StageCompleted
    case StageCompleted => StageCompleted
  }

  lemma GoesOn(s: State, w: int, known: Stage, outcome: Outcome, residuals: seq<int>)
    requires w in s.workers && s.workers[w] == Running(s.workers[w].token, known)
    requires known in {Requested, CredentialsRevoked, PrimaryDeleted}
    ensures var t := Next(s, Advance(w, outcome, residuals));
            && w in t.workers && t.workers[w].token == s.workers[w].token
            && (t.workers[w].Failing? || t.workers[w] == Running(s.workers[w].token, Following(known)))
  {
    hide Total;
  }

  lemma Loads(s: State, w: int)
    requires w in s.workers && s.workers[w].Claimed?
    ensures var t := Next(s, Load(w)); w in t.workers ==> t.workers[w].Running?
  {
  }

  lemma FailureEnds(s: State, w: int, outcome: Outcome, availableAt: int)
    requires w in s.workers && s.workers[w].Failing?
    ensures w !in Next(s, Fail(w, outcome, availableAt)).workers
  {
  }

  lemma OthersKeep(s: State, a: Action, w: int)
    requires !Acts(a, w)
    ensures w in Next(s, a).workers <==> w in s.workers
    ensures w in s.workers ==> Next(s, a).workers[w] == s.workers[w]
  {
    hide Total;
  }

  /** An executor never runs with a completed stage in hand. */
  lemma Settled(s: State, w: int)
    requires Inv(s) && w in s.workers && s.workers[w].Running?
    requires s.workers[w].stage !in {Requested, CredentialsRevoked, PrimaryDeleted}
    ensures s.workers[w].stage == StageVerified || s.request.stage == StageCompleted
  {
    assert Informed(s, s.workers[w]);
  }

  /** The last step completes the request or leaves a failure to record. */
  lemma Ends(s: State, w: int, outcome: Outcome, residuals: seq<int>)
    requires w in s.workers && s.workers[w].Running?
    requires s.workers[w].stage !in {Requested, CredentialsRevoked, PrimaryDeleted}
    requires s.workers[w].stage == StageVerified || s.request.stage == StageCompleted
    ensures var t := Next(s, Advance(w, outcome, residuals));
            if w in t.workers then t.workers[w].Failing? else t.request.stage == StageCompleted
  {
    hide Total;
  }
}
