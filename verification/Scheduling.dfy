/** The scheduler: which connections are due, and how often one whose provider
    always fails is executed. */
module Scheduling {
  import opened Keyset
  import Backoff

  datatype Status = Active | InError | Other

  /** The fields of a connection that scheduling reads. */
  datatype Connection = Connection(id: string, subject: string, status: Status, failures: int,
                                   next: Option<int>, lastSynced: Option<int>)

  datatype Settings = Settings(enabled: bool, interval: int)

  /** When a connection with known settings is due. */
  predicate Due(c: Connection, s: Settings, now: int) {
    && s.enabled
    && (match c.status
        case Other => false
        case InError => c.next.Some? && c.next.value <= now
        case Active =>
          && (c.next.Some? ==> c.next.value <= now)
          && (c.lastSynced.Some? ==> c.lastSynced.value + s.interval <= now))
  }

  /** With synchronisation switched off nothing is due. Switched on, an active
      connection is due from the start, from one interval after its last success and
      not before a next attempt that is set; one in error from its next attempt on and,
      without one, never; any other connection never. */
  lemma DueFrom(c: Connection, s: Settings, now: int)
    ensures !s.enabled || c.status == Other ==> !Due(c, s, now)
    ensures s.enabled && c.status == Active && c.next.None? && c.lastSynced.None? ==> Due(c, s, now)
    ensures s.enabled && c.status == Active && c.next.None? && c.lastSynced.Some? ==>
              (Due(c, s, now) <==> now - c.lastSynced.value >= s.interval)
    ensures s.enabled && c.status == Active && c.next.Some? ==>
              (Due(c, s, now) <==> now >= c.next.value && Due(c.(next := None), s, now))
    ensures s.enabled && c.status == InError ==> (Due(c, s, now) <==> c.next.Some? && now >= c.next.value)
  {
  }

  /** The settings of every subject; None where they cannot be loaded. */
  type Lookup = string -> Option<Settings>

  predicate IsDue(c: Connection, lookup: Lookup, now: int) {
    c.status != Other && lookup(c.subject).Some? && Due(c, lookup(c.subject).value, now)
  }

  /** The due connections, in the order listed. */
  function DueIDs(records: seq<Connection>, lookup: Lookup, now: int): seq<string> {
    if records == [] then []
    else
      var n := |records| - 1;
      DueIDs(records[..n], lookup, now) + (if IsDue(records[n], lookup, now) then [records[n].id] else [])
  }

  predicate IDLess(a: string, b: string) { Compare(a, b) < 0 }

  function Itself(id: string): string { id }

  lemma IDsAreOrdered()
    ensures StrictTotal(IDLess)
  {
    forall x, y ensures x != y ==> IDLess(x, y) || IDLess(y, x) {
      CompareFlips(x, y);
    }
    forall x, y, z ensures IDLess(x, y) && IDLess(y, z) ==> IDLess(x, z) {
      if IDLess(x, y) && IDLess(y, z) { CompareTransitive(x, y, z); }
    }
  }

  /** How many connections could be due but have no settings to tell. */
  function Untold(records: seq<Connection>, lookup: Lookup): int {
    if records == [] then 0
    else
      var n := |records| - 1;
      Untold(records[..n], lookup) + if records[n].status != Other && lookup(records[n].subject).None? then 1 else 0
  }

  /** The selection loop, with one settings lookup per subject however many
      connections it has, and the sort by ID. errors counts the connections passed over because
      their subject's settings could not be loaded. */
  method SelectDue(records: seq<Connection>, lookup: Lookup, now: int) returns (due: seq<string>, errors: int)
    ensures multiset(due) == multiset(DueIDs(records, lookup, now)) && NeverDescends(IDLess, Itself, due)
    ensures errors >= 0 && errors == Untold(records, lookup)
    ensures errors == 0 <==> forall i :: 0 <= i < |records| && records[i].status != Other ==> lookup(records[i].subject).Some?
  {
    due, errors := [], 0;
    var cache: map<string, Option<Settings>> := map[];
    for i := 0 to |records|
      invariant forall s :: s in cache ==> cache[s] == lookup(s)
      invariant due == DueIDs(records[..i], lookup, now)
      invariant errors >= 0 && errors == Untold(records[..i], lookup)
      invariant errors == 0 <==> forall j :: 0 <= j < i && records[j].status != Other ==> lookup(records[j].subject).Some?
    {
      var c := records[i];
      assert records[..i + 1][..i] == records[..i];
      if c.status == Other { continue; }
      if c.subject !in cache { cache := cache[c.subject := lookup(c.subject)]; }
      var resolved := cache[c.subject];
      if resolved.None? { errors := errors + 1; continue; }
      if !resolved.value.enabled { continue; }
      if c.status == InError {
        if c.next.None? || c.next.value > now { continue; }
        due := due + [c.id];
        continue;
      }
      if c.next.Some? && c.next.value > now { continue; }
      if c.lastSynced.None? || c.lastSynced.value + resolved.value.interval <= now { due := due + [c.id]; }
    }
    assert records[..|records|] == records;
    IDsAreOrdered();
    SortedNeverDescends(IDLess, Itself, due);
    due := Sorted(IDLess, Itself, due);
  }

  // ---------- one connection whose provider always fails ----------

  /** A finished execution. delay is None once the retry budget is used up. */
  datatype Execution = Execution(scheduled: bool, start: int, finish: int, attempt: int, delay: Option<int>)

  /** The scheduler has looked and found the connection due, having seen this many
      executions finished. */
  datatype State = State(now: int, c: Connection, decided: Option<int>, running: Option<Execution>, log: seq<Execution>)

  /** Looking happens one sweep at a time. Manual executions come at any time. A
      start finds the connection free or gives up. */
  datatype Action = Look(s: Settings) | Start(scheduled: bool) | Finish(delay: int) | Tick(seconds: int)

  predicate Sweeping(s: State) { s.decided.Some? || (s.running.Some? && s.running.value.scheduled) }

  /** An execution that fails: the retry policy decides whether another is scheduled. */
  function FinishedWith(max: int, s: State, delay: int): State
    requires s.running.Some?
  {
    var r := s.running.value;
    var retry := if 1 <= r.attempt < max && delay >= 0 then Some(delay) else None;
    s.(running := None,
       c := s.c.(status := InError, failures := r.attempt,
                 next := if retry.Some? then Some(s.now + retry.value) else None),
       log := s.log + [r.(finish := s.now, delay := retry)])
  }

  function Next(max: int, s: State, a: Action): State {
    match a
    case Look(settings) =>
      if Sweeping(s) || !Due(s.c, settings, s.now) then s else s.(decided := Some(|s.log|))
    case Start(scheduled) =>
      if scheduled && s.decided.None? then s
      else
        var s' := if scheduled then s.(decided := None) else s;
        if s.running.Some? then s'
        else s'.(running := Some(Execution(scheduled, s.now, s.now, s.c.failures + 1, None)), c := s.c.(next := None))
    case Finish(delay) => if s.running.None? then s else FinishedWith(max, s, delay)
    case Tick(seconds) => if seconds < 0 then s else s.(now := s.now + seconds)
  }

  function Run(max: int, s: State, trace: seq<Action>): State
    decreases |trace|
  {
    if trace == [] then s else Run(max, Next(max, s, trace[0]), trace[1..])
  }

  function ScheduledIn(log: seq<Execution>): int {
    if log == [] then 0 else ScheduledIn(log[..|log| - 1]) + (if log[|log| - 1].scheduled then 1 else 0)
  }

  /** Scheduled executions begun so far. */
  function Scheduled(s: State): int {
    ScheduledIn(s.log) + (if s.running.Some? && s.running.value.scheduled then 1 else 0)
  }

  ghost predicate Inv(max: int, s: State) {
    && max >= 1 && s.c.failures >= 0 && |s.log| == s.c.failures
    && 0 <= ScheduledIn(s.log) <= s.c.failures
    && (s.c.status == Active ==> s.c.failures == 0)
    && (s.c.status == InError && s.c.next.Some? ==> s.c.failures < max)
    && Scheduled(s) + (if s.decided.Some? then 1 else 0) <= max
    && (s.decided.Some? ==> 0 <= s.decided.value <= |s.log| && !(s.running.Some? && s.running.value.scheduled))
    && (s.running.Some? ==> s.running.value.attempt == s.c.failures + 1)
  }

  function Fresh(id: string, subject: string, now: int): State {
    State(now, Connection(id, subject, Active, 0, None, None), None, None, [])
  }

  lemma LogsOne(log: seq<Execution>, e: Execution)
    ensures ScheduledIn(log + [e]) == ScheduledIn(log) + if e.scheduled then 1 else 0
  {
    assert (log + [e])[..|log|] == log;
  }

  lemma StepInv(max: int, s: State, a: Action)
    requires Inv(max, s)
    ensures Inv(max, Next(max, s, a))
  {
    hide ScheduledIn;
    if a.Finish? && s.running.Some? {
      var t := FinishedWith(max, s, a.delay);
      LogsOne(s.log, t.log[|s.log|]);
    }
  }

  lemma {:induction false} RunInv(max: int, s: State, trace: seq<Action>)
    requires Inv(max, s)
    ensures Inv(max, Run(max, s, trace))
    decreases |trace|
  {
    hide Inv, Next;
    if trace != [] {
      StepInv(max, s, trace[0]);
      RunInv(max, Next(max, s, trace[0]), trace[1..]);
    }
  }

  /** Whatever manual executions come in between, a connection whose provider always
      fails gets at most max scheduled executions. */
  lemma ScheduledExecutionsAreBounded(max: int, id: string, subject: string, now: int, trace: seq<Action>)
    requires max >= 1
    ensures Scheduled(Run(max, Fresh(id, subject, now), trace)) <= max
  {
    hide Run, Scheduled;
    FreshInv(max, id, subject, now);
    RunInv(max, Fresh(id, subject, now), trace);
    BoundOf(max, Run(max, Fresh(id, subject, now), trace));
  }

  lemma FreshInv(max: int, id: string, subject: string, now: int)
    requires max >= 1
    ensures Inv(max, Fresh(id, subject, now))
  {
  }

  lemma BoundOf(max: int, s: State)
    requires Inv(max, s)
    ensures Scheduled(s) <= max
  {
  }

  /** The earliest time the retry policy allows after the last failure. */
  predicate Spaced(s: State) {
    s.log != [] ==>
      var last := s.log[|s.log| - 1];
      last.delay.Some? && s.now >= last.finish + last.delay.value
  }

  /** What the connection's next attempt time means. */
  ghost predicate Timely(s: State) {
    && (s.log != [] && s.c.status == InError && s.c.next.Some? ==>
          var last := s.log[|s.log| - 1];
          last.delay.Some? && s.c.next.value == last.finish + last.delay.value)
    && (s.c.status == Active ==> s.log == [])
    && (s.decided.Some? && s.decided.value == |s.log| ==> Spaced(s))
    && (s.decided.Some? ==> 0 <= s.decided.value <= |s.log|)
  }

  lemma StepTimely(max: int, s: State, a: Action)
    requires Timely(s) && (s.c.status == Other ==> s.decided.None?)
    ensures Timely(Next(max, s, a))
    ensures Next(max, s, a).c.status == Other ==> Next(max, s, a).decided.None?
  {
  }

  /** With nothing running, the connection's next attempt time is the last failure's. */
  ghost predicate Settled(s: State) {
    && (s.log == [] ==> s.c.status == Active)
    && (s.log != [] ==> s.c.status == InError)
    && (s.log != [] && s.running.None? ==>
          var last := s.log[|s.log| - 1];
          s.c.next == if last.delay.Some? then Some(last.finish + last.delay.value) else None)
  }

  /** Execution i began no earlier than its predecessor's finish plus the delay the
      retry policy returned for it. */
  predicate EntrySpaced(log: seq<Execution>, i: int) {
    && 0 < i < |log| && log[i - 1].delay.Some?
    && log[i].start >= log[i - 1].finish + log[i - 1].delay.value
  }

  /** The log as it will be if the running execution finishes next. */
  function Written(s: State): seq<Execution> {
    if s.running.Some? then s.log + [s.running.value] else s.log
  }

  /** Whatever finished since the sweep looked was manual, and of two successive
      scheduled executions the second is spaced. */
  ghost predicate Chained(s: State) {
    && (s.decided.Some? ==>
          && !(s.running.Some? && s.running.value.scheduled)
          && forall i :: 0 <= i < |s.log| && s.decided.value <= i ==> !s.log[i].scheduled)
    && (var log := Written(s);
        forall i :: 0 < i < |log| && log[i - 1].scheduled && log[i].scheduled ==> EntrySpaced(log, i))
  }

  lemma SettledStep(max: int, s: State, a: Action)
    requires Settled(s)
    ensures Settled(Next(max, s, a))
  {
  }

  lemma ChainedStep(max: int, s: State, a: Action)
    requires Timely(s) && Chained(s)
    ensures Chained(Next(max, s, a))
  {
    hide Timely;
    var t := Next(max, s, a);
    match a
    case Start(scheduled) =>
      if scheduled && s.decided.Some? && s.running.None? { StartsSpaced(s); }
      assert s.running.None? && t.running.Some? ==> Written(s) == s.log && Written(t) == s.log + [t.running.value];
    case Finish(delay) =>
      if s.running.Some? {
        assert |t.log| == |Written(s)|;
        forall i | 0 < i < |t.log| && t.log[i - 1].scheduled && t.log[i].scheduled ensures EntrySpaced(t.log, i) {
          assert EntrySpaced(Written(s), i);
        }
      }
    case _ =>
  }

  lemma StartsSpaced(s: State)
    requires Timely(s) && Chained(s) && s.decided.Some?
    ensures s.log != [] && s.log[|s.log| - 1].scheduled ==> Spaced(s)
  {
  }

  lemma {:induction false} RunChained(max: int, s: State, trace: seq<Action>)
    requires Timely(s) && Chained(s) && Settled(s)
    ensures Timely(Run(max, s, trace)) && Chained(Run(max, s, trace)) && Settled(Run(max, s, trace))
    decreases |trace|
  {
    hide Timely, Chained, Next;
    if trace != [] {
      SettledStep(max, s, trace[0]);
      ChainedStep(max, s, trace[0]);
      StepTimely(max, s, trace[0]);
      RunChained(max, Next(max, s, trace[0]), trace[1..]);
    }
  }

  lemma FreshIsChained(id: string, subject: string, now: int)
    ensures var s := Fresh(id, subject, now); Timely(s) && Chained(s) && Settled(s)
  {
  }

  /** In every run, of two successive executions that were both scheduled the second
      began no earlier than the first one's finish plus the delay returned for it. */
  lemma ScheduledExecutionsAreSpaced(max: int, id: string, subject: string, now: int, trace: seq<Action>, i: int)
    requires var log := Run(max, Fresh(id, subject, now), trace).log;
             0 < i < |log| && log[i - 1].scheduled && log[i].scheduled
    ensures EntrySpaced(Run(max, Fresh(id, subject, now), trace).log, i)
  {
    hide Run, Timely, Settled;
    FreshIsChained(id, subject, now);
    RunChained(max, Fresh(id, subject, now), trace);
    var s := Run(max, Fresh(id, subject, now), trace);
    var log := Written(s);
    assert log[i - 1] == s.log[i - 1] && log[i] == s.log[i];
    assert EntrySpaced(log, i);
  }

  /** A running execution keeps its start, and what is logged stays logged. */
  ghost predicate Keeps(s: State, t: State) {
    Written(s) != [] && |Written(s)| <= |Written(t)| && forall i :: 0 <= i < |Written(s)| ==>
      && Written(t)[i].start == Written(s)[i].start && Written(t)[i].scheduled == Written(s)[i].scheduled
      && (i < |s.log| ==> i < |t.log| && t.log[i] == s.log[i])
  }

  lemma KeepsStep(max: int, s: State, t: State, a: Action)
    requires Keeps(s, t)
    ensures Keeps(s, Next(max, t, a))
  {
    var u := Next(max, t, a);
    if t.running.None? && u.running.Some? { assert Written(u) == Written(t) + [u.running.value]; }
    if t.running.Some? && u.running.None? {
      assert |Written(u)| == |Written(t)|;
      assert forall i :: 0 <= i < |t.log| ==> Written(u)[i] == Written(t)[i];
    }
  }

  lemma {:induction false} KeepsRun(max: int, s: State, t: State, trace: seq<Action>)
    requires Keeps(s, t)
    ensures Keeps(s, Run(max, t, trace))
    decreases |trace|
  {
    hide Keeps, Next;
    if trace != [] {
      KeepsStep(max, s, t, trace[0]);
      KeepsRun(max, s, Next(max, t, trace[0]), trace[1..]);
    }
  }

  /** In every run a scheduled execution that starts after another one is recorded as
      spaced if and only if, at the start, the connection's next attempt time is set
      and has come: the sweep's own guard, looked at again. */
  lemma ScheduledStartIsSpacedExactlyWhen(max: int, id: string, subject: string, now: int, before: seq<Action>, after: seq<Action>)
    requires var s := Run(max, Fresh(id, subject, now), before);
             s.decided.Some? && s.running.None? && s.log != []
    requires var s := Run(max, Fresh(id, subject, now), before);
             |s.log| < |Run(max, Next(max, s, Start(true)), after).log|
    ensures var s := Run(max, Fresh(id, subject, now), before);
            var log := Run(max, Next(max, s, Start(true)), after).log;
            && log[|s.log|].scheduled && log[|s.log|].start == s.now && log[|s.log| - 1] == s.log[|s.log| - 1]
            && (EntrySpaced(log, |s.log|) <==> s.c.next.Some? && s.c.next.value <= s.now)
  {
    hide Run, Timely, Chained;
    FreshIsChained(id, subject, now);
    RunChained(max, Fresh(id, subject, now), before);
    var s := Run(max, Fresh(id, subject, now), before);
    var t := Next(max, s, Start(true));
    KeepsRun(max, t, t, after);
    var log := Run(max, t, after).log;
    var n := |s.log|;
    assert Written(t)[n] == t.running.value && Written(Run(max, t, after))[n] == log[n];
  }

  /** A manual execution that slips in between the look and the start is not waited for. */
  lemma ManualExecutionBreaksSpacing(max: int, id: string, subject: string)
    requires max >= 2
    ensures var s := Run(max, Fresh(id, subject, 0), [Look(Settings(true, 60)), Start(false), Finish(30), Start(true), Finish(30)]);
            |s.log| == 2 && s.log[1].scheduled && s.log[0].delay == Some(30) && !EntrySpaced(s.log, 1)
  {
    var s0 := Fresh(id, subject, 0);
    var s1 := Next(max, s0, Look(Settings(true, 60)));
    var s2 := Next(max, s1, Start(false));
    var s3 := Next(max, s2, Finish(30));
    var s4 := Next(max, s3, Start(true));
    var s5 := Next(max, s4, Finish(30));
    var trace := [Look(Settings(true, 60)), Start(false), Finish(30), Start(true), Finish(30)];
    RunThree(max, s0, trace);
    RunTwo(max, s3, trace[3..]);
  }

  lemma RunThree(max: int, s: State, trace: seq<Action>)
    requires |trace| >= 3
    ensures Run(max, s, trace) == Run(max, Next(max, Next(max, Next(max, s, trace[0]), trace[1]), trace[2]), trace[3..])
  {
    hide Next;
    var s1 := Next(max, s, trace[0]);
    var s2 := Next(max, s1, trace[1]);
    assert trace[1..][0] == trace[1] && trace[2..][0] == trace[2];
    assert trace[1..][1..] == trace[2..] && trace[2..][1..] == trace[3..];
    assert Run(max, s, trace) == Run(max, s1, trace[1..]) == Run(max, s2, trace[2..]);
  }

  lemma RunTwo(max: int, s: State, trace: seq<Action>)
    requires |trace| == 2
    ensures Run(max, s, trace) == Next(max, Next(max, s, trace[0]), trace[1])
  {
    hide Next;
    var s1, s2 := Next(max, s, trace[0]), Next(max, Next(max, s, trace[0]), trace[1]);
    assert trace[1..][0] == trace[1] && trace[1..][1..] == [];
    assert Run(max, s1, trace[1..]) == Run(max, s2, []) == s2;
  }

  /** One failed execution in the order the service takes it: mark the start, call,
      record the failure, and ask the retry policy. */
  class ConnectionRecord {
    var c: Connection

    constructor (c: Connection)
      ensures this.c == c
    {
      this.c := c;
    }

    method FailedExecution(policy: Backoff.Config, finished: int, random: real) returns (delay: int, retry: bool)
      requires policy.Valid() && c.failures >= 0
      modifies this
      ensures c == FinishedWith(policy.attempts,
                                State(finished, old(c).(next := None), None,
                                      Some(Execution(true, finished, finished, old(c).failures + 1, None)), []), delay).c
      ensures retry <==> old(c).failures + 1 < policy.attempts
      ensures retry && policy.fraction == 0.0 ==>
                delay == Backoff.Min(policy.max, policy.initial * Backoff.Pow2(old(c).failures))
    {
      var attempt := c.failures + 1;
      c := c.(next := None);
      c := c.(status := InError, failures := attempt);
      delay, retry := Backoff.NextRetry(policy, attempt, random);
      c := c.(next := if retry then Some(finished + delay) else None);
    }
  }
}
