/** The retention worker: bounded purge batches whose progress survives crashes. */
module Retention {
  import opened Keyset
  import Reencryption

  // ---------- configuration and rows ----------

  datatype Dataset = Dataset(name: string)
  datatype Entry = Entry(dataset: Dataset, id: int)
  datatype Rule = Rule(dataset: Dataset, retain: int)

  /** The worker's configuration, its fingerprint, and the store's eligibility
      test: whether an entry is purgeable given a cutoff and an evaluation time. */
  datatype Policy = Policy(rules: seq<Rule>, batch: int, most: int, fingerprint: string, due: (Entry, int, int) -> bool) {
    predicate Valid() {
      && batch > 0 && most > 0 && rules != []
      && (forall i :: 0 <= i < |rules| ==> rules[i].dataset.name in KNOWN && rules[i].retain >= 0)
      && Distinct()
    }

    predicate Distinct() {
      forall i, j :: 0 <= i < j < |rules| ==> rules[i].dataset != rules[j].dataset
    }

    /** Rule i makes e purgeable at asOf. */
    predicate Due(i: int, e: Entry, asOf: int)
      requires 0 <= i < |rules|
    {
      e.dataset == rules[i].dataset && due(e, asOf - rules[i].retain, asOf)
    }

    function Expired(i: int, rows: set<Entry>, asOf: int): set<Entry>
      requires 0 <= i < |rules|
    {
      set e | e in rows && Due(i, e, asOf)
    }

    /** Everything a complete run at asOf is to remove. */
    function Eligible(rows: set<Entry>, asOf: int): set<Entry> {
      set e | e in rows && exists i :: 0 <= i < |rules| && Due(i, e, asOf)
    }

    /** No row is left for the rules from lo up to hi. */
    ghost predicate Purged(rows: set<Entry>, lo: int, hi: int, asOf: int) {
      forall e, i :: e in rows && 0 <= lo <= i < hi <= |rules| ==> !Due(i, e, asOf)
    }
  }

  // ---------- ages ----------

  /** The store goes by a stamp, which has to be older than the cutoff it is given,
      and by a test of its own at the evaluation time. */
  ghost predicate GoesBy(k: Policy, stamp: Entry -> int, ready: (Entry, int) -> bool) {
    forall e, before, asOf :: k.due(e, before, asOf) <==> stamp(e) < before && ready(e, asOf)
  }

  /** The entry has been kept for longer than the rule of its dataset asks. */
  ghost predicate Ripe(k: Policy, stamp: Entry -> int, ready: (Entry, int) -> bool, e: Entry, asOf: int) {
    exists i :: 0 <= i < |k.rules| && k.rules[i].dataset == e.dataset && stamp(e) + k.rules[i].retain < asOf && ready(e, asOf)
  }

  /** Whatever stamp the store goes by, only ripe entries are gone. */
  ghost predicate OnlyRipeGo(k: Policy, before: set<Entry>, now: set<Entry>, asOf: int) {
    forall stamp, ready, e :: GoesBy(k, stamp, ready) && e in before && e !in now ==> Ripe(k, stamp, ready, e, asOf)
  }

  /** Whatever stamp the store goes by, no ripe entry is left. */
  ghost predicate NoneRipe(k: Policy, rows: set<Entry>, asOf: int) {
    forall stamp, ready, e :: GoesBy(k, stamp, ready) && e in rows ==> !Ripe(k, stamp, ready, e, asOf)
  }

  /** The ripe entries of one dataset. */
  ghost function RipeOf(k: Policy, stamp: Entry -> int, ready: (Entry, int) -> bool, rows: set<Entry>, d: Dataset, asOf: int): set<Entry> {
    set e | e in rows && e.dataset == d && Ripe(k, stamp, ready, e, asOf)
  }

  /** For every rule's dataset the count is that of its ripe entries. */
  ghost predicate CountsRipe(k: Policy, rows: set<Entry>, asOf: int, matched: map<Dataset, int>) {
    forall stamp, ready, i :: GoesBy(k, stamp, ready) && 0 <= i < |k.rules| ==>
      Of(matched, k.rules[i].dataset) == |RipeOf(k, stamp, ready, rows, k.rules[i].dataset, asOf)|
  }

  lemma DueIsRipe(k: Policy, stamp: Entry -> int, ready: (Entry, int) -> bool, e: Entry, asOf: int)
    requires GoesBy(k, stamp, ready)
    ensures (exists i :: 0 <= i < |k.rules| && k.Due(i, e, asOf)) <==> Ripe(k, stamp, ready, e, asOf)
  {
    if i :| 0 <= i < |k.rules| && k.Due(i, e, asOf) {
      assert k.due(e, asOf - k.rules[i].retain, asOf);
    }
    if Ripe(k, stamp, ready, e, asOf) {
      var i :| 0 <= i < |k.rules| && k.rules[i].dataset == e.dataset && stamp(e) + k.rules[i].retain < asOf && ready(e, asOf);
      assert k.due(e, asOf - k.rules[i].retain, asOf);
      assert k.Due(i, e, asOf);
    }
  }

  lemma EligibleIsRipe(k: Policy, before: set<Entry>, now: set<Entry>, asOf: int)
    requires before - now <= k.Eligible(before, asOf)
    ensures OnlyRipeGo(k, before, now, asOf)
  {
    forall stamp, ready, e | GoesBy(k, stamp, ready) && e in before && e !in now ensures Ripe(k, stamp, ready, e, asOf) {
      assert e in before - now;
      DueIsRipe(k, stamp, ready, e, asOf);
    }
  }

  lemma ExpiredIsRipe(k: Policy, before: set<Entry>, now: set<Entry>, i: int, asOf: int)
    requires 0 <= i < |k.rules| && before - now <= k.Expired(i, before, asOf)
    ensures OnlyRipeGo(k, before, now, asOf)
  {
    forall e | e in before - now ensures e in k.Eligible(before, asOf) {
      assert k.Due(i, e, asOf);
    }
    EligibleIsRipe(k, before, now, asOf);
  }

  lemma PurgedIsUnripe(k: Policy, rows: set<Entry>, asOf: int)
    requires k.Purged(rows, 0, |k.rules|, asOf)
    ensures NoneRipe(k, rows, asOf)
  {
    forall stamp, ready, e | GoesBy(k, stamp, ready) && e in rows ensures !Ripe(k, stamp, ready, e, asOf) {
      DueIsRipe(k, stamp, ready, e, asOf);
    }
  }

  lemma CountedIsRipe(k: Policy, rows: set<Entry>, asOf: int, matched: map<Dataset, int>)
    requires k.Distinct()
    requires forall i :: 0 <= i < |k.rules| ==> Of(matched, k.rules[i].dataset) == |k.Expired(i, rows, asOf)|
    ensures CountsRipe(k, rows, asOf, matched)
  {
    forall stamp, ready, i | GoesBy(k, stamp, ready) && 0 <= i < |k.rules|
      ensures k.Expired(i, rows, asOf) == RipeOf(k, stamp, ready, rows, k.rules[i].dataset, asOf)
    {
      forall e | e in rows && e.dataset == k.rules[i].dataset ensures k.Due(i, e, asOf) <==> Ripe(k, stamp, ready, e, asOf) {
        DueIsRipe(k, stamp, ready, e, asOf);
      }
    }
  }

  const KNOWN: set<string> := {
    "audit_events", "activity_facts", "custom_activity_events", "revoked_provider_metadata",
    "orphaned_provider_environments", "provider_sync_jobs_succeeded", "provider_sync_jobs_failed_or_cancelled",
    "user_sessions", "magic_link_tokens", "magic_link_mail_outbox", "mutation_audit_outbox", "auth_challenges",
    "ingest_idempotency_keys", "timeline_cache", "activity_refresh_cache", "api_rate_limit_buckets",
    "deleted_identity_tombstones", "deleted_identity_tombstones_v2", "deletion_requests", "deletion_request_inbox"
  }

  /** The constructor's checks, rule by rule. */
  method Accept(k: Policy) returns (ok: bool)
    ensures ok == k.Valid()
  {
    if k.batch <= 0 || k.most <= 0 || k.rules == [] { return false; }
    var seen: set<Dataset> := {};
    for i := 0 to |k.rules|
      invariant seen == set j | 0 <= j < i :: k.rules[j].dataset
      invariant forall j :: 0 <= j < i ==> k.rules[j].dataset.name in KNOWN && k.rules[j].retain >= 0
      invariant forall a, b :: 0 <= a < b < i ==> k.rules[a].dataset != k.rules[b].dataset
    {
      var rule := k.rules[i];
      if rule.dataset.name !in KNOWN || rule.retain < 0 { return false; }
      if rule.dataset in seen { return false; }
      seen := seen + {rule.dataset};
    }
    return true;
  }

  // ---------- counting what was removed ----------

  function Of(m: map<Dataset, int>, d: Dataset): int { if d in m then m[d] else 0 }

  /** The rows of one dataset that are gone. */
  ghost function Gone(before: set<Entry>, now: set<Entry>, d: Dataset): set<Entry> {
    set e | e in before && e !in now && e.dataset == d
  }

  /** deleted is base plus exactly the rows that went away. */
  ghost predicate Counted(before: set<Entry>, now: set<Entry>, base: map<Dataset, int>, deleted: map<Dataset, int>) {
    forall d :: Of(deleted, d) == Of(base, d) + |Gone(before, now, d)|
  }

  ghost predicate AtMost(before: set<Entry>, now: set<Entry>, base: map<Dataset, int>, deleted: map<Dataset, int>) {
    forall d :: Of(base, d) <= Of(deleted, d) <= Of(base, d) + |Gone(before, now, d)|
  }

  lemma GoneSplits(before: set<Entry>, mid: set<Entry>, now: set<Entry>, d: Dataset)
    requires now <= mid <= before
    ensures |Gone(before, now, d)| == |Gone(before, mid, d)| + |Gone(mid, now, d)|
  {
    assert Gone(before, now, d) == Gone(before, mid, d) + Gone(mid, now, d);
  }

  lemma CountedAdds(before: set<Entry>, mid: set<Entry>, now: set<Entry>,
                    x: map<Dataset, int>, y: map<Dataset, int>, z: map<Dataset, int>)
    requires now <= mid <= before && Counted(before, mid, x, y)
    ensures Counted(mid, now, y, z) ==> Counted(before, now, x, z)
    ensures AtMost(mid, now, y, z) ==> AtMost(before, now, x, z)
  {
    hide Of, Gone;
    forall d ensures |Gone(before, now, d)| == |Gone(before, mid, d)| + |Gone(mid, now, d)| {
      GoneSplits(before, mid, now, d);
    }
  }

  lemma AtMostAdds(before: set<Entry>, mid: set<Entry>, now: set<Entry>,
                   x: map<Dataset, int>, y: map<Dataset, int>, z: map<Dataset, int>)
    requires now <= mid <= before && AtMost(before, mid, x, y) && AtMost(mid, now, y, z)
    ensures AtMost(before, now, x, z)
  {
    hide Of, Gone;
    forall d ensures |Gone(before, now, d)| == |Gone(before, mid, d)| + |Gone(mid, now, d)| {
      GoneSplits(before, mid, now, d);
    }
  }

  lemma PurgeCounted(before: set<Entry>, now: set<Entry>, d: Dataset, base: map<Dataset, int>)
    requires now <= before && forall e :: e in before - now ==> e.dataset == d
    ensures Counted(before, now, base, base[d := Of(base, d) + |before - now|])
    ensures AtMost(before, now, base, base)
  {
    assert Gone(before, now, d) == before - now;
    forall x | x != d ensures Gone(before, now, x) == {} {
    }
  }

  // ---------- the world ----------

  datatype Payload = Payload(version: int, asOf: int, fingerprint: string, ruleIndex: int, deleted: map<Dataset, int>)

  /** What happens at one call into the outside: nothing; the context turns out
      to be cancelled; the call fails, perhaps after taking effect; the store
      reports an impossible count; the process dies once the call took effect. */
  datatype Tick = Calm | Cancel | Fail(committed: bool) | Misreport(excess: int) | Crash

  predicate Undisturbed(script: seq<Tick>) { forall i :: 0 <= i < |script| ==> script[i].Calm? }

  datatype Status = Completed | Truncated | Cancelled | PurgeFailed | BadCount | SaveFailed | DiedAfterSave | Crashed
                  | Done | BadConfig | LoadFailed | Mismatch | DeleteFailed | CountFailed

  datatype Options = Options(asOf: Option<int>, dryRun: bool, resume: bool, scope: string)

  datatype Result = Result(deleted: map<Dataset, int>, matched: map<Dataset, int>, failed: set<Dataset>,
                           truncated: set<Dataset>, dryRun: bool)

  /** The stored rows and the checkpoint of the scope. */
  datatype Snap = Snap(rows: set<Entry>, saved: Option<Payload>)

  /** A checkpoint that a run with these options may continue from. */
  predicate Usable(k: Policy, p: Payload, o: Options) {
    && p.version == 1 && p.fingerprint == k.fingerprint && 0 <= p.ruleIndex < |k.rules|
    && (o.asOf.Some? ==> o.asOf.value == p.asOf)
  }

  predicate Resumes(pre: Snap, o: Options) { o.resume && pre.saved.Some? }

  /** The evaluation time a run works with, the rule it starts at and the counts
      it starts from. */
  function AsOf(pre: Snap, o: Options, now: int): int {
    if Resumes(pre, o) then pre.saved.value.asOf else if o.asOf.Some? then o.asOf.value else now
  }

  function First(pre: Snap, o: Options): int { if Resumes(pre, o) then pre.saved.value.ruleIndex else 0 }

  function Base(pre: Snap, o: Options): map<Dataset, int> {
    if Resumes(pre, o) then pre.saved.value.deleted else map[]
  }

  /** rows were reached from pre by removing only eligible rows. */
  ghost predicate Reached(k: Policy, pre: set<Entry>, rows: set<Entry>, asOf: int) {
    rows <= pre && pre - rows <= k.Eligible(pre, asOf)
  }

  /** A checkpoint of this run: everything before its rule is purged. */
  ghost predicate Marks(k: Policy, pre: set<Entry>, rows: set<Entry>, p: Payload, asOf: int, lo: int, base: map<Dataset, int>) {
    && p.version == 1 && p.fingerprint == k.fingerprint && p.asOf == asOf && lo <= p.ruleIndex < |k.rules|
    && k.Purged(rows, lo, p.ruleIndex, asOf)
    && AtMost(pre, rows, base, p.deleted)
  }

  /** The stored checkpoint is the old one or one of this run. */
  ghost predicate Held(k: Policy, pre: Snap, s: Snap, asOf: int, lo: int, base: map<Dataset, int>) {
    s.saved == pre.saved || (s.saved.Some? && Marks(k, pre.rows, s.rows, s.saved.value, asOf, lo, base))
  }

  /** The stored checkpoint says exactly what was removed, or nothing happened yet. */
  ghost predicate OnCheckpoint(k: Policy, pre: Snap, s: Snap, asOf: int, lo: int, base: map<Dataset, int>) {
    s == pre || (s.saved.Some? && Marks(k, pre.rows, s.rows, s.saved.value, asOf, lo, base)
                 && Counted(pre.rows, s.rows, base, s.saved.value.deleted))
  }

  /** Between two batches: rules before i are purged and the checkpoint, unless
      nothing happened yet, names rule i and the counts so far. */
  ghost predicate Between(k: Policy, pre: Snap, s: Snap, asOf: int, lo: int, base: map<Dataset, int>,
                          i: int, deleted: map<Dataset, int>) {
    && Reached(k, pre.rows, s.rows, asOf) && lo <= i < |k.rules|
    && k.Purged(s.rows, lo, i, asOf)
    && Counted(pre.rows, s.rows, base, deleted)
    && (s == pre || s.saved == Some(Payload(1, asOf, k.fingerprint, i, deleted)))
  }

  /** What one executing run does to the store, whatever happens around it. */
  ghost predicate OperatorCall(k: Policy, pre: Snap, post: Snap, o: Options, now: int, deleted: map<Dataset, int>, status: Status) {
    var asOf, lo, base := AsOf(pre, o, now), First(pre, o), Base(pre, o);
    if status in {BadConfig, LoadFailed, Mismatch} then post == pre
    else
      && (Resumes(pre, o) ==> Usable(k, pre.saved.value, o))
      && Reached(k, pre.rows, post.rows, asOf)
      && AtMost(pre.rows, post.rows, base, deleted)
      && (Held(k, pre, post, asOf, lo, base)
          || (post.saved.None? && status in {Done, DeleteFailed, Crashed}
              && k.Purged(post.rows, lo, |k.rules|, asOf)))
      && (status == Done ==>
            && post.saved.None? && k.Purged(post.rows, lo, |k.rules|, asOf)
            && Counted(pre.rows, post.rows, base, deleted))
      && (status in {Truncated, Cancelled, DiedAfterSave} ==> OnCheckpoint(k, pre, post, asOf, lo, base))
      && (status == Truncated ==> post.rows < pre.rows)
  }

  /** A checkpoint that does not belong to this run: of another format or another
      configuration, pointing at no rule, or made at another time than the one asked for. */
  predicate Unfit(k: Policy, saved: Option<Payload>, o: Options) {
    && o.resume && saved.Some?
    && (saved.value.version != 1 || saved.value.fingerprint != k.fingerprint || saved.value.ruleIndex < 0
        || saved.value.ruleIndex >= |k.rules| || (o.asOf.Some? && o.asOf.value != saved.value.asOf))
  }

  /** The first call into the outside fails or is the last thing the process does. */
  predicate LoadFails(script: seq<Tick>) { script != [] && (script[0].Fail? || script[0].Crash?) }

  lemma LoadFailsFirst(script: seq<Tick>)
    ensures LoadFails(script) <==> script != [] && (script[0].Fail? || script[0].Crash?)
  {
  }

  lemma UnfitExactlyWhen(k: Policy, saved: Option<Payload>, o: Options)
    ensures Unfit(k, saved, o) <==> o.resume && saved.Some? && !Usable(k, saved.value, o)
    ensures forall status: Status :: Refusal(status) <==> status == BadConfig || status == LoadFailed || status == Mismatch
  {
  }

  lemma CallIsRipe(k: Policy, pre: Snap, post: Snap, o: Options, now: int, deleted: map<Dataset, int>, status: Status)
    requires OperatorCall(k, pre, post, o, now, deleted, status)
    ensures OnlyRipeGo(k, pre.rows, post.rows, if o.resume && pre.saved.Some? then pre.saved.value.asOf
                                               else if o.asOf.Some? then o.asOf.value else now)
    ensures status == Done && (!o.resume || pre.saved.None?) ==>
              NoneRipe(k, post.rows, if o.asOf.Some? then o.asOf.value else now)
  {
    hide GoesBy, Ripe, OnlyRipeGo, NoneRipe, Counted, AtMost, OnCheckpoint, Held, Policy.Purged, Policy.Eligible;
    if status in {BadConfig, LoadFailed, Mismatch} { assert pre.rows - post.rows == {}; }
    EligibleIsRipe(k, pre.rows, post.rows, AsOf(pre, o, now));
    if status == Done && !Resumes(pre, o) { PurgedIsUnripe(k, post.rows, AsOf(pre, o, now)); }
  }

  class World {
    const k: Policy
    var rows: set<Entry>
    var saved: Option<Payload>
    var script: seq<Tick>

    constructor (k: Policy, rows: set<Entry>, saved: Option<Payload>, script: seq<Tick>)
      ensures this.k == k && this.rows == rows && this.saved == saved && this.script == script
    {
      this.k, this.rows, this.saved, this.script := k, rows, saved, script;
    }

    method Step() returns (t: Tick)
      modifies this`script
      ensures old(script) == [] ==> t == Calm && script == []
      ensures old(script) != [] ==> t == old(script)[0] && script == old(script)[1..]
      ensures Undisturbed(old(script)) ==> t == Calm && Undisturbed(script)
    {
      if script == [] { return Calm; }
      t := script[0];
      script := script[1..];
    }

    /** Whether the caller's context has been cancelled. */
    method Stopped() returns (stop: bool)
      modifies this`script
      ensures Undisturbed(old(script)) ==> !stop && Undisturbed(script)
    {
      var t := Step();
      stop := t.Cancel?;
    }

    /** Any of the rows, up to one batch, and all of them if they are fewer. */
    method Batched(expired: set<Entry>) returns (batch: set<Entry>)
      requires k.batch > 0
      ensures batch <= expired && |batch| <= k.batch
      ensures |batch| < k.batch ==> batch == expired
    {
      var left := expired;
      batch := {};
      while left != {} && |batch| < k.batch
        invariant batch <= expired && left == expired - batch && |batch| <= k.batch
        decreases |left|
      {
        var e :| e in left;
        left, batch := left - {e}, batch + {e};
      }
    }

    /** The store removes up to one batch of expired rows and reports how many. */
    method PurgeExpired(i: int, asOf: int) returns (deleted: int, t: Tick)
      requires k.Valid() && 0 <= i < |k.rules|
      modifies this`rows, this`script
      ensures Batch(k, Snap(old(rows), saved), Snap(rows, saved), i, asOf)
      ensures t.Calm? || t.Cancel? || t.Crash? ==> deleted == |old(rows) - rows| <= k.batch
      ensures t.Calm? || t.Cancel? || t.Crash? ==> deleted < k.batch ==> k.Expired(i, rows, asOf) == {}
      ensures rows <= old(rows) && OnlyRipeGo(k, old(rows), rows, asOf)
      ensures forall e :: e in old(rows) - rows ==> e.dataset == k.rules[i].dataset
      ensures t.Misreport? ==> deleted < 0 || deleted > k.batch
      ensures Undisturbed(old(script)) ==> t.Calm? && Undisturbed(script)
    {
      hide GoesBy, Ripe, OnlyRipeGo, Policy.Eligible;
      t := Step();
      deleted := 0;
      if t.Fail? && !t.committed {
        ExpiredIsRipe(k, rows, rows, i, asOf);
        return;
      }
      var removed := Batched(k.Expired(i, rows, asOf));
      rows := rows - removed;
      assert old(rows) - rows == removed;
      assert k.Expired(i, rows, asOf) == k.Expired(i, old(rows), asOf) - removed;
      ExpiredIsRipe(k, old(rows), rows, i, asOf);
      deleted := |removed|;
      if t.Misreport? { deleted := if t.excess < 0 then t.excess else k.batch + 1 + t.excess; }
    }

    method SaveCheckpoint(p: Payload) returns (t: Tick)
      modifies this`saved, this`script
      ensures if t.Fail? && !t.committed then saved == old(saved) else saved == Some(p)
      ensures Undisturbed(old(script)) ==> t.Calm? && Undisturbed(script)
    {
      t := Step();
      if !t.Fail? || t.committed { saved := Some(p); }
    }

    method DeleteCheckpoint() returns (t: Tick)
      modifies this`saved, this`script
      ensures if t.Fail? && !t.committed then saved == old(saved) else saved == None
      ensures Undisturbed(old(script)) ==> t.Calm? && Undisturbed(script)
    {
      t := Step();
      if !t.Fail? || t.committed { saved := None; }
    }

    /** The batches of one rule in an operator run. */
    method RunRule(i: int, asOf: int, before: map<Dataset, int>, ghost pre: Snap, ghost lo: int, ghost base: map<Dataset, int>)
      returns (deleted: map<Dataset, int>, status: Status)
      requires k.Valid() && k.batch > 0 && k.most > 0 && 0 <= lo <= i < |k.rules|
      requires Between(k, pre, Snap(rows, saved), asOf, lo, base, i, before)
      modifies this`rows, this`saved, this`script
      ensures status in {Completed, Truncated, Cancelled, PurgeFailed, BadCount, SaveFailed, DiedAfterSave, Crashed}
      ensures AfterRule(k, pre, Snap(rows, saved), asOf, lo, base, i, deleted, status)
      ensures rows <= old(rows) && (status == Truncated ==> |old(rows) - rows| == k.most * k.batch)
      ensures Undisturbed(old(script)) ==> Undisturbed(script) && status in {Completed, Truncated}
    {
      hide *;
      deleted := before;
      var batch := 0;
      ghost var start := rows;
      assert start - rows == {};
      while batch < k.most
        invariant 0 <= batch <= k.most
        invariant Between(k, pre, Snap(rows, saved), asOf, lo, base, i, deleted)
        invariant batch > 0 ==> rows < pre.rows
        invariant rows <= start && |start - rows| == batch * k.batch
        invariant Undisturbed(old(script)) ==> Undisturbed(script)
      {
        ghost var s := Snap(rows, saved);
        var stop := Stopped();
        if stop {
          CutHere(k, pre, s, asOf, lo, base, i, deleted, Cancelled);
          return deleted, Cancelled;
        }
        var count, t := PurgeExpired(i, asOf);
        ghost var mid := Snap(rows, saved);
        AfterPurge(k, pre, s, mid, asOf, lo, base, i, deleted);
        if t.Crash? { return deleted, Crashed; }
        if t.Fail? { return deleted, PurgeFailed; }
        if count < 0 || count > k.batch { return deleted, BadCount; }
        ghost var was := deleted;
        var d := k.rules[i].dataset;
        deleted := deleted[d := Of(deleted, d) + count];
        var last := count < k.batch;
        var next := if last then i + 1 else i;
        BatchCounts(k, pre, s, mid, asOf, lo, base, i, was, deleted, last);
        if next < |k.rules| {
          var p := Payload(1, asOf, k.fingerprint, next, deleted);
          var saving := SaveCheckpoint(p);
          BatchSaved(k, pre, mid, Snap(rows, saved), asOf, lo, base, i, deleted, last, p);
          if saving.Fail? { return deleted, SaveFailed; }
          if saving.Crash? { return deleted, DiedAfterSave; }
        }
        if last { return deleted, Completed; }
        FullBatch(start, s.rows, rows, batch, k.batch);
        batch := batch + 1;
      }
      CutHere(k, pre, Snap(rows, saved), asOf, lo, base, i, deleted, Truncated);
      return deleted, Truncated;
    }

    /** Dry run: exact counts, nothing written, a failing dataset does not stop the rest. */
    method CountAll(asOf: int) returns (matched: map<Dataset, int>, failed: set<Dataset>, status: Status)
      requires k.Valid()
      modifies this`script
      ensures status in {Done, CountFailed, Cancelled, BadCount}
      ensures status in {Done, CountFailed} ==>
                forall i :: 0 <= i < |k.rules| ==>
                  k.rules[i].dataset in failed || Of(matched, k.rules[i].dataset) == |k.Expired(i, rows, asOf)|
      ensures status == Done <==> failed == {} && status in {Done, CountFailed}
      ensures status == Done ==> CountsRipe(k, rows, asOf, matched)
    {
      hide GoesBy, Ripe, CountsRipe;
      matched, failed, status := map[], {}, Done;
      for i := 0 to |k.rules|
        invariant status == Done
        invariant forall j :: 0 <= j < i ==>
                    k.rules[j].dataset in failed || Of(matched, k.rules[j].dataset) == |k.Expired(j, rows, asOf)|
      {
        var stop := Stopped();
        if stop { return matched, failed, Cancelled; }
        var t := Step();
        if t.Misreport? { return matched, failed, BadCount; }
        if t.Fail? {
          failed := failed + {k.rules[i].dataset};
        } else {
          matched := matched[k.rules[i].dataset := |k.Expired(i, rows, asOf)|];
        }
      }
      if failed != {} { status := CountFailed; } else { CountedIsRipe(k, rows, asOf, matched); }
    }

    /** An operator's run: a dry-run count, or a run that resumes from a checkpoint. */
    method RunOperator(o: Options, now: int) returns (result: Result, status: Status)
      requires k.Valid()
      modifies this`rows, this`saved, this`script
      ensures result.dryRun == o.dryRun
      ensures !o.dryRun && o.resume && status != BadConfig && LoadFails(old(script)) ==> status == LoadFailed
      ensures o.dryRun ==> rows == old(rows) && saved == old(saved) && result.deleted == map[]
      ensures o.dryRun && status == Done ==>
                forall i :: 0 <= i < |k.rules| ==>
                  Of(result.matched, k.rules[i].dataset) == |k.Expired(i, rows, if o.asOf.Some? then o.asOf.value else now)|
      ensures o.dryRun && status == Done ==> CountsRipe(k, rows, if o.asOf.Some? then o.asOf.value else now, result.matched)
      ensures !o.dryRun ==> OperatorCall(k, Snap(old(rows), old(saved)), Snap(rows, saved), o, now, result.deleted, status)
      ensures !o.dryRun ==>
                OnlyRipeGo(k, old(rows), rows, if o.resume && old(saved).Some? then old(saved).value.asOf
                                               else if o.asOf.Some? then o.asOf.value else now)
      ensures !o.dryRun && status == Done && (!o.resume || old(saved).None?) ==>
                NoneRipe(k, rows, if o.asOf.Some? then o.asOf.value else now)
      ensures !o.dryRun && Unfit(k, old(saved), o) ==> rows == old(rows) && saved == old(saved) && Refusal(status)
      ensures !o.dryRun && Undisturbed(old(script)) ==> (status == Mismatch <==> status != BadConfig && Unfit(k, old(saved), o))
      ensures !o.dryRun && status == BadConfig <==>
                !o.dryRun && (Reencryption.TrimSpace(o.scope) == "" || |Reencryption.TrimSpace(o.scope)| > 255)
      ensures !o.dryRun && status == Truncated ==> |old(rows) - rows| >= k.most * k.batch
      ensures !o.dryRun ==> (result.truncated != {} <==> status == Truncated)
      ensures !o.dryRun ==> (result.failed != {} <==> status in {PurgeFailed, BadCount})
      ensures !o.dryRun && Undisturbed(old(script)) ==>
                Undisturbed(script) && status in {Done, Truncated, BadConfig, Mismatch}
    {
      hide GoesBy, Ripe, OnlyRipeGo, NoneRipe, CountsRipe, OperatorCall, Unfit, LoadFails;
      if o.dryRun {
        var matched, failed;
        matched, failed, status := CountAll(if o.asOf.Some? then o.asOf.value else now);
        return Result(map[], matched, failed, {}, true), status;
      }
      var deleted, at;
      deleted, at, status := Execute(o, now);
      CallIsRipe(k, Snap(old(rows), old(saved)), Snap(rows, saved), o, now, deleted, status);
      result := Result(deleted, map[], {}, {}, false);
      if status in {PurgeFailed, BadCount} { result := result.(failed := {k.rules[at].dataset}); }
      if status == Truncated { result := result.(truncated := {k.rules[at].dataset}); }
    }

    /** The executing half of an operator's run; at is the rule it stopped at. */
    method Execute(o: Options, now: int) returns (deleted: map<Dataset, int>, at: int, status: Status)
      requires k.Valid()
      modifies this`rows, this`saved, this`script
      ensures OperatorCall(k, Snap(old(rows), old(saved)), Snap(rows, saved), o, now, deleted, status)
      ensures Unfit(k, old(saved), o) ==> rows == old(rows) && saved == old(saved) && Refusal(status)
      ensures o.resume && status != BadConfig && LoadFails(old(script)) ==> status == LoadFailed
      ensures Undisturbed(old(script)) ==> (status == Mismatch <==> status != BadConfig && Unfit(k, old(saved), o))
      ensures status == BadConfig <==> Reencryption.TrimSpace(o.scope) == "" || |Reencryption.TrimSpace(o.scope)| > 255
      ensures status in {PurgeFailed, BadCount, Truncated} ==> 0 <= at < |k.rules|
      ensures status == Truncated ==> |old(rows) - rows| >= k.most * k.batch
      ensures Undisturbed(old(script)) ==>
                Undisturbed(script) && status in {Done, Truncated, BadConfig, Mismatch}
    {
      hide *;
      ghost var pre := Snap(rows, saved);
      deleted, at := map[], 0;
      Refused(k, pre, o, now);
      UnfitExactlyWhen(k, saved, o);
      LoadFailsFirst(script);
      var scope := Reencryption.TrimSpace(o.scope);
      if scope == "" || |scope| > 255 { return deleted, at, BadConfig; }
      var asOf := if o.asOf.Some? then o.asOf.value else now;
      if o.resume {
        var t := Step();
        if t.Fail? || t.Crash? { return deleted, at, LoadFailed; }
        if saved.Some? {
          if !Usable(k, saved.value, o) { return deleted, at, Mismatch; }
          asOf, at, deleted := saved.value.asOf, saved.value.ruleIndex, saved.value.deleted;
        }
      }
      ghost var base := deleted;
      ghost var lo := at;
      Starts(k, pre, o, now, asOf, lo, base);
      while at < |k.rules|
        invariant lo <= at <= |k.rules|
        invariant if at < |k.rules| then Between(k, pre, Snap(rows, saved), asOf, lo, base, at, deleted)
                  else AfterRule(k, pre, Snap(rows, saved), asOf, lo, base, at - 1, deleted, Completed)
        invariant rows <= pre.rows
        invariant Undisturbed(old(script)) ==> Undisturbed(script)
      {
        ghost var was := rows;
        var outcome;
        deleted, outcome := RunRule(at, asOf, deleted, pre, lo, base);
        if outcome != Completed {
          MoreGone(pre.rows, was, rows);
          CallStops(k, pre, Snap(rows, saved), o, now, asOf, lo, base, at, deleted, outcome);
          return deleted, at, outcome;
        }
        NextRule(k, pre, Snap(rows, saved), asOf, lo, base, at, deleted);
        at := at + 1;
      }
      ghost var done := Snap(rows, saved);
      var t := DeleteCheckpoint();
      CallFinishes(k, pre, done, Snap(rows, saved), o, now, asOf, lo, base, deleted);
      if t.Fail? { return deleted, at, DeleteFailed; }
      if t.Crash? { return deleted, at, Crashed; }
      return deleted, at, Done;
    }

    /** The batches of one rule in a service run, without checkpoints. */
    method DrainRule(i: int, asOf: int) returns (count: int, outcome: Status)
      requires k.Valid() && 0 <= i < |k.rules|
      modifies this`rows, this`script
      ensures outcome in {Completed, Truncated, PurgeFailed, BadCount}
      ensures Batch(k, Snap(old(rows), saved), Snap(rows, saved), i, asOf)
      ensures 0 <= count <= |old(rows) - rows|
      ensures outcome in {Completed, Truncated} ==> count == |old(rows) - rows|
      ensures outcome == Completed ==> k.Expired(i, rows, asOf) == {}
      ensures outcome == Truncated ==> count == k.most * k.batch
      ensures Undisturbed(old(script)) ==> Undisturbed(script) && outcome in {Completed, Truncated}
    {
      assert k.most > 0;
      hide *;
      ghost var start := rows;
      NoBatchYet(k, Snap(rows, saved), i, asOf);
      var batch := 0;
      count := 0;
      assert start - rows == {};
      while batch < k.most
        invariant 0 <= batch <= k.most
        invariant Batch(k, Snap(start, saved), Snap(rows, saved), i, asOf)
        invariant count == |start - rows| == batch * k.batch
        invariant Undisturbed(old(script)) ==> Undisturbed(script)
      {
        ghost var was := rows;
        var deleted, t := PurgeExpired(i, asOf);
        BatchTwice(k, start, was, rows, i, asOf, saved);
        if t.Fail? { return count, PurgeFailed; }
        if deleted < 0 || deleted > k.batch { return count, BadCount; }
        count := count + deleted;
        if deleted < k.batch { return count, Completed; }
        NextProduct(batch, k.batch);
        batch := batch + 1;
      }
      return count, Truncated;
    }

    /** The scheduled run: every rule is drained on its own account, so a failing
        dataset does not keep the others from being purged. */
    method Run(now: int) returns (deleted: map<Dataset, int>, failed: set<Dataset>, truncated: set<Dataset>, status: Status)
      requires k.Valid()
      modifies this`rows, this`script
      ensures Reached(k, old(rows), rows, now) && status in {Completed, Cancelled}
      ensures OnlyRipeGo(k, old(rows), rows, now)
      ensures status == Completed && failed == {} && truncated == {} ==> NoneRipe(k, rows, now)
      ensures forall i :: 0 <= i < |k.rules| ==>
                RuleAccount(k, old(rows), rows, now, i, Of(deleted, k.rules[i].dataset),
                            k.rules[i].dataset in failed, k.rules[i].dataset in truncated, status == Cancelled)
      ensures Undisturbed(old(script)) ==> status == Completed && failed == {} && Counted(old(rows), rows, map[], deleted)
    {
      assert k.Distinct();
      hide *;
      deleted, failed, truncated := map[], {}, {};
      ghost var pre := rows;
      NoRuleYet(k, pre, now);
      NothingCounted(pre, map[]);
      for i := 0 to |k.rules|
        invariant Reached(k, pre, rows, now) && rows <= pre
        invariant forall j :: 0 <= j < i ==>
                    RuleAccount(k, pre, rows, now, j, Of(deleted, k.rules[j].dataset),
                                k.rules[j].dataset in failed, k.rules[j].dataset in truncated, false)
        invariant forall j :: i <= j < |k.rules| ==> Untouched(pre, rows, k.rules[j].dataset)
        invariant forall j :: i <= j < |k.rules| ==> k.rules[j].dataset !in failed && k.rules[j].dataset !in truncated && k.rules[j].dataset !in deleted
        invariant Undisturbed(old(script)) ==> Undisturbed(script) && failed == {} && Counted(pre, rows, map[], deleted)
      {
        var stop := Stopped();
        if stop {
          Unreached(k, pre, rows, now);
          RunIsRipe(k, pre, rows, now);
          return deleted, failed, truncated, Cancelled;
        }
        var d := k.rules[i].dataset;
        ghost var was, before := rows, deleted;
        var count, outcome := DrainRule(i, now);
        RuleDrained(k, pre, was, rows, now, i, count, outcome, saved);
        DrainCounted(k, pre, was, rows, now, i, before, count, saved);
        OthersKeep(k, pre, was, rows, now, i, saved);
        if outcome in {PurgeFailed, BadCount} { failed := failed + {d}; }
        if outcome == Truncated { truncated := truncated + {d}; }
        // the source leaves a dataset whose first purge failed out of the map; it then counts zero
        if outcome in {Completed, Truncated} || count > 0 { deleted := deleted[d := count]; }
      }
      RunIsRipe(k, pre, rows, now);
      if failed == {} && truncated == {} { DrainedIsUnripe(k, pre, rows, now, deleted); }
      return deleted, failed, truncated, Completed;
    }
  }

  lemma RunIsRipe(k: Policy, pre: set<Entry>, rows: set<Entry>, now: int)
    requires Reached(k, pre, rows, now)
    ensures OnlyRipeGo(k, pre, rows, now)
  {
    EligibleIsRipe(k, pre, rows, now);
  }

  lemma DrainedIsUnripe(k: Policy, pre: set<Entry>, rows: set<Entry>, now: int, deleted: map<Dataset, int>)
    requires forall i :: 0 <= i < |k.rules| ==> RuleAccount(k, pre, rows, now, i, Of(deleted, k.rules[i].dataset), false, false, false)
    ensures NoneRipe(k, rows, now)
  {
    hide NoneRipe, Of;
    forall e, i | e in rows && 0 <= i < |k.rules| ensures !k.Due(i, e, now) {
      assert RuleAccount(k, pre, rows, now, i, Of(deleted, k.rules[i].dataset), false, false, false);
      assert e !in k.Expired(i, rows, now);
    }
    PurgedIsUnripe(k, rows, now);
  }

  // ---------- the scheduled run ----------

  /** What a scheduled run says of rule i, and what that means for the rows. */
  ghost predicate RuleAccount(k: Policy, pre: set<Entry>, rows: set<Entry>, now: int, i: int, count: int,
                              failed: bool, truncated: bool, cancelled: bool)
    requires 0 <= i < |k.rules|
  {
    var gone := Gone(pre, rows, k.rules[i].dataset);
    && 0 <= count <= |gone| && !(failed && truncated)
    && (!failed ==> count == |gone|)
    && (truncated ==> count == k.most * k.batch)
    && (!failed && !truncated && !cancelled ==> k.Expired(i, rows, now) == {})
  }

  ghost predicate Untouched(pre: set<Entry>, rows: set<Entry>, d: Dataset) {
    Gone(pre, rows, d) == {}
  }

  lemma NoBatchYet(k: Policy, s: Snap, i: int, asOf: int)
    requires 0 <= i < |k.rules|
    ensures Batch(k, s, s, i, asOf)
  {
  }

  lemma NextProduct(n: int, size: int)
    ensures (n + 1) * size == n * size + size
  {
  }

  lemma BatchTwice(k: Policy, start: set<Entry>, was: set<Entry>, rows: set<Entry>, i: int, asOf: int, saved: Option<Payload>)
    requires 0 <= i < |k.rules|
    requires Batch(k, Snap(start, saved), Snap(was, saved), i, asOf) && Batch(k, Snap(was, saved), Snap(rows, saved), i, asOf)
    ensures Batch(k, Snap(start, saved), Snap(rows, saved), i, asOf)
    ensures |start - rows| == |start - was| + |was - rows|
  {
    assert start - rows == (start - was) + (was - rows);
  }

  lemma NoRuleYet(k: Policy, pre: set<Entry>, now: int)
    ensures Reached(k, pre, pre, now)
    ensures forall j :: 0 <= j < |k.rules| ==> Untouched(pre, pre, k.rules[j].dataset)
  {
  }

  /** Cancellation leaves the rules already drained as they were and the others untouched. */
  lemma Unreached(k: Policy, pre: set<Entry>, rows: set<Entry>, now: int)
    ensures forall j, count, f, t :: 0 <= j < |k.rules| && RuleAccount(k, pre, rows, now, j, count, f, t, false) ==>
              RuleAccount(k, pre, rows, now, j, count, f, t, true)
    ensures forall j :: 0 <= j < |k.rules| && Untouched(pre, rows, k.rules[j].dataset) ==>
              RuleAccount(k, pre, rows, now, j, 0, false, false, true)
  {
  }

  lemma OneDataset(k: Policy, pre: set<Entry>, was: set<Entry>, rows: set<Entry>, now: int, i: int, saved: Option<Payload>)
    requires 0 <= i < |k.rules| && was <= pre && Untouched(pre, was, k.rules[i].dataset)
    requires Batch(k, Snap(was, saved), Snap(rows, saved), i, now)
    ensures Gone(pre, rows, k.rules[i].dataset) == was - rows
  {
    forall e | e in was - rows ensures e in Gone(pre, rows, k.rules[i].dataset) {
      assert e in k.Expired(i, was, now);
    }
    assert forall e :: e in pre && e !in was && e.dataset == k.rules[i].dataset ==>
             e in Gone(pre, was, k.rules[i].dataset);
  }

  lemma RuleDrained(k: Policy, pre: set<Entry>, was: set<Entry>, rows: set<Entry>, now: int, i: int,
                    count: int, outcome: Status, saved: Option<Payload>)
    requires 0 <= i < |k.rules| && Reached(k, pre, was, now) && Untouched(pre, was, k.rules[i].dataset)
    requires Batch(k, Snap(was, saved), Snap(rows, saved), i, now)
    requires outcome in {Completed, Truncated, PurgeFailed, BadCount} && 0 <= count <= |was - rows|
    requires outcome in {Completed, Truncated} ==> count == |was - rows|
    requires outcome == Completed ==> k.Expired(i, rows, now) == {}
    requires outcome == Truncated ==> count == k.most * k.batch
    ensures Reached(k, pre, rows, now) && rows <= pre
    ensures RuleAccount(k, pre, rows, now, i, count, outcome in {PurgeFailed, BadCount}, outcome == Truncated, false)
  {
    hide Policy.Expired, Policy.Eligible, Gone;
    OneDataset(k, pre, was, rows, now, i, saved);
    BatchReaches(k, pre, Snap(was, saved), Snap(rows, saved), i, now);
  }

  lemma DrainCounted(k: Policy, pre: set<Entry>, was: set<Entry>, rows: set<Entry>, now: int, i: int,
                     before: map<Dataset, int>, count: int, saved: Option<Payload>)
    requires 0 <= i < |k.rules| && was <= pre && k.rules[i].dataset !in before
    requires Batch(k, Snap(was, saved), Snap(rows, saved), i, now)
    ensures Counted(pre, was, map[], before) && count == |was - rows| ==>
              Counted(pre, rows, map[], before[k.rules[i].dataset := count])
  {
    hide Counted, Gone;
    BatchCounted(k, Snap(was, saved), Snap(rows, saved), i, now, before);
    if Counted(pre, was, map[], before) {
      CountedAdds(pre, was, rows, map[], before, before[k.rules[i].dataset := |was - rows|]);
    }
  }

  /** Draining one rule leaves the account of every other rule as it was. */
  lemma OthersKeep(k: Policy, pre: set<Entry>, was: set<Entry>, rows: set<Entry>, now: int, i: int, saved: Option<Payload>)
    requires 0 <= i < |k.rules| && k.Distinct() && was <= pre
    requires Batch(k, Snap(was, saved), Snap(rows, saved), i, now)
    ensures forall j :: 0 <= j < |k.rules| && j != i ==> k.rules[j].dataset != k.rules[i].dataset
    ensures forall j :: 0 <= j < |k.rules| && j != i && Untouched(pre, was, k.rules[j].dataset) ==>
              Untouched(pre, rows, k.rules[j].dataset)
    ensures forall j, count, f, t :: 0 <= j < |k.rules| && j != i && RuleAccount(k, pre, was, now, j, count, f, t, false) ==>
              RuleAccount(k, pre, rows, now, j, count, f, t, false)
  {
    forall j | 0 <= j < |k.rules| && j != i
      ensures k.rules[j].dataset != k.rules[i].dataset
      ensures Gone(pre, rows, k.rules[j].dataset) == Gone(pre, was, k.rules[j].dataset)
      ensures k.Expired(j, rows, now) == k.Expired(j, was, now)
    {
      assert k.rules[if i < j then i else j].dataset != k.rules[if i < j then j else i].dataset;
      forall e | e in was - rows ensures e.dataset == k.rules[i].dataset {
        assert e in k.Expired(i, was, now);
      }
    }
  }

  // ---------- the steps of a run ----------

  lemma FullBatch(start: set<Entry>, was: set<Entry>, now: set<Entry>, batches: int, size: int)
    requires now <= was <= start && |start - was| == batches * size && |was - now| == size
    ensures |start - now| == (batches + 1) * size
  {
    assert start - now == (start - was) + (was - now);
  }

  lemma MoreGone(start: set<Entry>, was: set<Entry>, now: set<Entry>)
    requires now <= was <= start
    ensures |start - now| >= |was - now|
  {
    assert start - now == (start - was) + (was - now);
  }

  /** After one rule: the run's overall account, and what its outcome adds. */
  ghost predicate AfterRule(k: Policy, pre: Snap, s: Snap, asOf: int, lo: int, base: map<Dataset, int>,
                            i: int, deleted: map<Dataset, int>, status: Status) {
    && 0 <= i < |k.rules|
    && Reached(k, pre.rows, s.rows, asOf)
    && AtMost(pre.rows, s.rows, base, deleted)
    && Held(k, pre, s, asOf, lo, base)
    && (status == Completed ==>
          && Counted(pre.rows, s.rows, base, deleted) && k.Purged(s.rows, lo, i + 1, asOf)
          && (i + 1 < |k.rules| ==> Between(k, pre, s, asOf, lo, base, i + 1, deleted)))
    && (status in {Truncated, Cancelled, DiedAfterSave} ==> OnCheckpoint(k, pre, s, asOf, lo, base))
    && (status == Truncated ==> s.rows < pre.rows)
  }

  /** One batch of rule i: some rows it makes purgeable are gone. */
  ghost predicate Batch(k: Policy, s: Snap, mid: Snap, i: int, asOf: int)
    requires 0 <= i < |k.rules|
  {
    mid.saved == s.saved && mid.rows <= s.rows && s.rows - mid.rows <= k.Expired(i, s.rows, asOf)
  }

  lemma CountedIsAtMost(before: set<Entry>, now: set<Entry>, base: map<Dataset, int>, deleted: map<Dataset, int>)
    requires Counted(before, now, base, deleted)
    ensures AtMost(before, now, base, deleted)
  {
  }

  lemma PurgedShrinks(k: Policy, rows: set<Entry>, fewer: set<Entry>, lo: int, hi: int, asOf: int)
    requires k.Purged(rows, lo, hi, asOf) && fewer <= rows
    ensures k.Purged(fewer, lo, hi, asOf)
  {
  }

  lemma BatchReaches(k: Policy, pre: set<Entry>, s: Snap, mid: Snap, i: int, asOf: int)
    requires 0 <= i < |k.rules| && Reached(k, pre, s.rows, asOf) && Batch(k, s, mid, i, asOf)
    ensures Reached(k, pre, mid.rows, asOf)
  {
    forall e | e in pre - mid.rows ensures e in k.Eligible(pre, asOf) {
      if e in s.rows {
        assert e in s.rows - mid.rows;
      } else {
        assert e in pre - s.rows;
      }
    }
  }

  lemma MarksStay(k: Policy, pre: set<Entry>, rows: set<Entry>, fewer: set<Entry>, p: Payload, asOf: int, lo: int, base: map<Dataset, int>)
    requires fewer <= rows <= pre && Marks(k, pre, rows, p, asOf, lo, base)
    ensures Marks(k, pre, fewer, p, asOf, lo, base)
  {
    hide Of;
    forall d ensures |Gone(pre, rows, d)| <= |Gone(pre, fewer, d)| {
      GoneSplits(pre, rows, fewer, d);
    }
  }

  lemma BatchCounted(k: Policy, s: Snap, mid: Snap, i: int, asOf: int, deleted: map<Dataset, int>)
    requires 0 <= i < |k.rules| && Batch(k, s, mid, i, asOf)
    ensures var d := k.rules[i].dataset;
            Counted(s.rows, mid.rows, deleted, deleted[d := Of(deleted, d) + |s.rows - mid.rows|])
    ensures AtMost(s.rows, mid.rows, deleted, deleted)
  {
    hide Counted, AtMost, Of;
    PurgeCounted(s.rows, mid.rows, k.rules[i].dataset, deleted);
  }

  /** A checkpoint saved between batches is a mark, and exact. */
  lemma BetweenMarks(k: Policy, pre: Snap, s: Snap, asOf: int, lo: int, base: map<Dataset, int>, i: int, deleted: map<Dataset, int>)
    requires Between(k, pre, s, asOf, lo, base, i, deleted)
    ensures Held(k, pre, s, asOf, lo, base) && OnCheckpoint(k, pre, s, asOf, lo, base)
  {
    hide Of, Policy.Purged;
    CountedIsAtMost(pre.rows, s.rows, base, deleted);
  }

  lemma CutHere(k: Policy, pre: Snap, s: Snap, asOf: int, lo: int, base: map<Dataset, int>, i: int,
                deleted: map<Dataset, int>, status: Status)
    requires Between(k, pre, s, asOf, lo, base, i, deleted) && lo >= 0
    requires status == Cancelled || (status == Truncated && s.rows < pre.rows)
    ensures AfterRule(k, pre, s, asOf, lo, base, i, deleted, status)
  {
    hide Policy.Purged, Counted, AtMost, Held, OnCheckpoint, Policy.Eligible;
    BetweenMarks(k, pre, s, asOf, lo, base, i, deleted);
    CountedIsAtMost(pre.rows, s.rows, base, deleted);
  }

  lemma AfterPurge(k: Policy, pre: Snap, s: Snap, mid: Snap, asOf: int, lo: int, base: map<Dataset, int>, i: int,
                   deleted: map<Dataset, int>)
    requires lo >= 0 && Between(k, pre, s, asOf, lo, base, i, deleted) && Batch(k, s, mid, i, asOf)
    ensures AfterRule(k, pre, mid, asOf, lo, base, i, deleted, Crashed)
    ensures AfterRule(k, pre, mid, asOf, lo, base, i, deleted, PurgeFailed)
    ensures AfterRule(k, pre, mid, asOf, lo, base, i, deleted, BadCount)
  {
    hide Policy.Purged, Counted, AtMost, Policy.Eligible, Policy.Expired, Marks, OnCheckpoint;
    BetweenMarks(k, pre, s, asOf, lo, base, i, deleted);
    BatchReaches(k, pre.rows, s, mid, i, asOf);
    BatchCounted(k, s, mid, i, asOf, deleted);
    CountedAdds(pre.rows, s.rows, mid.rows, base, deleted, deleted);
    if s.saved != pre.saved { MarksStay(k, pre.rows, s.rows, mid.rows, s.saved.value, asOf, lo, base); }
  }

  /** The state after a batch was counted and before its checkpoint is saved. */
  ghost predicate Unsaved(k: Policy, pre: Snap, mid: Snap, asOf: int, lo: int, base: map<Dataset, int>,
                          next: int, deleted: map<Dataset, int>) {
    && 0 <= lo <= next <= |k.rules|
    && Reached(k, pre.rows, mid.rows, asOf)
    && k.Purged(mid.rows, lo, next, asOf)
    && Counted(pre.rows, mid.rows, base, deleted)
    && Held(k, pre, mid, asOf, lo, base)
  }

  lemma PurgedExtends(k: Policy, s: Snap, mid: Snap, lo: int, i: int, asOf: int)
    requires 0 <= lo <= i < |k.rules| && k.Purged(s.rows, lo, i, asOf) && mid.rows <= s.rows
    ensures k.Purged(mid.rows, lo, i, asOf)
    ensures k.Expired(i, mid.rows, asOf) == {} ==> k.Purged(mid.rows, lo, i + 1, asOf)
  {
    assert forall e :: e in mid.rows ==> (k.Due(i, e, asOf) <==> e in k.Expired(i, mid.rows, asOf));
  }

  lemma BatchCounts(k: Policy, pre: Snap, s: Snap, mid: Snap, asOf: int, lo: int, base: map<Dataset, int>, i: int,
                    was: map<Dataset, int>, deleted: map<Dataset, int>, last: bool)
    requires lo >= 0 && Between(k, pre, s, asOf, lo, base, i, was) && Batch(k, s, mid, i, asOf)
    requires deleted == was[k.rules[i].dataset := Of(was, k.rules[i].dataset) + |s.rows - mid.rows|]
    requires if last then k.Expired(i, mid.rows, asOf) == {} else |s.rows - mid.rows| > 0
    ensures Unsaved(k, pre, mid, asOf, lo, base, if last then i + 1 else i, deleted)
    ensures last && i + 1 == |k.rules| ==> AfterRule(k, pre, mid, asOf, lo, base, i, deleted, Completed)
    ensures !last ==> mid.rows < pre.rows
  {
    hide Policy.Purged, Counted, AtMost, Policy.Eligible, Policy.Expired, Marks, OnCheckpoint, Of;
    AfterPurge(k, pre, s, mid, asOf, lo, base, i, was);
    BatchCounted(k, s, mid, i, asOf, was);
    CountedAdds(pre.rows, s.rows, mid.rows, base, was, deleted);
    CountedIsAtMost(pre.rows, mid.rows, base, deleted);
    PurgedExtends(k, s, mid, lo, i, asOf);
    if !last { assert s.rows - mid.rows != {}; }
  }

  lemma BatchSaved(k: Policy, pre: Snap, mid: Snap, post: Snap, asOf: int, lo: int, base: map<Dataset, int>, i: int,
                   deleted: map<Dataset, int>, last: bool, p: Payload)
    requires var next := if last then i + 1 else i;
             Unsaved(k, pre, mid, asOf, lo, base, next, deleted) && lo <= i && next < |k.rules|
             && p == Payload(1, asOf, k.fingerprint, next, deleted)
    requires post == mid || post == Snap(mid.rows, Some(p))
    ensures AfterRule(k, pre, post, asOf, lo, base, i, deleted, SaveFailed)
    ensures post.saved == Some(p) ==> AfterRule(k, pre, post, asOf, lo, base, i, deleted, DiedAfterSave)
    ensures post.saved == Some(p) && last ==> AfterRule(k, pre, post, asOf, lo, base, i, deleted, Completed)
    ensures post.saved == Some(p) && !last ==> Between(k, pre, post, asOf, lo, base, i, deleted)
  {
    hide Policy.Purged, Counted, AtMost, Policy.Eligible, Of;
    CountedIsAtMost(pre.rows, mid.rows, base, deleted);
  }

  lemma Refused(k: Policy, pre: Snap, o: Options, now: int)
    ensures forall d: map<Dataset, int> :: OperatorCall(k, pre, pre, o, now, d, BadConfig)
    ensures forall d: map<Dataset, int> :: OperatorCall(k, pre, pre, o, now, d, LoadFailed)
    ensures forall d: map<Dataset, int> :: OperatorCall(k, pre, pre, o, now, d, Mismatch)
  {
  }

  lemma NothingCounted(rows: set<Entry>, base: map<Dataset, int>)
    ensures Counted(rows, rows, base, base)
  {
    assert forall d :: Gone(rows, rows, d) == {};
  }

  ghost predicate Begins(k: Policy, pre: Snap, o: Options, now: int, asOf: int, lo: int, base: map<Dataset, int>) {
    && asOf == AsOf(pre, o, now) && lo == First(pre, o) && base == Base(pre, o)
    && (Resumes(pre, o) ==> Usable(k, pre.saved.value, o))
  }

  lemma Starts(k: Policy, pre: Snap, o: Options, now: int, asOf: int, lo: int, base: map<Dataset, int>)
    requires k.Valid()
    requires if o.resume && pre.saved.Some?
             then Usable(k, pre.saved.value, o) && asOf == pre.saved.value.asOf
                  && lo == pre.saved.value.ruleIndex && base == pre.saved.value.deleted
             else asOf == (if o.asOf.Some? then o.asOf.value else now) && lo == 0 && base == map[]
    ensures Begins(k, pre, o, now, asOf, lo, base) && 0 <= lo < |k.rules|
    ensures Between(k, pre, pre, asOf, lo, base, lo, base)
    ensures k.batch > 0 && k.most > 0
  {
    hide Counted;
    NothingCounted(pre.rows, base);
  }

  lemma NextRule(k: Policy, pre: Snap, s: Snap, asOf: int, lo: int, base: map<Dataset, int>, i: int, deleted: map<Dataset, int>)
    requires AfterRule(k, pre, s, asOf, lo, base, i, deleted, Completed)
    ensures i + 1 < |k.rules| ==> Between(k, pre, s, asOf, lo, base, i + 1, deleted)
  {
  }

  lemma CallStops(k: Policy, pre: Snap, s: Snap, o: Options, now: int, asOf: int, lo: int, base: map<Dataset, int>,
                  i: int, deleted: map<Dataset, int>, status: Status)
    requires Begins(k, pre, o, now, asOf, lo, base)
    requires AfterRule(k, pre, s, asOf, lo, base, i, deleted, status)
    requires status in {Truncated, Cancelled, PurgeFailed, BadCount, SaveFailed, DiedAfterSave, Crashed}
    ensures OperatorCall(k, pre, s, o, now, deleted, status)
  {
    hide Policy.Purged, Counted, AtMost, Reached, Held, OnCheckpoint, AsOf, First, Base, Usable;
  }

  lemma CallFinishes(k: Policy, pre: Snap, s: Snap, post: Snap, o: Options, now: int, asOf: int, lo: int,
                     base: map<Dataset, int>, deleted: map<Dataset, int>)
    requires Begins(k, pre, o, now, asOf, lo, base)
    requires AfterRule(k, pre, s, asOf, lo, base, |k.rules| - 1, deleted, Completed)
    requires post == s || post == Snap(s.rows, None)
    ensures OperatorCall(k, pre, post, o, now, deleted, DeleteFailed)
    ensures OperatorCall(k, pre, post, o, now, deleted, Crashed)
    ensures post.saved == None ==> OperatorCall(k, pre, post, o, now, deleted, Done)
  {
    hide Policy.Purged, Counted, AtMost, Reached, Marks, OnCheckpoint, AsOf, First, Base, Usable, Between;
  }

  // ---------- whole histories of runs ----------

  datatype Call = Call(pre: Snap, post: Snap, o: Options, now: int, deleted: map<Dataset, int>, status: Status)

  /** Executing runs on one scope, each starting where the one before left the store. */
  ghost predicate Chain(k: Policy, calls: seq<Call>)
    decreases |calls|
  {
    && calls != []
    && OperatorCall(k, calls[0].pre, calls[0].post, calls[0].o, calls[0].now, calls[0].deleted, calls[0].status)
    && (|calls| > 1 ==> calls[1].pre == calls[0].post && Chain(k, calls[1..]))
  }

  function Last(calls: seq<Call>): Call
    requires calls != []
  {
    calls[|calls| - 1]
  }

  predicate Refusal(status: Status) { status in {BadConfig, LoadFailed, Mismatch} }

  /** A checkpoint's word: the rules before its index have nothing left to purge. */
  ghost predicate Sound(k: Policy, s: Snap) {
    s.saved.Some? ==> k.Purged(s.rows, 0, s.saved.value.ruleIndex, s.saved.value.asOf)
  }

  lemma PurgedJoins(k: Policy, rows: set<Entry>, lo: int, hi: int, asOf: int)
    requires k.Purged(rows, 0, lo, asOf) && k.Purged(rows, lo, hi, asOf) && 0 <= lo <= hi <= |k.rules|
    ensures k.Purged(rows, 0, hi, asOf)
  {
  }

  /** Rules before the saved index are purged after every run, however it ended;
      a run that finishes leaves nothing any rule would purge. */
  lemma CallKeepsSound(k: Policy, pre: Snap, post: Snap, o: Options, now: int, deleted: map<Dataset, int>, status: Status)
    requires Sound(k, pre) && OperatorCall(k, pre, post, o, now, deleted, status)
    ensures Sound(k, post) && post.rows <= pre.rows
    ensures status == Done ==> k.Purged(post.rows, 0, |k.rules|, AsOf(pre, o, now))
  {
    hide Policy.Purged, Counted, AtMost, OnCheckpoint, Policy.Eligible;
    if !Refusal(status) {
      var asOf, lo := AsOf(pre, o, now), First(pre, o);
      if pre.saved.Some? { PurgedShrinks(k, pre.rows, post.rows, 0, pre.saved.value.ruleIndex, pre.saved.value.asOf); }
      if Resumes(pre, o) {
        if post.saved.Some? && post.saved != pre.saved { PurgedJoins(k, post.rows, lo, post.saved.value.ruleIndex, asOf); }
        if status == Done { PurgedJoins(k, post.rows, lo, |k.rules|, asOf); }
      }
    }
  }

  lemma {:induction false} CheckpointedRulesStayPurged(k: Policy, calls: seq<Call>)
    requires Chain(k, calls) && Sound(k, calls[0].pre)
    ensures Sound(k, Last(calls).post) && Last(calls).post.rows <= calls[0].pre.rows
    ensures Last(calls).status == Done ==>
              k.Purged(Last(calls).post.rows, 0, |k.rules|, AsOf(Last(calls).pre, Last(calls).o, Last(calls).now))
    decreases |calls|
  {
    hide OperatorCall, Sound, Policy.Purged;
    var c := calls[0];
    CallKeepsSound(k, c.pre, c.post, c.o, c.now, c.deleted, c.status);
    if |calls| > 1 { CheckpointedRulesStayPurged(k, calls[1..]); }
  }

  /** Every run that got past its checks worked at a time no later rule set reaches beyond. */
  ghost predicate Within(k: Policy, rows: set<Entry>, calls: seq<Call>, asOf: int)
    decreases |calls|
  {
    calls != [] ==>
      && (Refusal(calls[0].status) ||
          k.Eligible(rows, AsOf(calls[0].pre, calls[0].o, calls[0].now)) <= k.Eligible(rows, asOf))
      && Within(k, rows, calls[1..], asOf)
  }

  lemma {:induction false} OnlyEligibleRowsGo(k: Policy, rows: set<Entry>, calls: seq<Call>, asOf: int)
    requires Chain(k, calls) && Within(k, rows, calls, asOf)
    requires calls[0].pre.rows <= rows && rows - calls[0].pre.rows <= k.Eligible(rows, asOf)
    ensures Last(calls).post.rows <= rows && rows - Last(calls).post.rows <= k.Eligible(rows, asOf)
    decreases |calls|
  {
    hide Counted, AtMost, OnCheckpoint, Held, Policy.Purged, AsOf, First, Base, Usable;
    var c := calls[0];
    if !Refusal(c.status) {
      var t := AsOf(c.pre, c.o, c.now);
      assert k.Eligible(c.pre.rows, t) <= k.Eligible(rows, t);
      assert rows - c.post.rows == (rows - c.pre.rows) + (c.pre.rows - c.post.rows);
    }
    if |calls| > 1 { OnlyEligibleRowsGo(k, rows, calls[1..], asOf); }
  }

  /** Whatever crashed, was truncated and was resumed before it, a finishing run
      leaves the store as one purge at its evaluation time would have. */
  lemma FinishedRunsPurgeOnce(k: Policy, calls: seq<Call>)
    requires Chain(k, calls) && Sound(k, calls[0].pre) && Last(calls).status == Done
    requires Within(k, calls[0].pre.rows, calls, AsOf(Last(calls).pre, Last(calls).o, Last(calls).now))
    ensures var rows, end := calls[0].pre.rows, Last(calls);
            end.post.rows == rows - k.Eligible(rows, AsOf(end.pre, end.o, end.now))
  {
    hide OperatorCall, Within, AsOf, Sound;
    var rows, end := calls[0].pre.rows, Last(calls);
    var asOf := AsOf(end.pre, end.o, end.now);
    CheckpointedRulesStayPurged(k, calls);
    assert rows - rows == {};
    OnlyEligibleRowsGo(k, rows, calls, asOf);
  }

  /** Each run pins the time or finds a checkpoint. */
  ghost predicate Anchored(calls: seq<Call>, asOf: int)
    decreases |calls|
  {
    calls != [] ==>
      && (calls[0].o.asOf == Some(asOf) || Resumes(calls[0].pre, calls[0].o))
      && Anchored(calls[1..], asOf)
  }

  ghost predicate SavedAt(s: Snap, asOf: int) { s.saved.Some? ==> s.saved.value.asOf == asOf }

  lemma CallKeepsAsOf(k: Policy, c: Call, asOf: int)
    requires OperatorCall(k, c.pre, c.post, c.o, c.now, c.deleted, c.status) && SavedAt(c.pre, asOf)
    requires Refusal(c.status) || AsOf(c.pre, c.o, c.now) == asOf
    ensures SavedAt(c.post, asOf)
  {
    hide Policy.Purged, Counted, AtMost, Reached, OnCheckpoint;
  }

  lemma {:induction false} AnchoredRunsShareAsOf(k: Policy, rows: set<Entry>, calls: seq<Call>, asOf: int)
    requires calls != [] ==> Chain(k, calls) && SavedAt(calls[0].pre, asOf)
    requires Anchored(calls, asOf)
    ensures Within(k, rows, calls, asOf)
    ensures calls != [] && Last(calls).status == Done ==> AsOf(Last(calls).pre, Last(calls).o, Last(calls).now) == asOf
    decreases |calls|
  {
    hide OperatorCall;
    if calls != [] {
      var c := calls[0];
      assert AsOf(c.pre, c.o, c.now) == asOf;
      CallKeepsAsOf(k, c, asOf);
      AnchoredRunsShareAsOf(k, rows, calls[1..], asOf);
    }
  }

  /** A finished history removes exactly what was eligible at its first evaluation
      time, if every later run is given that time or finds a checkpoint. */
  lemma FinishedRunsPurgeAtFirstAsOf(k: Policy, calls: seq<Call>)
    requires Chain(k, calls) && calls[0].pre.saved == None && !Refusal(calls[0].status) && Last(calls).status == Done
    requires Anchored(calls[1..], AsOf(calls[0].pre, calls[0].o, calls[0].now))
    ensures var rows, asOf := calls[0].pre.rows, AsOf(calls[0].pre, calls[0].o, calls[0].now);
            Last(calls).post.rows == rows - k.Eligible(rows, asOf)
  {
    hide OperatorCall, Policy.Purged, Policy.Eligible;
    var rows, asOf := calls[0].pre.rows, AsOf(calls[0].pre, calls[0].o, calls[0].now);
    CallKeepsAsOf(k, calls[0], asOf);
    AnchoredRunsShareAsOf(k, rows, calls[1..], asOf);
    if |calls| > 1 { assert Last(calls) == Last(calls[1..]); }
    FinishedRunsPurgeOnce(k, calls);
  }

  /** In the terms of a store that goes by a stamp: such a history removes exactly what
      had been kept for too long at its first evaluation time. */
  lemma FinishedRunsPurgeExactlyTheRipe(k: Policy, calls: seq<Call>, stamp: Entry -> int, ready: (Entry, int) -> bool)
    requires Chain(k, calls) && calls[0].pre.saved == None && !Refusal(calls[0].status) && Last(calls).status == Done
    requires Anchored(calls[1..], AsOf(calls[0].pre, calls[0].o, calls[0].now)) && GoesBy(k, stamp, ready)
    ensures var first := calls[0];
            Last(calls).post.rows ==
              set e | e in first.pre.rows && !Ripe(k, stamp, ready, e, if first.o.asOf.Some? then first.o.asOf.value else first.now)
  {
    hide OperatorCall, Ripe, GoesBy;
    var first := calls[0];
    FinishedRunsPurgeAtFirstAsOf(k, calls);
    var asOf := AsOf(first.pre, first.o, first.now);
    forall e | e in first.pre.rows ensures e in k.Eligible(first.pre.rows, asOf) <==> Ripe(k, stamp, ready, e, asOf) {
      DueIsRipe(k, stamp, ready, e, asOf);
    }
  }

  /** Rows only become eligible as time passes, and runs happen in order. */
  ghost predicate Ages(k: Policy) {
    forall i, e, t, u :: 0 <= i < |k.rules| && t <= u && k.Due(i, e, t) ==> k.Due(i, e, u)
  }

  ghost predicate UpTo(calls: seq<Call>, asOf: int)
    decreases |calls|
  {
    calls != [] ==> AsOf(calls[0].pre, calls[0].o, calls[0].now) <= asOf && UpTo(calls[1..], asOf)
  }

  lemma {:induction false} AgingIsWithin(k: Policy, rows: set<Entry>, calls: seq<Call>, asOf: int)
    requires Ages(k) && UpTo(calls, asOf)
    ensures Within(k, rows, calls, asOf)
    decreases |calls|
  {
    hide AsOf, Policy.Due;
    if calls != [] {
      var t := AsOf(calls[0].pre, calls[0].o, calls[0].now);
      forall e | e in k.Eligible(rows, t) ensures e in k.Eligible(rows, asOf) {
        var i :| 0 <= i < |k.rules| && k.Due(i, e, t);
        assert k.Due(i, e, asOf);
      }
      AgingIsWithin(k, rows, calls[1..], asOf);
    }
  }

  /** With no pinned time and no checkpoint the first evaluation time need not
      govern: it does exactly when no further row became eligible meanwhile. */
  lemma FirstAsOfGovernsExactlyWhen(k: Policy, calls: seq<Call>)
    requires Chain(k, calls) && calls[0].pre.saved == None && Last(calls).status == Done
    requires Ages(k) && UpTo(calls, AsOf(Last(calls).pre, Last(calls).o, Last(calls).now))
    ensures var rows, end := calls[0].pre.rows, Last(calls);
            var first, last := AsOf(calls[0].pre, calls[0].o, calls[0].now), AsOf(end.pre, end.o, end.now);
            end.post.rows == rows - k.Eligible(rows, first) <==> k.Eligible(rows, first) == k.Eligible(rows, last)
  {
    hide OperatorCall, Policy.Purged, Policy.Eligible, AsOf, Ages;
    var rows, end := calls[0].pre.rows, Last(calls);
    var first, last := AsOf(calls[0].pre, calls[0].o, calls[0].now), AsOf(end.pre, end.o, end.now);
    AgingIsWithin(k, rows, calls, last);
    FinishedRunsPurgeOnce(k, calls);
    EligibleIsSubset(k, rows, first);
    EligibleIsSubset(k, rows, last);
    if end.post.rows == rows - k.Eligible(rows, first) {
      assert k.Eligible(rows, first) == rows - end.post.rows == k.Eligible(rows, last);
    }
  }

  lemma EligibleIsSubset(k: Policy, rows: set<Entry>, asOf: int)
    ensures k.Eligible(rows, asOf) <= rows
  {
  }

  // ---------- reported counts ----------

  /** The stored counts never exceed what is gone from the initial rows. */
  ghost predicate Underreports(rows: set<Entry>, s: Snap) {
    s.rows <= rows && (s.saved.Some? ==> AtMost(rows, s.rows, map[], s.saved.value.deleted))
  }

  lemma AtMostShrinks(before: set<Entry>, mid: set<Entry>, now: set<Entry>, base: map<Dataset, int>, deleted: map<Dataset, int>)
    requires now <= mid <= before
    ensures AtMost(before, mid, base, deleted) ==> AtMost(before, now, base, deleted)
    ensures AtMost(mid, now, base, deleted) ==> AtMost(before, now, base, deleted)
  {
    hide Of, Gone;
    forall d ensures |Gone(before, now, d)| == |Gone(before, mid, d)| + |Gone(mid, now, d)| {
      GoneSplits(before, mid, now, d);
    }
  }

  lemma BaseAdds(rows: set<Entry>, pre: Snap, post: set<Entry>, o: Options, deleted: map<Dataset, int>)
    requires Underreports(rows, pre) && post <= pre.rows && AtMost(pre.rows, post, Base(pre, o), deleted)
    ensures AtMost(rows, post, map[], deleted)
  {
    hide AtMost;
    if Resumes(pre, o) {
      AtMostAdds(rows, pre.rows, post, map[], Base(pre, o), deleted);
    } else {
      AtMostShrinks(rows, pre.rows, post, map[], deleted);
    }
  }

  lemma CallUnderreports(k: Policy, rows: set<Entry>, c: Call)
    requires OperatorCall(k, c.pre, c.post, c.o, c.now, c.deleted, c.status) && Underreports(rows, c.pre)
    ensures Underreports(rows, c.post)
    ensures !Refusal(c.status) ==> AtMost(rows, c.post.rows, map[], c.deleted)
  {
    hide AtMost, Counted, OnCheckpoint, Policy.Purged, Base, AsOf, First;
    if !Refusal(c.status) {
      BaseAdds(rows, c.pre, c.post.rows, c.o, c.deleted);
      if c.post.saved == c.pre.saved {
        if c.pre.saved.Some? { AtMostShrinks(rows, c.pre.rows, c.post.rows, map[], c.pre.saved.value.deleted); }
      } else if c.post.saved.Some? {
        BaseAdds(rows, c.pre, c.post.rows, c.o, c.post.saved.value.deleted);
      }
    }
  }

  /** However runs crash or fail, the reported total never exceeds the rows removed. */
  lemma {:induction false} ReportedNeverExceedsRemoved(k: Policy, rows: set<Entry>, calls: seq<Call>)
    requires Chain(k, calls) && Underreports(rows, calls[0].pre)
    ensures Underreports(rows, Last(calls).post)
    ensures !Refusal(Last(calls).status) ==> AtMost(rows, Last(calls).post.rows, map[], Last(calls).deleted)
    decreases |calls|
  {
    hide OperatorCall, Underreports, AtMost;
    CallUnderreports(k, rows, calls[0]);
    if |calls| > 1 { ReportedNeverExceedsRemoved(k, rows, calls[1..]); }
  }

  /** Every run resumes, and each but the last was cut right on a checkpoint. */
  ghost predicate CutOnCheckpoints(calls: seq<Call>)
    decreases |calls|
  {
    calls != [] ==>
      && calls[0].o.resume
      && (|calls| > 1 ==> Refusal(calls[0].status) || calls[0].status in {Truncated, Cancelled, DiedAfterSave})
      && CutOnCheckpoints(calls[1..])
  }

  ghost predicate Exact(rows: set<Entry>, s: Snap) {
    s.rows <= rows && if s.saved.Some? then Counted(rows, s.rows, map[], s.saved.value.deleted) else s.rows == rows
  }

  lemma ExactAdds(rows: set<Entry>, pre: Snap, post: set<Entry>, o: Options, deleted: map<Dataset, int>)
    requires Exact(rows, pre) && o.resume && post <= pre.rows && Counted(pre.rows, post, Base(pre, o), deleted)
    ensures Counted(rows, post, map[], deleted)
  {
    hide Counted, AtMost;
    if pre.saved.Some? { CountedAdds(rows, pre.rows, post, map[], Base(pre, o), deleted); }
  }

  /** When every cut falls on a checkpoint the final report is exact, per dataset. */
  lemma {:induction false} ReportedEqualsRemoved(k: Policy, rows: set<Entry>, calls: seq<Call>)
    requires Chain(k, calls) && Exact(rows, calls[0].pre) && CutOnCheckpoints(calls) && Last(calls).status == Done
    ensures Counted(rows, Last(calls).post.rows, map[], Last(calls).deleted)
    decreases |calls|
  {
    hide AtMost, Counted, Policy.Purged, Base, AsOf, First, Held;
    var c := calls[0];
    if |calls| == 1 {
      ExactAdds(rows, c.pre, c.post.rows, c.o, c.deleted);
    } else {
      if !Refusal(c.status) && c.post != c.pre {
        ExactAdds(rows, c.pre, c.post.rows, c.o, c.post.saved.value.deleted);
      }
      ReportedEqualsRemoved(k, rows, calls[1..]);
    }
  }

  /** Truncated runs make progress, so only so many can follow one another. */
  lemma {:induction false} TruncatedRunsAreBounded(k: Policy, calls: seq<Call>)
    requires Chain(k, calls) && forall i :: 0 <= i < |calls| ==> calls[i].status == Truncated
    ensures |calls| <= |calls[0].pre.rows| - |Last(calls).post.rows|
    decreases |calls|
  {
    hide AtMost, Counted, Policy.Purged, Policy.Eligible, OnCheckpoint, Held;
    var c := calls[0];
    MoreGone(c.pre.rows, c.pre.rows, c.post.rows);
    assert |c.pre.rows| == |c.post.rows| + |c.pre.rows - c.post.rows| by {
      assert c.pre.rows == c.post.rows + (c.pre.rows - c.post.rows);
    }
    assert c.pre.rows - c.post.rows != {};
    if |calls| > 1 { TruncatedRunsAreBounded(k, calls[1..]); }
  }

  // ---------- a concrete history in which the first time does not govern ----------

  const AUDIT := Dataset("audit_events")

  function AuditPolicy(): Policy {
    Policy([Rule(AUDIT, 0)], 1, 5, "f", (e: Entry, before: int, asOf: int) => e.id < before)
  }

  /** A run at time 10 dies after its first delete; its successor, resuming with
      no checkpoint at time 20, also removes a row that was not eligible at 10. */
  lemma CrashBeforeCheckpointMovesAsOf()
    ensures var old5, young15 := Entry(AUDIT, 5), Entry(AUDIT, 15);
            var o := Options(None, false, true, "scope");
            var calls := [Call(Snap({old5, young15}, None), Snap({young15}, None), o, 10, map[], Crashed),
                          Call(Snap({young15}, None), Snap({}, None), o, 20, map[AUDIT := 1], Done)];
            && Chain(AuditPolicy(), calls)
            && Last(calls).post.rows != calls[0].pre.rows - AuditPolicy().Eligible(calls[0].pre.rows, 10)
  {
    var k := AuditPolicy();
    var old5, young15 := Entry(AUDIT, 5), Entry(AUDIT, 15);
    var o := Options(None, false, true, "scope");
    var a, b, c := Snap({old5, young15}, None), Snap({young15}, None), Snap({}, None);
    assert k.Due(0, old5, 10) && !k.Due(0, young15, 10) && k.Due(0, young15, 20);
    assert a.rows - b.rows == {old5} && b.rows - c.rows == {young15};
    PurgeCounted(a.rows, b.rows, AUDIT, map[]);
    PurgeCounted(b.rows, c.rows, AUDIT, map[]);
    CountedIsAtMost(b.rows, c.rows, map[], map[AUDIT := 1]);
    assert OperatorCall(k, a, b, o, 10, map[], Crashed);
    assert OperatorCall(k, b, c, o, 20, map[AUDIT := 1], Done);
    var calls := [Call(a, b, o, 10, map[], Crashed), Call(b, c, o, 20, map[AUDIT := 1], Done)];
    assert Chain(k, calls[1..]);
    assert young15 !in k.Eligible(a.rows, 10);
  }
}
