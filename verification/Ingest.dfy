/** Custom activity ingest over the in-memory store: validation, a first-wins
    ledger, a projection that a retry repairs, and same-key replay. */
module Ingest {
  import opened Keyset

  const MAX_BATCH := 1000
  const MAX_VALUE := 1_000_000
  const MAX_ALLOWED := 64
  const MAX_EVENT_ID := 255
  const MAX_PROPERTIES := 50
  const MAX_PROPERTY := 1000
  const MIN_KEY := 8
  const MAX_KEY := 255
  const RETENTION := 24 * 60 * 60

  // ---------- calendar days ----------

  datatype Day = Day(year: int, month: int, day: int)

  predicate Earlier(a: Day, b: Day) {
    a.year < b.year || (a.year == b.year && (a.month < b.month || (a.month == b.month && a.day < b.day)))
  }

  predicate Leap(year: int) { year % 4 == 0 && (year % 100 != 0 || year % 400 == 0) }

  function DaysIn(year: int, month: int): int {
    if month == 2 then (if Leap(year) then 29 else 28)
    else if month in {4, 6, 9, 11} then 30 else 31
  }

  predicate Real(d: Day) { 1 <= d.month <= 12 && 1 <= d.day <= DaysIn(d.year, d.month) }

  function Digit(c: char): int { if '0' <= c <= '9' then c as int - '0' as int else -1 }

  function Digits(s: string): int {
    if s == [] then 0
    else
      var rest, last := Digits(s[..|s| - 1]), Digit(s[|s| - 1]);
      if rest < 0 || last < 0 then -1 else 10 * rest + last
  }

  /** A day written exactly as YYYY-MM-DD. */
  function ParseDay(s: string): Option<Day> {
    if |s| != 10 || s[4] != '-' || s[7] != '-' then None
    else
      var d := Day(Digits(s[..4]), Digits(s[5..7]), Digits(s[8..]));
      if d.year < 0 || !Real(d) then None else Some(d)
  }

  /** The same day ten years before; 29 February may become 1 March. */
  function TenYearsBefore(d: Day): Day {
    if d.month == 2 && d.day == 29 && !Leap(d.year - 10) then Day(d.year - 10, 3, 1) else d.(year := d.year - 10)
  }

  function Tomorrow(d: Day): Day {
    if d.day < DaysIn(d.year, d.month) then d.(day := d.day + 1)
    else if d.month < 12 then Day(d.year, d.month + 1, 1)
    else Day(d.year + 1, 1, 1)
  }

  /** A call's clock reading, in seconds and as a day. */
  datatype Instant = Instant(seconds: int, today: Day)

  // ---------- validation ----------

  datatype Property = Property(key: string, value: string)

  /** Metadata is listed in the order in which the validation loop meets it. */
  datatype Activity = Activity(externalID: string, date: string, action: string, metric: string, value: int,
                               metadata: seq<Property>, observedAt: Option<int>)

  datatype Provider = Provider(id: string, subject: string, environment: string, active: bool, secret: string,
                               actions: seq<string>, metrics: seq<string>)

  datatype Code = EventIDRequired | EventIDTooLong | DateRequired | InvalidDate | DateOutOfRange
                | ActionRequired | ActionTooLong | ActionNotAllowed | MetricRequired | MetricTooLong | MetricNotAllowed
                | NegativeValue | ValueTooLarge | TooManyProperties | InvalidPropertyKey | PropertyTooLong

  predicate KeyChar(c: char) {
    'a' <= c <= 'z' || 'A' <= c <= 'Z' || '0' <= c <= '9' || c in "._:-"
  }

  predicate GoodKey(key: string) { 1 <= |key| <= 128 && forall i :: 0 <= i < |key| ==> KeyChar(key[i]) }

  predicate GoodProperty(p: Property) { GoodKey(p.key) && |p.value| <= MAX_PROPERTY }

  function CheckProperties(m: seq<Property>): (code: Option<Code>)
    ensures code.None? <==> forall i :: 0 <= i < |m| ==> GoodProperty(m[i])
  {
    if m == [] then None
    else if !GoodKey(m[0].key) then Some(InvalidPropertyKey)
    else if |m[0].value| > MAX_PROPERTY then Some(PropertyTooLong)
    else
      assert m == [m[0]] + m[1..];
      CheckProperties(m[1..])
  }

  predicate InRange(d: Day, today: Day) {
    !Earlier(d, TenYearsBefore(today)) && !Earlier(Tomorrow(today), d)
  }

  /** Everything a valid event satisfies, in no particular order. */
  predicate Acceptable(p: Provider, a: Activity, now: Instant) {
    && 1 <= |a.externalID| <= MAX_EVENT_ID
    && ParseDay(a.date).Some? && InRange(ParseDay(a.date).value, now.today)
    && 1 <= |a.action| <= MAX_ALLOWED && a.action in p.actions
    && 1 <= |a.metric| <= MAX_ALLOWED && a.metric in p.metrics
    && 0 <= a.value <= MAX_VALUE
    && |a.metadata| <= MAX_PROPERTIES && (forall i :: 0 <= i < |a.metadata| ==> GoodProperty(a.metadata[i]))
  }

  /** The first check an event fails, in the order the checks are made. */
  function Validate(p: Provider, a: Activity, now: Instant): (code: Option<Code>)
    ensures code.None? <==> Acceptable(p, a, now)
  {
    if a.externalID == "" then Some(EventIDRequired)
    else if |a.externalID| > MAX_EVENT_ID then Some(EventIDTooLong)
    else if a.date == "" then Some(DateRequired)
    else if ParseDay(a.date).None? then Some(InvalidDate)
    else if !InRange(ParseDay(a.date).value, now.today) then Some(DateOutOfRange)
    else if a.action == "" then Some(ActionRequired)
    else if |a.action| > MAX_ALLOWED then Some(ActionTooLong)
    else if a.action !in p.actions then Some(ActionNotAllowed)
    else if a.metric == "" then Some(MetricRequired)
    else if |a.metric| > MAX_ALLOWED then Some(MetricTooLong)
    else if a.metric !in p.metrics then Some(MetricNotAllowed)
    else if a.value < 0 then Some(NegativeValue)
    else if a.value > MAX_VALUE then Some(ValueTooLarge)
    else if |a.metadata| > MAX_PROPERTIES then Some(TooManyProperties)
    else CheckProperties(a.metadata)
  }

  // ---------- the ledger ----------

  datatype EventKey = EventKey(provider: string, id: string)

  datatype Entry = Entry(key: EventKey, subject: string, activity: Activity, ingestedAt: int)

  datatype Rejection = Rejection(eventID: string, code: Code, index: int)

  type Ledger = map<EventKey, Entry>

  function EntryOf(p: Provider, a: Activity, now: Instant): Entry {
    Entry(EventKey(p.id, a.externalID), p.subject, a, now.seconds)
  }

  /** The valid events of a batch, in order, as ledger entries. */
  function Prepared(p: Provider, batch: seq<Activity>, now: Instant): seq<Entry> {
    if batch == [] then []
    else
      var n := |batch| - 1;
      Prepared(p, batch[..n], now) + (if Validate(p, batch[n], now).None? then [EntryOf(p, batch[n], now)] else [])
  }

  function Rejected(p: Provider, batch: seq<Activity>, now: Instant): seq<Rejection> {
    if batch == [] then []
    else
      var n := |batch| - 1;
      var code := Validate(p, batch[n], now);
      Rejected(p, batch[..n], now) + (if code.Some? then [Rejection(batch[n].externalID, code.value, n)] else [])
  }

  /** Entering events one after another; an ID already present keeps its entry. */
  function Entered(ledger: Ledger, entries: seq<Entry>): Ledger {
    if entries == [] then ledger
    else
      var before, e := Entered(ledger, entries[..|entries| - 1]), entries[|entries| - 1];
      if e.key in before then before else before[e.key := e]
  }

  /** The events that were new. */
  function New(ledger: Ledger, entries: seq<Entry>): seq<Entry> {
    if entries == [] then []
    else
      var n := |entries| - 1;
      New(ledger, entries[..n]) + (if entries[n].key in Entered(ledger, entries[..n]) then [] else [entries[n]])
  }

  /** The keys asked for, each where it occurs first. */
  function Distinct(entries: seq<Entry>): seq<EventKey> {
    if entries == [] then []
    else
      var before, key := Distinct(entries[..|entries| - 1]), entries[|entries| - 1].key;
      if key in before then before else before + [key]
  }

  lemma {:induction false} EnteredHasKeys(ledger: Ledger, entries: seq<Entry>)
    ensures forall k :: k in Entered(ledger, entries) <==> k in ledger || exists i :: 0 <= i < |entries| && entries[i].key == k
    ensures forall k :: k in ledger ==> Entered(ledger, entries)[k] == ledger[k]
    ensures forall k :: k in Entered(ledger, entries) ==> (forall x :: x in ledger ==> ledger[x].key == x) ==>
              Entered(ledger, entries)[k].key == k
  {
    if entries != [] {
      var n := |entries| - 1;
      EnteredHasKeys(ledger, entries[..n]);
      assert forall i :: 0 <= i < n ==> entries[..n][i] == entries[i];
      forall k ensures k in Entered(ledger, entries) <==> k in Entered(ledger, entries[..n]) || entries[n].key == k {
      }
    }
  }

  /** The ledger keeps the first event ever entered under a key. */
  lemma {:induction false} FirstWins(ledger: Ledger, entries: seq<Entry>, i: int)
    requires 0 <= i < |entries| && entries[i].key !in ledger
    requires forall j :: 0 <= j < i ==> entries[j].key != entries[i].key
    ensures entries[i].key in Entered(ledger, entries) && Entered(ledger, entries)[entries[i].key] == entries[i]
  {
    var n := |entries| - 1;
    if i < n {
      FirstWins(ledger, entries[..n], i);
    } else {
      EnteredHasKeys(ledger, entries[..n]);
    }
  }

  lemma {:induction false} EnteredAppends(ledger: Ledger, xs: seq<Entry>, ys: seq<Entry>)
    ensures Entered(ledger, xs + ys) == Entered(Entered(ledger, xs), ys)
  {
    if ys == [] {
      assert xs + ys == xs;
    } else {
      var n := |ys| - 1;
      assert (xs + ys)[..|xs + ys| - 1] == xs + ys[..n];
      EnteredAppends(ledger, xs, ys[..n]);
    }
  }

  /** Entering events whose keys are all present changes nothing and is all duplicates. */
  lemma {:induction false} NothingNew(ledger: Ledger, entries: seq<Entry>)
    requires forall i :: 0 <= i < |entries| ==> entries[i].key in ledger
    ensures Entered(ledger, entries) == ledger && New(ledger, entries) == []
  {
    if entries != [] { NothingNew(ledger, entries[..|entries| - 1]); }
  }

  lemma {:induction false} NewIsAddition(ledger: Ledger, entries: seq<Entry>)
    ensures |New(ledger, entries)| <= |entries|
    ensures |Entered(ledger, entries)| == |ledger| + |New(ledger, entries)|
  {
    if entries != [] { NewIsAddition(ledger, entries[..|entries| - 1]); }
  }

  /** Every event of a batch is prepared or rejected. */
  lemma {:induction false} BatchSplits(p: Provider, batch: seq<Activity>, now: Instant)
    ensures |Prepared(p, batch, now)| + |Rejected(p, batch, now)| == |batch|
  {
    if batch != [] { BatchSplits(p, batch[..|batch| - 1], now); }
  }

  lemma {:induction false} DistinctIsOnce(entries: seq<Entry>)
    ensures forall k :: k in Distinct(entries) <==> exists i :: 0 <= i < |entries| && entries[i].key == k
    ensures forall i, j :: 0 <= i < j < |Distinct(entries)| ==> Distinct(entries)[i] != Distinct(entries)[j]
  {
    if entries != [] {
      var n := |entries| - 1;
      DistinctIsOnce(entries[..n]);
      assert forall i :: 0 <= i < n ==> entries[..n][i] == entries[i];
      forall k ensures k in Distinct(entries) <==> k in Distinct(entries[..n]) || entries[n].key == k {
      }
    }
  }

  // ---------- one ingest ----------

  datatype Fact = Fact(subject: string, environment: string, date: string, action: string, metric: string, value: int,
                       metadata: seq<Property>, provider: string, event: string, observedAt: Option<int>)

  function FactOf(p: Provider, e: Entry): Fact {
    var a := e.activity;
    Fact(e.subject, p.environment, a.date, a.action, a.metric, a.value, a.metadata, p.id, e.key.id, a.observedAt)
  }

  /** The projection of the ledger's own entries for the keys asked for. */
  function Facts(p: Provider, ledger: Ledger, keys: seq<EventKey>): seq<Fact>
    requires forall k :: k in keys ==> k in ledger
  {
    seq(|keys|, i requires 0 <= i < |keys| => FactOf(p, ledger[keys[i]]))
  }

  datatype Result = Result(accepted: int, duplicate: int, rejected: int, rejections: seq<Rejection>) {
    /** What a client checks of a response to a batch of n events. */
    predicate AddsUp(n: int) {
      && accepted >= 0 && duplicate >= 0 && rejected == |rejections|
      && accepted + duplicate + rejected == n
    }
  }

  datatype Record = Record(fingerprint: int, result: Result, expiresAt: int)

  datatype Input = Input(provider: string, secret: string, key: string, batch: seq<Activity>)

  /** One call: its input, its clock and whether the store and the sink accept. */
  datatype Call = Call(input: Input, now: Instant, saves: bool, publishes: bool)

  datatype Error = InvalidProvider | Unauthorized | EmptyBatch | TooMany | InvalidKey | NotFound | Disabled
                 | Conflict | SaveFailed | PublishFailed

  datatype Reply = Done(result: Result) | Failed(error: Error)

  datatype State = State(providers: map<string, Provider>, ledger: Ledger, records: map<string, Record>,
                         published: seq<seq<Fact>>)

  function RecordKey(provider: string, key: string): string { provider + ['\0'] + key }

  function Unexpired(records: map<string, Record>, now: int): map<string, Record> {
    map k | k in records && now <= records[k].expiresAt :: records[k]
  }

  ghost predicate Injective(digest: seq<Activity> -> int) {
    forall x, y :: digest(x) == digest(y) ==> x == y
  }

  /** The checks made before anything is read or written. */
  function Refusal(providers: map<string, Provider>, x: Input): (e: Option<Error>)
    ensures e.None? ==> x.provider in providers && 1 <= |x.batch| <= MAX_BATCH
  {
    if x.provider == "" then Some(InvalidProvider)
    else if x.secret == "" then Some(Unauthorized)
    else if x.batch == [] then Some(EmptyBatch)
    else if |x.batch| > MAX_BATCH then Some(TooMany)
    else if x.key != "" && (|x.key| < MIN_KEY || |x.key| > MAX_KEY) then Some(InvalidKey)
    else if x.provider !in providers then Some(NotFound)
    else if !providers[x.provider].active then Some(Disabled)
    else if providers[x.provider].secret != x.secret then Some(Unauthorized)
    else None
  }

  lemma KeysEntered(ledger: Ledger, entries: seq<Entry>)
    ensures forall k :: k in Distinct(entries) ==> k in Entered(ledger, entries)
  {
    EnteredHasKeys(ledger, entries);
    DistinctIsOnce(entries);
  }

  /** What one call replies and leaves behind. */
  ghost function Handled(digest: seq<Activity> -> int, s: State, c: Call): (Reply, State) {
    var x := c.input;
    var refusal := Refusal(s.providers, x);
    if refusal.Some? then (Failed(refusal.value), s)
    else
      var p := s.providers[x.provider];
      var k := RecordKey(x.provider, x.key);
      var s1 := if x.key != "" then s.(records := Unexpired(s.records, c.now.seconds)) else s;
      if x.key != "" && k in s1.records then
        if s1.records[k].fingerprint != digest(x.batch) then (Failed(Conflict), s1) else (Done(s1.records[k].result), s1)
      else
        var entries, rejections := Prepared(p, x.batch, c.now), Rejected(p, x.batch, c.now);
        if entries != [] && !c.saves then (Failed(SaveFailed), s1)
        else
          var s2 := s1.(ledger := Entered(s1.ledger, entries));
          KeysEntered(s1.ledger, entries);
          if entries != [] && !c.publishes then (Failed(PublishFailed), s2)
          else
            var novel := |New(s1.ledger, entries)|;
            var result := Result(novel, |entries| - novel, |rejections|, rejections);
            var s3 := if entries != [] then s2.(published := s2.published + [Facts(p, s2.ledger, Distinct(entries))]) else s2;
            (Done(result),
             if x.key != "" then s3.(records := s3.records[k := Record(digest(x.batch), result, c.now.seconds + RETENTION)])
             else s3)
  }

  class CustomProviderService {
    const digest: seq<Activity> -> int
    var providers: map<string, Provider>
    var ledger: Ledger
    var records: map<string, Record>
    var published: seq<seq<Fact>>

    constructor (digest: seq<Activity> -> int, providers: map<string, Provider>)
      ensures this.digest == digest && Now() == State(providers, map[], map[], [])
    {
      this.digest, this.providers, ledger, records, published := digest, providers, map[], map[], [];
    }

    function Now(): State reads this { State(providers, ledger, records, published) }

    /** The store's insert: an event already in the ledger is skipped. */
    method SaveIngestedActivities(entries: seq<Entry>) returns (accepted: seq<Entry>)
      modifies this`ledger
      ensures ledger == Entered(old(ledger), entries) && accepted == New(old(ledger), entries)
    {
      accepted := [];
      for i := 0 to |entries|
        invariant ledger == Entered(old(ledger), entries[..i]) && accepted == New(old(ledger), entries[..i])
      {
        assert entries[..i + 1][..i] == entries[..i];
        var e := entries[i];
        if e.key !in ledger {
          ledger := ledger[e.key := e];
          accepted := accepted + [e];
        }
      }
      assert entries[..|entries|] == entries;
    }

    /** The ledger's entries for the requested events, each event once. */
    method CanonicalRequestedActivities(requested: seq<Entry>) returns (canonical: seq<Entry>)
      requires forall k :: k in Distinct(requested) ==> k in ledger
      ensures |canonical| == |Distinct(requested)|
      ensures forall i :: 0 <= i < |canonical| ==> canonical[i] == ledger[Distinct(requested)[i]]
    {
      var seen: set<EventKey> := {};
      canonical := [];
      DistinctIsOnce(requested);
      for i := 0 to |requested|
        invariant seen == set k | k in Distinct(requested[..i])
        invariant |canonical| == |Distinct(requested[..i])|
        invariant forall j :: 0 <= j < |canonical| ==>
                    Distinct(requested[..i])[j] in ledger && canonical[j] == ledger[Distinct(requested[..i])[j]]
      {
        assert requested[..i + 1][..i] == requested[..i];
        var key := requested[i].key;
        if key in seen { continue; }
        assert key in Distinct(requested);
        seen := seen + {key};
        canonical := canonical + [ledger[key]];
      }
      assert requested[..|requested|] == requested;
    }

    method ExpireIdempotencyRecords(now: int)
      modifies this`records
      ensures records == Unexpired(old(records), now)
    {
      var left := records.Keys;
      while left != {}
        invariant left <= old(records).Keys
        invariant forall k :: k in records <==> k in old(records) && (k in left || now <= old(records)[k].expiresAt)
        invariant forall k :: k in records ==> records[k] == old(records)[k]
        decreases |left|
      {
        var k :| k in left;
        left := left - {k};
        if now > records[k].expiresAt { records := records - {k}; }
      }
    }

    /** Validating a batch: what is prepared and what is rejected. */
    method Sort(p: Provider, batch: seq<Activity>, now: Instant) returns (entries: seq<Entry>, rejections: seq<Rejection>)
      ensures entries == Prepared(p, batch, now) && rejections == Rejected(p, batch, now)
    {
      hide Validate;
      entries, rejections := [], [];
      for i := 0 to |batch|
        invariant entries == Prepared(p, batch[..i], now) && rejections == Rejected(p, batch[..i], now)
      {
        assert batch[..i + 1][..i] == batch[..i];
        var code := Validate(p, batch[i], now);
        if code.Some? {
          rejections := rejections + [Rejection(batch[i].externalID, code.value, i)];
        } else {
          entries := entries + [EntryOf(p, batch[i], now)];
        }
      }
      assert batch[..|batch|] == batch;
    }

    /** Telling the sink the ledger's entries for the events asked for. */
    method Project(p: Provider, entries: seq<Entry>, publishes: bool) returns (ok: bool)
      requires forall k :: k in Distinct(entries) ==> k in ledger
      modifies this`published
      ensures ok == publishes
      ensures published == if ok then old(published) + [Facts(p, ledger, Distinct(entries))] else old(published)
    {
      hide Facts, Distinct;
      var canonical := CanonicalRequestedActivities(entries);
      if !publishes { return false; }
      var facts := seq(|canonical|, i requires 0 <= i < |canonical| => FactOf(p, canonical[i]));
      SameFacts(p, ledger, Distinct(entries), canonical, facts);
      published := published + [facts];
      return true;
    }

    method Ingest(c: Call) returns (reply: Reply)
      modifies this
      ensures (reply, Now()) == Handled(digest, old(Now()), c)
    {
      hide Refusal, Unexpired, RecordKey;
      var x := c.input;
      var refusal := Refusal(providers, x);
      if refusal.Some? { return Failed(refusal.value); }
      reply := IngestPrepared(c, providers[x.provider]);
    }

    method IngestPrepared(c: Call, p: Provider) returns (reply: Reply)
      requires Refusal(providers, c.input).None? && c.input.provider in providers && p == providers[c.input.provider]
      modifies this`ledger, this`records, this`published
      ensures (reply, Now()) == Handled(digest, old(Now()), c)
    {
      hide Refusal, Unexpired, RecordKey, Facts, Prepared, Rejected, Distinct;
      var x := c.input;
      var k := RecordKey(x.provider, x.key);
      if x.key != "" {
        ExpireIdempotencyRecords(c.now.seconds);
        if k in records {
          if records[k].fingerprint != digest(x.batch) { return Failed(Conflict); }
          return Done(records[k].result);
        }
      }
      var entries, rejections := Sort(p, x.batch, c.now);
      var accepted := [];
      if entries != [] {
        if !c.saves { return Failed(SaveFailed); }
        accepted := SaveIngestedActivities(entries);
      }
      var result := Result(|accepted|, |entries| - |accepted|, |rejections|, rejections);
      if entries != [] {
        KeysEntered(old(ledger), entries);
        var ok := Project(p, entries, c.publishes);
        if !ok { return Failed(PublishFailed); }
      }
      if x.key != "" {
        records := records[k := Record(digest(x.batch), result, c.now.seconds + RETENTION)];
      }
      return Done(result);
    }
  }

  lemma SameFacts(p: Provider, ledger: Ledger, keys: seq<EventKey>, canonical: seq<Entry>, facts: seq<Fact>)
    requires forall k :: k in keys ==> k in ledger
    requires |canonical| == |keys| == |facts|
    requires forall i :: 0 <= i < |keys| ==> canonical[i] == ledger[keys[i]]
    requires forall i :: 0 <= i < |keys| ==> facts[i] == FactOf(p, canonical[i])
    ensures facts == Facts(p, ledger, keys)
  {
  }

  // ---------- sequences of ingests ----------

  ghost function Run(digest: seq<Activity> -> int, s: State, calls: seq<Call>): State
    decreases |calls|
  {
    if calls == [] then s else Run(digest, Handled(digest, s, calls[0]).1, calls[1..])
  }

  /** Whether a call gets as far as writing the ledger. */
  ghost predicate Writes(s: State, c: Call) {
    && Refusal(s.providers, c.input).None? && c.saves
    && (c.input.key != "" ==> RecordKey(c.input.provider, c.input.key) !in Unexpired(s.records, c.now.seconds))
  }

  /** The valid events that reached the ledger, in the order they did. */
  ghost function History(digest: seq<Activity> -> int, s: State, calls: seq<Call>): seq<Entry>
    decreases |calls|
  {
    if calls == [] then []
    else
      var c := calls[0];
      (if Writes(s, c) then Prepared(s.providers[c.input.provider], c.input.batch, c.now) else [])
      + History(digest, Handled(digest, s, c).1, calls[1..])
  }

  lemma LedgerStep(digest: seq<Activity> -> int, s: State, c: Call)
    ensures var t := Handled(digest, s, c).1;
            && t.providers == s.providers
            && t.ledger == Entered(s.ledger, if Writes(s, c) then Prepared(s.providers[c.input.provider], c.input.batch, c.now) else [])
  {
    hide Refusal, Unexpired, RecordKey, Facts, Prepared, Rejected;
  }

  lemma {:induction false} LedgerIsHistory(digest: seq<Activity> -> int, s: State, calls: seq<Call>)
    ensures Run(digest, s, calls).ledger == Entered(s.ledger, History(digest, s, calls))
    ensures Run(digest, s, calls).providers == s.providers
    decreases |calls|
  {
    hide Handled, Prepared, Unexpired, RecordKey;
    if calls != [] {
      var c := calls[0];
      LedgerStep(digest, s, c);
      var t := Handled(digest, s, c).1;
      var first := if Writes(s, c) then Prepared(s.providers[c.input.provider], c.input.batch, c.now) else [];
      LedgerIsHistory(digest, t, calls[1..]);
      EnteredAppends(s.ledger, first, History(digest, t, calls[1..]));
    }
  }

  /** Over any sequence of ingests into an empty ledger, the ledger holds for each
      provider and external ID the first valid event ever saved under it. */
  lemma LedgerKeepsFirstValidEvent(digest: seq<Activity> -> int, providers: map<string, Provider>, calls: seq<Call>, i: int)
    requires var h := History(digest, State(providers, map[], map[], []), calls);
             0 <= i < |h| && forall j :: 0 <= j < i ==> h[j].key != h[i].key
    ensures var s := State(providers, map[], map[], []);
            var h, ledger := History(digest, s, calls), Run(digest, s, calls).ledger;
            && h[i].key in ledger && ledger[h[i].key] == h[i]
            && (forall k :: k in ledger <==> exists j :: 0 <= j < |h| && h[j].key == k)
  {
    hide Handled, Prepared, Writes;
    var s := State(providers, map[], map[], []);
    LedgerIsHistory(digest, s, calls);
    FirstWins(map[], History(digest, s, calls), i);
    EnteredHasKeys(map[], History(digest, s, calls));
  }

  // ---------- counts ----------

  /** Every stored result adds up for the batch it answers. */
  ghost predicate RecordsAddUp(digest: seq<Activity> -> int, records: map<string, Record>) {
    forall k :: k in records ==> exists batch :: records[k].fingerprint == digest(batch) && records[k].result.AddsUp(|batch|)
  }

  lemma FreshAddsUp(p: Provider, ledger: Ledger, batch: seq<Activity>, now: Instant)
    ensures var entries, rejections := Prepared(p, batch, now), Rejected(p, batch, now);
            Result(|New(ledger, entries)|, |entries| - |New(ledger, entries)|, |rejections|, rejections).AddsUp(|batch|)
  {
    BatchSplits(p, batch, now);
    NewIsAddition(ledger, Prepared(p, batch, now));
  }

  /** Each success accounts for every event of its own batch. */
  lemma CountsAddUp(digest: seq<Activity> -> int, s: State, c: Call)
    requires Injective(digest) && RecordsAddUp(digest, s.records)
    ensures RecordsAddUp(digest, Handled(digest, s, c).1.records)
    ensures Handled(digest, s, c).0.Done? ==> Handled(digest, s, c).0.result.AddsUp(|c.input.batch|)
  {
    hide Refusal, RecordKey, Facts, Prepared, Rejected, Entered, New, Result.AddsUp;
    var x := c.input;
    if Refusal(s.providers, x).None? {
      FreshAddsUp(s.providers[x.provider], s.ledger, x.batch, c.now);
    }
  }

  lemma {:induction false} CountsAlwaysAddUp(digest: seq<Activity> -> int, s: State, calls: seq<Call>, c: Call)
    requires Injective(digest) && RecordsAddUp(digest, s.records)
    ensures var reply := Handled(digest, Run(digest, s, calls), c).0;
            reply.Done? ==> reply.result.AddsUp(|c.input.batch|)
    decreases |calls|
  {
    hide Handled, RecordsAddUp, Injective;
    if calls == [] {
      CountsAddUp(digest, s, c);
    } else {
      CountsAddUp(digest, s, calls[0]);
      CountsAlwaysAddUp(digest, Handled(digest, s, calls[0]).1, calls[1..], c);
    }
  }

  // ---------- replay ----------

  lemma NulComesAfter(p: string, k: string, n: int)
    requires '\0' !in p && 0 <= n < |RecordKey(p, k)| && RecordKey(p, k)[n] == '\0'
    ensures n >= |p|
  {
    assert forall i :: 0 <= i < |p| ==> RecordKey(p, k)[i] == p[i] && p[i] in p;
  }

  /** Two providers' keys never meet, as long as their IDs hold no NUL. */
  lemma {:induction false} RecordKeysDiffer(p: string, k: string, q: string, l: string)
    requires '\0' !in p && '\0' !in q && RecordKey(p, k) == RecordKey(q, l)
    ensures p == q && k == l
  {
    var left, right := RecordKey(p, k), RecordKey(q, l);
    assert left[|p|] == '\0' && right[|q|] == '\0';
    NulComesAfter(p, k, |q|);
    NulComesAfter(q, l, |p|);
    assert left[..|p|] == p && right[..|q|] == q && left[|p| + 1..] == k && right[|q| + 1..] == l;
  }

  /** An unexpired record is neither replaced nor dropped. */
  lemma RecordStays(digest: seq<Activity> -> int, s: State, c: Call, k: string)
    requires k in s.records && c.now.seconds <= s.records[k].expiresAt
    ensures k in Handled(digest, s, c).1.records && Handled(digest, s, c).1.records[k] == s.records[k]
  {
    hide Refusal, RecordKey, Facts, Prepared, Rejected, Entered, New;
  }

  lemma {:induction false} RecordSurvives(digest: seq<Activity> -> int, s: State, calls: seq<Call>, k: string)
    requires k in s.records && forall i :: 0 <= i < |calls| ==> calls[i].now.seconds <= s.records[k].expiresAt
    ensures k in Run(digest, s, calls).records && Run(digest, s, calls).records[k] == s.records[k]
    decreases |calls|
  {
    hide Handled;
    if calls != [] {
      RecordStays(digest, s, calls[0], k);
      RecordSurvives(digest, Handled(digest, s, calls[0]).1, calls[1..], k);
    }
  }

  lemma SuccessIsRecorded(digest: seq<Activity> -> int, s: State, c: Call)
    requires Handled(digest, s, c).0.Done? && c.input.key != ""
    ensures var (reply, t) := Handled(digest, s, c);
            var k := RecordKey(c.input.provider, c.input.key);
            && k in t.records && t.records[k].result == reply.result && t.records[k].fingerprint == digest(c.input.batch)
            && c.now.seconds <= t.records[k].expiresAt
            && (k !in Unexpired(s.records, c.now.seconds) ==> t.records[k].expiresAt == c.now.seconds + RETENTION)
  {
    hide Refusal, RecordKey, Facts, Prepared, Rejected, Entered, New;
  }

  lemma ReplayAnswers(digest: seq<Activity> -> int, s: State, c: Call, k: string)
    requires Refusal(s.providers, c.input).None? && c.input.key != "" && k == RecordKey(c.input.provider, c.input.key)
    requires k in s.records && c.now.seconds <= s.records[k].expiresAt
    ensures var (reply, t) := Handled(digest, s, c);
            && t.ledger == s.ledger && t.published == s.published
            && (if s.records[k].fingerprint == digest(c.input.batch) then reply == Done(s.records[k].result)
                else reply == Failed(Conflict))
  {
    hide Refusal, RecordKey, Facts, Prepared, Rejected, Entered, New;
  }

  /** Whatever other calls come between, a repeat of a successful call within a day
      gets the same result and writes nothing; the same key with another body is
      refused and writes nothing. */
  lemma SameKeyReplays(digest: seq<Activity> -> int, s: State, first: Call, between: seq<Call>, again: Call)
    requires Injective(digest) && Handled(digest, s, first).0.Done? && first.input.key != ""
    requires RecordKey(first.input.provider, first.input.key) !in Unexpired(s.records, first.now.seconds)
    requires again.input.provider == first.input.provider && again.input.key == first.input.key
    requires Refusal(s.providers, again.input).None?
    requires again.now.seconds <= first.now.seconds + RETENTION
    requires forall i :: 0 <= i < |between| ==> between[i].now.seconds <= first.now.seconds + RETENTION
    ensures var mid := Run(digest, Handled(digest, s, first).1, between);
            var (reply, end) := Handled(digest, mid, again);
            && end.ledger == mid.ledger && end.published == mid.published
            && reply == (if again.input.batch == first.input.batch then Handled(digest, s, first).0 else Failed(Conflict))
  {
    hide Handled, Refusal, Unexpired, RecordKey;
    var s1 := Handled(digest, s, first).1;
    var k := RecordKey(first.input.provider, first.input.key);
    SuccessIsRecorded(digest, s, first);
    RecordSurvives(digest, s1, between, k);
    LedgerStep(digest, s, first);
    LedgerIsHistory(digest, s1, between);
    ReplayAnswers(digest, Run(digest, s1, between), again, k);
  }

  // ---------- the projection ----------

  /** What a call that reaches the sink tells it: for each valid event asked for,
      once, the ledger's own entry. */
  lemma PublishesCanonicalEntries(digest: seq<Activity> -> int, s: State, c: Call)
    requires Writes(s, c) && c.publishes
    requires Prepared(s.providers[c.input.provider], c.input.batch, c.now) != []
    ensures var (reply, t) := Handled(digest, s, c);
            var p := s.providers[c.input.provider];
            var entries := Prepared(p, c.input.batch, c.now);
            && reply.Done? && (forall k :: k in Distinct(entries) ==> k in t.ledger)
            && t.published == s.published + [Facts(p, t.ledger, Distinct(entries))]
            && (forall k :: k in Distinct(entries) <==> exists i :: 0 <= i < |entries| && entries[i].key == k)
  {
    hide Refusal, RecordKey, Facts, Prepared, Rejected, Entered, New, Unexpired;
    var entries := Prepared(s.providers[c.input.provider], c.input.batch, c.now);
    KeysEntered(s.ledger, entries);
    DistinctIsOnce(entries);
  }

  ghost predicate SameValidity(p: Provider, batch: seq<Activity>, a: Instant, b: Instant) {
    forall i :: 0 <= i < |batch| ==> (Validate(p, batch[i], a).None? <==> Validate(p, batch[i], b).None?)
  }

  lemma {:induction false} SameValidKeys(p: Provider, batch: seq<Activity>, a: Instant, b: Instant)
    requires SameValidity(p, batch, a, b)
    ensures |Prepared(p, batch, a)| == |Prepared(p, batch, b)|
    ensures forall i :: 0 <= i < |Prepared(p, batch, a)| ==> Prepared(p, batch, a)[i].key == Prepared(p, batch, b)[i].key
  {
    hide Validate;
    if batch != [] {
      var n := |batch| - 1;
      assert forall i :: 0 <= i < n ==> batch[..n][i] == batch[i];
      SameValidKeys(p, batch[..n], a, b);
    }
  }

  lemma {:induction false} SameDistinct(xs: seq<Entry>, ys: seq<Entry>)
    requires |xs| == |ys| && forall i :: 0 <= i < |xs| ==> xs[i].key == ys[i].key
    ensures Distinct(xs) == Distinct(ys)
  {
    if xs != [] { SameDistinct(xs[..|xs| - 1], ys[..|ys| - 1]); }
  }

  /** After a failed projection, and whatever other calls come between, repeating
      the batch accepts nothing twice and publishes exactly the facts that the
      failed call would have published. */
  lemma RetryRepairsProjection(digest: seq<Activity> -> int, s: State, failed: Call, between: seq<Call>, retry: Call)
    requires Writes(s, failed) && Handled(digest, s, failed).0 == Failed(PublishFailed)
    requires var mid := Run(digest, Handled(digest, s, failed).1, between); Writes(mid, retry)
    requires retry.publishes && retry.input == failed.input
    requires SameValidity(s.providers[failed.input.provider], failed.input.batch, failed.now, retry.now)
    ensures var p := s.providers[failed.input.provider];
            var entries := Prepared(p, failed.input.batch, failed.now);
            var mid := Run(digest, Handled(digest, s, failed).1, between);
            var (reply, end) := Handled(digest, mid, retry);
            && reply.Done? && reply.result.accepted == 0 && end.ledger == mid.ledger
            && (forall k :: k in Distinct(entries) ==> k in Entered(s.ledger, entries))
            && end.published == mid.published + [Facts(p, Entered(s.ledger, entries), Distinct(entries))]
  {
    hide Refusal, RecordKey, Prepared, Rejected, Entered, New, Unexpired, Handled, Facts, Distinct, History, SameValidity;
    var p := s.providers[failed.input.provider];
    var entries := Prepared(p, failed.input.batch, failed.now);
    var s1 := Handled(digest, s, failed).1;
    LedgerStep(digest, s, failed);
    LedgerIsHistory(digest, s1, between);
    var mid := Run(digest, s1, between);
    var again := Prepared(p, retry.input.batch, retry.now);
    SameValidKeys(p, failed.input.batch, failed.now, retry.now);
    SameDistinct(entries, again);
    KeysEntered(s.ledger, entries);
    EnteredHasKeys(s.ledger, entries);
    EnteredHasKeys(s1.ledger, History(digest, s1, between));
    DistinctIsOnce(again);
    NothingNew(mid.ledger, again);
    FailedHasEntries(digest, s, failed);
    RetryPublishes(digest, mid, retry);
    SameProjection(p, Entered(s.ledger, entries), mid.ledger, Distinct(entries));
  }

  lemma FailedHasEntries(digest: seq<Activity> -> int, s: State, c: Call)
    requires Writes(s, c) && Handled(digest, s, c).0 == Failed(PublishFailed)
    ensures Prepared(s.providers[c.input.provider], c.input.batch, c.now) != []
  {
    hide Refusal, RecordKey, Prepared, Rejected, Entered, New, Unexpired, Facts;
  }

  lemma RetryPublishes(digest: seq<Activity> -> int, s: State, c: Call)
    requires Writes(s, c) && c.publishes
    requires var entries := Prepared(s.providers[c.input.provider], c.input.batch, c.now);
             entries != [] && Entered(s.ledger, entries) == s.ledger && New(s.ledger, entries) == []
    ensures var (reply, t) := Handled(digest, s, c);
            var p := s.providers[c.input.provider];
            var entries := Prepared(p, c.input.batch, c.now);
            && reply.Done? && reply.result.accepted == 0 && t.ledger == s.ledger
            && (forall k :: k in Distinct(entries) ==> k in s.ledger)
            && t.published == s.published + [Facts(p, s.ledger, Distinct(entries))]
  {
    hide Refusal, RecordKey, Facts, Prepared, Rejected, Entered, New, Unexpired;
    KeysEntered(s.ledger, Prepared(s.providers[c.input.provider], c.input.batch, c.now));
  }

  lemma SameProjection(p: Provider, before: Ledger, now: Ledger, keys: seq<EventKey>)
    requires forall k :: k in keys ==> k in before && k in now && before[k] == now[k]
    ensures Facts(p, before, keys) == Facts(p, now, keys)
  {
  }

  // ---------- replaying a stored response ----------

  /** A durable reservation: status 0 while in progress, 202 once answered. */
  datatype Stored = Stored(fingerprint: int, status: int, result: Result)

  datatype Replay = Replayed(result: Result) | OtherBody | InProgress | Undecodable

  function ReplayStored(r: Stored, fingerprint: int): (x: Replay)
    ensures x.Replayed? <==> r.fingerprint == fingerprint && r.status == 202
    ensures x.OtherBody? <==> r.fingerprint != fingerprint
    ensures x.InProgress? <==> r.fingerprint == fingerprint && r.status == 0
    ensures x.Replayed? ==> x.result == r.result
  {
    if r.fingerprint != fingerprint then OtherBody
    else if r.status == 0 then InProgress
    else if r.status != 202 then Undecodable
    else Replayed(r.result)
  }
}
