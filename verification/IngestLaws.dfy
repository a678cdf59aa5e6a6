/** What a client and an operator can rely on in an ingest, in their own terms. */
module IngestLaws {
  import opened Keyset
  import opened Ingest

  // ---------- who is let in ----------

  /** The caller names a provider it has the secret of, and asks for something. */
  predicate Authentic(s: State, x: Input) {
    && x.provider != "" && x.secret != "" && x.provider in s.providers
    && s.providers[x.provider].active && s.providers[x.provider].secret == x.secret
  }

  predicate WellSized(x: Input) { 1 <= |x.batch| <= 1000 && (|x.key| == 0 || 8 <= |x.key| <= 255) }

  /** Whatever happened before, a call has an effect or a result only for an active
      provider's own secret, one to a thousand events and a key, if any, of 8 to 255
      characters. */
  lemma OnlyAuthenticCallsCount(digest: seq<Activity> -> int, s: State, calls: seq<Call>, c: Call)
    ensures var mid := Run(digest, s, calls);
            var (reply, t) := Handled(digest, mid, c);
            && mid.providers == s.providers && t.providers == s.providers
            && (reply.Done? || t != mid ==> Authentic(s, c.input) && WellSized(c.input))
  {
    LedgerIsHistory(digest, s, calls);
    LedgerStep(digest, Run(digest, s, calls), c);
    hide Run, RecordKey, Unexpired, Prepared, Rejected, Entered, Facts;
    var mid := Run(digest, s, calls);
    if Refusal(mid.providers, c.input).Some? { assert Handled(digest, mid, c).1 == mid; }
  }

  /** The refusals, in the order in which they are made. */
  lemma RefusedExactlyWhen(digest: seq<Activity> -> int, s: State, c: Call)
    ensures var x := c.input;
            var e := Handled(digest, s, c).0;
            var named, sized := x.provider != "" && x.secret != "", WellSized(x);
            && (e == Failed(InvalidProvider) <==> x.provider == "")
            && (e == Failed(EmptyBatch) <==> named && x.batch == [])
            && (e == Failed(TooMany) <==> named && |x.batch| > 1000)
            && (e == Failed(InvalidKey) <==> named && 1 <= |x.batch| <= 1000 && !sized)
            && (e == Failed(NotFound) <==> named && sized && x.provider !in s.providers)
            && (e == Failed(Disabled) <==> named && sized && x.provider in s.providers && !s.providers[x.provider].active)
            && (e == Failed(Unauthorized) <==>
                  x.provider != "" && (x.secret == "" ||
                    (sized && x.provider in s.providers && s.providers[x.provider].active && s.providers[x.provider].secret != x.secret)))
    ensures !(Authentic(s, c.input) && WellSized(c.input)) ==>
              Handled(digest, s, c).0.Failed? && Handled(digest, s, c).1 == s
  {
    hide RecordKey, Unexpired, Prepared, Rejected, Entered, New, Facts;
  }

  // ---------- what becomes of a call that is let in ----------

  /** An earlier answer under this key that still counts. */
  ghost predicate Remembered(s: State, c: Call) {
    && c.input.key != ""
    && var k := c.input.provider + ['\0'] + c.input.key;
       k in s.records && s.records[k].expiresAt >= c.now.seconds
  }

  /** Some event of the batch is acceptable. */
  ghost predicate HasValid(p: Provider, batch: seq<Activity>, now: Instant) {
    exists i :: 0 <= i < |batch| && Acceptable(p, batch[i], now)
  }

  lemma {:induction false} PreparedNothing(p: Provider, batch: seq<Activity>, now: Instant)
    ensures Prepared(p, batch, now) == [] <==> !HasValid(p, batch, now)
  {
    hide Validate, Acceptable;
    if batch != [] {
      var n := |batch| - 1;
      PreparedNothing(p, batch[..n], now);
      assert forall i :: 0 <= i < n ==> batch[..n][i] == batch[i];
      ValidIsAcceptable(p, batch[n], now);
    }
  }

  lemma ValidIsAcceptable(p: Provider, a: Activity, now: Instant)
    ensures Validate(p, a, now).None? <==> Acceptable(p, a, now)
  {
    hide *;
  }

  /** A call that is let in answers from memory, or fails with the store or the sink,
      or accounts for its batch: what it accepts is what the ledger gains. A record of
      the answer is good for a day. */
  lemma AnswersExactlyWhen(digest: seq<Activity> -> int, s: State, c: Call)
    requires Authentic(s, c.input) && WellSized(c.input)
    ensures var (reply, t) := Handled(digest, s, c);
            var p := s.providers[c.input.provider];
            var k := c.input.provider + ['\0'] + c.input.key;
            var valid := HasValid(p, c.input.batch, c.now);
            && (reply == Failed(Conflict) <==> Remembered(s, c) && s.records[k].fingerprint != digest(c.input.batch))
            && (reply == Failed(SaveFailed) <==> !Remembered(s, c) && valid && !c.saves)
            && (reply == Failed(PublishFailed) <==> !Remembered(s, c) && valid && c.saves && !c.publishes)
            && (Remembered(s, c) && reply.Done? ==> reply.result == s.records[k].result && t.ledger == s.ledger && t.published == s.published)
            && (!Remembered(s, c) && reply.Done? ==>
                  && reply.result.accepted == |t.ledger| - |s.ledger|
                  && reply.result.rejections == Rejected(p, c.input.batch, c.now)
                  && |t.published| == |s.published| + (if valid then 1 else 0)
                  && (c.input.key != "" ==> k in t.records && t.records[k] == Record(digest(c.input.batch), reply.result, c.now.seconds + 86400)))
  {
    var p := s.providers[c.input.provider];
    PreparedNothing(p, c.input.batch, c.now);
    NewIsAddition(s.ledger, Prepared(p, c.input.batch, c.now));
    NothingEntered(s.ledger);
    hide Prepared, Rejected, Entered, New, Facts, HasValid, Distinct;
  }

  lemma NothingEntered(ledger: Ledger)
    ensures Entered(ledger, []) == ledger && New(ledger, []) == []
  {
  }

  // ---------- dates ----------

  /** n in exactly k decimal digits, leading zeros included. */
  function Padded(n: nat, k: nat): string
    decreases k
  {
    if k == 0 then "" else Padded(n / 10, k - 1) + ["0123456789"[n % 10]]
  }

  function Ten(k: nat): nat { if k == 0 then 1 else 10 * Ten(k - 1) }

  lemma {:induction false} PaddedReads(n: nat, k: nat)
    requires n < Ten(k)
    ensures |Padded(n, k)| == k && Digits(Padded(n, k)) == n
  {
    if k > 0 {
      PaddedReads(n / 10, k - 1);
      var s := Padded(n, k);
      assert s[..|s| - 1] == Padded(n / 10, k - 1) && s[|s| - 1] == "0123456789"[n % 10];
    }
  }

  lemma {:induction false} ReadsPadded(s: string)
    requires Digits(s) >= 0
    ensures Digits(s) < Ten(|s|) && s == Padded(Digits(s), |s|)
  {
    if s != [] {
      var n := |s| - 1;
      ReadsPadded(s[..n]);
      var d := Digit(s[n]);
      assert s == s[..n] + [s[n]] && s[n] == "0123456789"[d];
      assert Digits(s) == 10 * Digits(s[..n]) + d;
    }
  }

  /** A date is read exactly from its one writing YYYY-MM-DD. */
  lemma DateExactlyWhen(s: string, d: Day)
    ensures ParseDay(s) == Some(d) <==>
              0 <= d.year <= 9999 && Real(d) && s == Padded(d.year, 4) + "-" + Padded(d.month, 2) + "-" + Padded(d.day, 2)
  {
    hide ParseDay, Real, Padded;
    if ParseDay(s) == Some(d) { DateWasWritten(s, d); }
    if 0 <= d.year <= 9999 && Real(d) { DateIsRead(d); }
  }

  lemma Tens()
    ensures Ten(4) == 10000 && Ten(2) == 100
  {
    assert Ten(1) == 10 && Ten(3) == 1000;
  }

  lemma DateWasWritten(s: string, d: Day)
    requires ParseDay(s) == Some(d)
    ensures 0 <= d.year <= 9999 && Real(d) && s == Padded(d.year, 4) + "-" + Padded(d.month, 2) + "-" + Padded(d.day, 2)
  {
    hide Digits, Padded, Ten, Real, DaysIn;
    Tens();
    TwoDigitsAtMost(s);
    ReadsPadded(s[..4]);
    ReadsPadded(s[5..7]);
    ReadsPadded(s[8..]);
    assert s == s[..4] + "-" + s[5..7] + "-" + s[8..];
  }

  lemma DateIsRead(d: Day)
    requires 0 <= d.year <= 9999 && Real(d)
    ensures ParseDay(Padded(d.year, 4) + "-" + Padded(d.month, 2) + "-" + Padded(d.day, 2)) == Some(d)
  {
    hide Digits, Padded, Ten, DaysIn;
    Tens();
    MonthsAreShort(d);
    PaddedReads(d.year, 4);
    PaddedReads(d.month, 2);
    PaddedReads(d.day, 2);
    var s := Padded(d.year, 4) + "-" + Padded(d.month, 2) + "-" + Padded(d.day, 2);
    assert s[..4] == Padded(d.year, 4) && s[5..7] == Padded(d.month, 2) && s[8..] == Padded(d.day, 2);
  }

  lemma MonthsAreShort(d: Day)
    requires Real(d)
    ensures d.day <= 31
  {
  }

  lemma TwoDigitsAtMost(s: string)
    requires ParseDay(s).Some?
    ensures Digits(s[..4]) >= 0 && Digits(s[5..7]) >= 1 && Digits(s[8..]) >= 1
  {
  }

  /** Leap days up to the end of a year of the Gregorian calendar. */
  function LeapDays(year: int): int { year / 4 - year / 100 + year / 400 }

  /** Days before a month in a common year. */
  function MonthStart(month: int): int
    requires 1 <= month <= 12
  {
    [0, 31, 59, 90, 120, 151, 181, 212, 243, 273, 304, 334][month - 1]
  }

  /** Days since the last day of year 0. */
  function DayNumber(d: Day): int
    requires 1 <= d.month <= 12
  {
    365 * (d.year - 1) + LeapDays(d.year - 1) + MonthStart(d.month)
    + (if d.month > 2 then LeapDays(d.year) - LeapDays(d.year - 1) else 0) + d.day
  }

  lemma MultiplesStep(n: int, k: int)
    requires k in {4, 100, 400}
    ensures n / k - (n - 1) / k == if n % k == 0 then 1 else 0
  {
    if k == 4 { assert n / 4 - (n - 1) / 4 == if n % 4 == 0 then 1 else 0; }
    else if k == 100 { assert n / 100 - (n - 1) / 100 == if n % 100 == 0 then 1 else 0; }
    else { assert n / 400 - (n - 1) / 400 == if n % 400 == 0 then 1 else 0; }
  }

  lemma LeapExactlyWhen(year: int)
    ensures LeapDays(year) - LeapDays(year - 1) == if Leap(year) then 1 else 0
  {
    MultiplesStep(year, 4);
    MultiplesStep(year, 100);
    MultiplesStep(year, 400);
    RareLeaps(year);
    var a, b, c := year / 4 - (year - 1) / 4, year / 100 - (year - 1) / 100, year / 400 - (year - 1) / 400;
    Difference(year, a, b, c);
  }

  lemma Difference(year: int, a: int, b: int, c: int)
    requires a == year / 4 - (year - 1) / 4 && b == year / 100 - (year - 1) / 100 && c == year / 400 - (year - 1) / 400
    ensures LeapDays(year) - LeapDays(year - 1) == a - b + c
  {
    var p, q, r, x, y, z := year / 4, year / 100, year / 400, (year - 1) / 4, (year - 1) / 100, (year - 1) / 400;
    assert LeapDays(year) == p - q + r && LeapDays(year - 1) == x - y + z;
  }

  lemma RareLeaps(year: int)
    ensures year % 400 == 0 ==> year % 100 == 0
    ensures year % 100 == 0 ==> year % 4 == 0
  {
    if year % 400 == 0 {
      assert year == 400 * (year / 400);
      Hundreds(4 * (year / 400));
    }
    if year % 100 == 0 {
      assert year == 100 * (year / 100);
      Fours(25 * (year / 100));
    }
  }

  lemma Hundreds(m: int)
    ensures (100 * m) % 100 == 0
  {
  }

  lemma Fours(m: int)
    ensures (4 * m) % 4 == 0
  {
  }

  /** The next day is the next number, and every day is real. */
  lemma TomorrowIsNext(d: Day)
    requires Real(d)
    ensures Real(Tomorrow(d)) && DayNumber(Tomorrow(d)) == DayNumber(d) + 1
  {
    LeapExactlyWhen(d.year);
    hide LeapDays, Leap;
  }

  lemma {:induction false} YearsApart(a: int, b: int)
    requires a < b
    ensures LeapDays(a) <= LeapDays(b)
    decreases b - a
  {
    LeapExactlyWhen(b);
    if a < b - 1 { YearsApart(a, b - 1); }
  }

  lemma WithinYear(d: Day)
    requires Real(d)
    ensures 1 <= DayNumber(d) - 365 * (d.year - 1) - LeapDays(d.year - 1) <= 365 + LeapDays(d.year) - LeapDays(d.year - 1)
  {
    LeapExactlyWhen(d.year);
  }

  /** Dates are compared as their numbers are. */
  lemma EarlierIsLess(a: Day, b: Day)
    requires Real(a) && Real(b)
    ensures Earlier(a, b) <==> DayNumber(a) < DayNumber(b)
  {
    if a.year == b.year {
      SameYear(a, b);
    } else if a.year < b.year {
      YearOrder(a, b);
    } else {
      YearOrder(b, a);
    }
  }

  lemma SameYear(a: Day, b: Day)
    requires Real(a) && Real(b) && a.year == b.year
    ensures Earlier(a, b) <==> DayNumber(a) < DayNumber(b)
  {
    LeapExactlyWhen(a.year);
  }

  lemma YearOrder(a: Day, b: Day)
    requires Real(a) && Real(b) && a.year < b.year
    ensures DayNumber(a) < DayNumber(b)
  {
    hide LeapDays;
    WithinYear(a);
    WithinYear(b);
    if a.year < b.year - 1 { YearsApart(a.year, b.year - 1); }
  }

  /** An event may be dated up to tomorrow, and back to the same day ten years ago,
      where the 29 February of a year without one is the day after the 28th. */
  lemma RangeExactlyWhen(d: Day, today: Day)
    requires Real(d) && Real(today)
    ensures InRange(d, today) <==>
              && DayNumber(d) <= DayNumber(today) + 1
              && DayNumber(d) >= (if today.month == 2 && today.day == 29 then DayNumber(Day(today.year - 10, 2, 28)) + 1
                                  else DayNumber(today.(year := today.year - 10)))
  {
    TomorrowIsNext(today);
    LeapExactlyWhen(today.year - 10);
    var first := TenYearsBefore(today);
    assert Real(first);
    EarlierIsLess(d, first);
    EarlierIsLess(Tomorrow(today), d);
    hide DayNumber;
    TenYearsNumber(today);
  }

  lemma TenYearsNumber(today: Day)
    requires Real(today)
    ensures DayNumber(TenYearsBefore(today)) ==
              if today.month == 2 && today.day == 29 then DayNumber(Day(today.year - 10, 2, 28)) + 1
              else DayNumber(today.(year := today.year - 10))
  {
    LeapExactlyWhen(today.year - 10);
  }

  // ---------- validation ----------

  const UPPER := "ABCDEFGHIJKLMNOPQRSTUVWXYZ"
  const LOWER := "abcdefghijklmnopqrstuvwxyz"

  predicate Listed(c: char) { c in UPPER || c in LOWER || c in "0123456789" || c in "._:-" }

  lemma UpperIs(c: char)
    ensures c in UPPER <==> 'A' <= c <= 'Z'
  {
    if 'A' <= c <= 'Z' { assert UPPER[c as int - 'A' as int] == c; }
  }

  lemma LowerIs(c: char)
    ensures c in LOWER <==> 'a' <= c <= 'z'
  {
    if 'a' <= c <= 'z' { assert LOWER[c as int - 'a' as int] == c; }
  }

  lemma DigitIs(c: char)
    ensures c in "0123456789" <==> '0' <= c <= '9'
  {
    if '0' <= c <= '9' { assert "0123456789"[c as int - '0' as int] == c; }
  }

  lemma KeyCharIs(c: char)
    ensures KeyChar(c) <==> Listed(c)
  {
    UpperIs(c);
    LowerIs(c);
    DigitIs(c);
  }

  predicate MetadataKey(key: string) { 1 <= |key| <= 128 && forall i :: 0 <= i < |key| ==> Listed(key[i]) }

  /** What is wrong with an event, check by check. */
  ghost predicate Violates(p: Provider, a: Activity, now: Instant, code: Code) {
    match code
    case EventIDRequired => a.externalID == ""
    case EventIDTooLong => |a.externalID| > 255
    case DateRequired => a.date == ""
    case InvalidDate => !exists d :: ParseDay(a.date) == Some(d)
    case DateOutOfRange => exists d :: ParseDay(a.date) == Some(d) && !InRange(d, now.today)
    case ActionRequired => a.action == ""
    case ActionTooLong => |a.action| > 64
    case ActionNotAllowed => a.action !in p.actions
    case MetricRequired => a.metric == ""
    case MetricTooLong => |a.metric| > 64
    case MetricNotAllowed => a.metric !in p.metrics
    case NegativeValue => a.value < 0
    case ValueTooLarge => a.value > 1_000_000
    case TooManyProperties => |a.metadata| > 50
    case InvalidPropertyKey => exists i :: 0 <= i < |a.metadata| && !MetadataKey(a.metadata[i].key)
    case PropertyTooLong => exists i :: 0 <= i < |a.metadata| && |a.metadata[i].value| > 1000
  }

  /** The order of the checks; the two on properties are made property by property. */
  function Turn(code: Code): int {
    match code
    case EventIDRequired => 1
    case EventIDTooLong => 2
    case DateRequired => 3
    case InvalidDate => 4
    case DateOutOfRange => 5
    case ActionRequired => 6
    case ActionTooLong => 7
    case ActionNotAllowed => 8
    case MetricRequired => 9
    case MetricTooLong => 10
    case MetricNotAllowed => 11
    case NegativeValue => 12
    case ValueTooLarge => 13
    case TooManyProperties => 14
    case InvalidPropertyKey => 15
    case PropertyTooLong => 15
  }

  lemma GoodKeyIs(key: string)
    ensures GoodKey(key) <==> MetadataKey(key)
  {
    hide KeyChar, Listed;
    forall i | 0 <= i < |key| ensures KeyChar(key[i]) <==> Listed(key[i]) { KeyCharIs(key[i]); }
  }

  lemma {:induction false} PropertiesFault(m: seq<Property>)
    ensures CheckProperties(m) == Some(InvalidPropertyKey) ==> exists i :: 0 <= i < |m| && !MetadataKey(m[i].key)
    ensures CheckProperties(m) == Some(PropertyTooLong) ==> exists i :: 0 <= i < |m| && |m[i].value| > 1000
    ensures CheckProperties(m).None? ==> forall i :: 0 <= i < |m| ==> MetadataKey(m[i].key) && |m[i].value| <= 1000
    ensures CheckProperties(m).Some? ==> CheckProperties(m) in {Some(InvalidPropertyKey), Some(PropertyTooLong)}
  {
    hide GoodKey, MetadataKey;
    if m != [] {
      GoodKeyIs(m[0].key);
      PropertiesFault(m[1..]);
      forall i | 0 <= i < |m[1..]| ensures m[1..][i] == m[i + 1] { }
    }
  }

  /** An event is rejected for something that is wrong with it, and for nothing that is
      checked later than something else wrong with it; nothing wrong, no rejection. */
  lemma RejectedForTheFirstFault(p: Provider, a: Activity, now: Instant)
    ensures match Validate(p, a, now)
            case None => forall code :: !Violates(p, a, now, code)
            case Some(code) => Violates(p, a, now, code) && forall other :: Turn(other) < Turn(code) ==> !Violates(p, a, now, other)
  {
    hide ParseDay, InRange, CheckProperties, MetadataKey;
    PropertiesFault(a.metadata);
  }

  // ---------- what is stored and shown ----------

  /** Whatever a keyed call that is let in does, a record that has run out is gone and
      any other but its own is kept as it was. */
  lemma RecordsRunOut(digest: seq<Activity> -> int, s: State, c: Call, k: string)
    requires Authentic(s, c.input) && WellSized(c.input) && k != c.input.provider + ['\0'] + c.input.key
    ensures var t := Handled(digest, s, c).1;
            if c.input.key == "" then t.records == s.records
            else (k in t.records <==> k in s.records && s.records[k].expiresAt >= c.now.seconds)
                 && (k in t.records ==> t.records[k] == s.records[k])
  {
    hide Prepared, Rejected, Entered, New, Facts, Distinct;
  }

  /** How many of the first i events are acceptable. */
  function Before(p: Provider, batch: seq<Activity>, now: Instant, i: nat): nat
    requires i <= |batch|
  {
    if i == 0 then 0 else Before(p, batch, now, i - 1) + if Acceptable(p, batch[i - 1], now) then 1 else 0
  }

  lemma {:induction false} BeforePrefix(p: Provider, batch: seq<Activity>, now: Instant, n: nat, i: nat)
    requires i <= n <= |batch|
    ensures Before(p, batch[..n], now, i) == Before(p, batch, now, i) <= i
  {
    hide Acceptable;
    if i > 0 { BeforePrefix(p, batch, now, n, i - 1); }
  }

  lemma {:induction false} PlacesAreCounted(p: Provider, batch: seq<Activity>, now: Instant)
    ensures |Prepared(p, batch, now)| == Before(p, batch, now, |batch|)
    ensures |Rejected(p, batch, now)| == |batch| - Before(p, batch, now, |batch|)
  {
    hide Validate, Acceptable;
    if batch != [] {
      var n := |batch| - 1;
      ValidIsAcceptable(p, batch[n], now);
      BeforePrefix(p, batch, now, n, n);
      PlacesAreCounted(p, batch[..n], now);
    }
  }

  /** a is entered at place r of the acceptable events, with its provider, subject, ID,
      content and time. */
  ghost predicate EnteredAs(p: Provider, batch: seq<Activity>, now: Instant, r: int, a: Activity) {
    && 0 <= r < |Prepared(p, batch, now)|
    && var e := Prepared(p, batch, now)[r];
       e.key.provider == p.id && e.key.id == a.externalID && e.subject == p.subject && e.activity == a && e.ingestedAt == now.seconds
  }

  /** Event i is reported at place r of the rejected events, with its ID and fault. */
  ghost predicate ReportedAs(p: Provider, batch: seq<Activity>, now: Instant, r: int, a: Activity, i: int) {
    && 0 <= r < |Rejected(p, batch, now)|
    && var x := Rejected(p, batch, now)[r];
       x.eventID == a.externalID && x.index == i && Validate(p, a, now) == Some(x.code)
  }

  /** An acceptable event becomes the ledger entry of its provider, subject, ID, content
      and time, at its place among the acceptable ones; any other is reported with its
      ID, its place in the batch and its fault. */
  lemma {:induction false} EventsKeepTheirPlaces(p: Provider, batch: seq<Activity>, now: Instant, i: nat)
    requires i < |batch|
    ensures var r := Before(p, batch, now, i);
            if Acceptable(p, batch[i], now) then EnteredAs(p, batch, now, r, batch[i])
            else ReportedAs(p, batch, now, i - r, batch[i], i)
    decreases |batch|
  {
    hide Validate, Acceptable, Before;
    var n := |batch| - 1;
    BeforePrefix(p, batch, now, n, i);
    if i < n {
      EventsKeepTheirPlaces(p, batch[..n], now, i);
    } else {
      ValidIsAcceptable(p, batch[n], now);
      BeforePrefix(p, batch, now, n, n);
      PlacesAreCounted(p, batch[..n], now);
    }
  }

  /** What the sink is told of an event says of whom and where it is, when it was, what
      was done and measured and how much, with its properties, its origin and the time
      it was observed at. */
  lemma FactsTellTheEvent(p: Provider, ledger: Ledger, keys: seq<EventKey>, i: nat)
    requires (forall k :: k in keys ==> k in ledger) && i < |keys|
    ensures |Facts(p, ledger, keys)| == |keys|
    ensures var f, e := Facts(p, ledger, keys)[i], ledger[keys[i]];
            && f.subject == e.subject && f.environment == p.environment && f.provider == p.id && f.event == e.key.id
            && f.date == e.activity.date && f.action == e.activity.action && f.metric == e.activity.metric
            && f.value == e.activity.value && f.metadata == e.activity.metadata && f.observedAt == e.activity.observedAt
  {
  }

  /** The sink is told in the order in which the events were first asked for. */
  lemma {:induction false} DistinctInOrder(entries: seq<Entry>, i: nat, j: nat) returns (a: nat, b: nat)
    requires i < j < |Distinct(entries)|
    ensures a < b < |entries| && entries[a].key == Distinct(entries)[i] && entries[b].key == Distinct(entries)[j]
    ensures forall k :: 0 <= k < b ==> entries[k].key != Distinct(entries)[j]
    decreases |entries|
  {
    var n := |entries| - 1;
    var before := Distinct(entries[..n]);
    DistinctIsOnce(entries[..n]);
    assert forall k :: 0 <= k < n ==> entries[..n][k] == entries[k];
    if j < |before| {
      a, b := DistinctInOrder(entries[..n], i, j);
    } else {
      b := n;
      assert before[i] in before;
      a :| 0 <= a < |entries[..n]| && entries[..n][a].key == before[i];
    }
  }
}
