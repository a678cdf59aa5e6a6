/** The heatmap's week grid and its per-date counts. Days are numbered from
    1 January 1970, a Thursday. */
module Heatmap {
  import opened Keyset

  const LEFT := 30
  const TOP := 24
  const RIGHT := 8
  const BOTTOM := 8
  const LEGEND := 22
  const DEFAULT_CELL := 11
  const DEFAULT_GAP := 3
  const MAX_INT := 0x7FFF_FFFF_FFFF_FFFF

  /** Whole days that fit a nanosecond duration; longer spans are cut to it. */
  const MAX_DAYS := 106_751

  datatype WeekStart = Sunday | Monday

  // ---------- weeks ----------

  /** 0 is Sunday. */
  function Weekday(day: int): (w: int)
    ensures 0 <= w < 7
  {
    (day + 4) % 7
  }

  function WeekdayIndex(day: int, start: WeekStart): (w: int)
    ensures 0 <= w < 7
  {
    if start == Monday then (Weekday(day) + 6) % 7 else Weekday(day)
  }

  function StartOfWeek(day: int, start: WeekStart): int { day - WeekdayIndex(day, start) }

  function EndOfWeek(day: int, start: WeekStart): int { day + 6 - WeekdayIndex(day, start) }

  /** 1 January 1970 was a Thursday, and weekdays follow one another in sevens: 0 is
      Sunday, 1 Monday and so on. */
  lemma WeekdaysFollow(day: int)
    ensures Weekday(0) == 4 && Weekday(day + 1) == (if Weekday(day) == 6 then 0 else Weekday(day) + 1)
    ensures Weekday(day + 7) == Weekday(day)
  {
  }

  /** A week of seven days begins on the Sunday or the Monday on or before the day. */
  lemma WeekHoldsDay(day: int, start: WeekStart)
    ensures Weekday(StartOfWeek(day, start)) == (if start == Monday then 1 else 0)
    ensures StartOfWeek(day, start) <= day <= EndOfWeek(day, start) == StartOfWeek(day, start) + 6
  {
  }

  /** The whole days between two dates as a duration reports them. */
  function Elapsed(from: int, to: int): int
    requires from <= to
  {
    if to - from > MAX_DAYS then MAX_DAYS else to - from
  }

  function WeekCount(from: int, to: int, start: WeekStart): int
    requires from <= to
  {
    Elapsed(StartOfWeek(from, start), EndOfWeek(to, start)) / 7 + 1
  }

  // ---------- layout ----------

  /** A day's place in the grid. */
  datatype Place = Place(column: int, row: int)

  function PlaceOf(from: int, day: int, start: WeekStart): Place
    requires from <= day
  {
    Place(Elapsed(StartOfWeek(from, start), day) / 7, WeekdayIndex(day, start))
  }

  datatype Square = Square(x: int, y: int)

  function Left(p: Place, step: int): int { LEFT + p.column * step }

  function Top(p: Place, step: int): int { TOP + p.row * step }

  function Width(weeks: int, cell: int, gap: int): int { LEFT + weeks * (cell + gap) - gap + RIGHT }

  function Height(cell: int, gap: int, legend: bool): int {
    TOP + 7 * (cell + gap) - gap + BOTTOM + if legend then LEGEND else 0
  }

  /** Two squares of this size have no point in common. */
  predicate Apart(a: Square, b: Square, cell: int) {
    a.x + cell <= b.x || b.x + cell <= a.x || a.y + cell <= b.y || b.y + cell <= a.y
  }

  predicate Inside(a: Square, cell: int, width: int, height: int) {
    0 <= a.x && a.x + cell <= width && 0 <= a.y && a.y + cell <= height
  }

  function SquareOf(from: int, day: int, start: WeekStart, cell: int, gap: int): Square
    requires from <= day
  {
    var p := PlaceOf(from, day, start);
    Square(Left(p, cell + gap), Top(p, cell + gap))
  }

  /** In a range of days a square stands so many steps right of and below the first
      place, which is 30 by 24, as its day's week and weekday say; a picture of one
      week with the usual cells is 49 by 149. */
  lemma SquaresAreOnAGrid(from: int, day: int, to: int, start: WeekStart, cell: int, gap: int)
    requires from <= day <= to && to - StartOfWeek(from, start) <= REACH && cell > 0 && gap >= 0
    ensures SquareOf(from, day, start, cell, gap).x + cell <= Width(WeekCount(from, to, start), cell, gap)
    ensures SquareOf(from, day, start, cell, gap).y + cell <= Height(cell, gap, false) <= Height(cell, gap, true)
    ensures var o := day - StartOfWeek(from, start);
            && SquareOf(from, day, start, cell, gap).x == 30 + (o / 7) * (cell + gap)
            && SquareOf(from, day, start, cell, gap).y == 24 + (o % 7) * (cell + gap)
    ensures Width(1, 11, 3) == 49 && Height(11, 3, true) == 149 && Height(11, 3, false) == 127
    ensures Width(2, cell, gap) == Width(1, cell, gap) + cell + gap
  {
    PlaceIsOffset(from, day, start);
    GridIsWholeWeeks(from, to, start);
    RoomToTheRight(PlaceOf(from, day, start).column, WeekCount(from, to, start), cell, gap);
    RoomToTheRight(PlaceOf(from, day, start).row, 7, cell, gap);
  }

  /** Every day of the range stands apart from the others, inside the picture. */
  ghost predicate WellLaid(from: int, to: int, start: WeekStart, cell: int, gap: int)
    requires from <= to
  {
    && (forall d, e :: from <= d < e <= to ==>
          Apart(SquareOf(from, d, start, cell, gap), SquareOf(from, e, start, cell, gap), cell))
    && (forall d :: from <= d <= to ==>
          Inside(SquareOf(from, d, start, cell, gap), cell, Width(WeekCount(from, to, start), cell, gap), Height(cell, gap, false)))
  }

  /** How many days from the grid's start a range may reach. */
  const REACH := 106_756

  lemma WeekStarts(day: int, start: WeekStart)
    ensures WeekdayIndex(StartOfWeek(day, start), start) == 0
    ensures WeekdayIndex(EndOfWeek(day, start), start) == 6
  {
  }

  /** Counting on from a week's first day, the index is the day count modulo seven. */
  lemma IndexIsOffset(first: int, day: int, start: WeekStart)
    requires WeekdayIndex(first, start) == 0 && first <= day
    ensures WeekdayIndex(day, start) == (day - first) % 7
  {
  }

  /** The grid is exactly its number of weeks, and a day's place is its offset
      divided by seven, while the range stays within reach. */
  lemma PlaceIsOffset(from: int, day: int, start: WeekStart)
    requires from <= day && day - StartOfWeek(from, start) <= REACH
    ensures var o := day - StartOfWeek(from, start);
            PlaceOf(from, day, start) == Place(o / 7, o % 7)
  {
    WeekStarts(from, start);
    IndexIsOffset(StartOfWeek(from, start), day, start);
  }

  lemma GridIsWholeWeeks(from: int, to: int, start: WeekStart)
    requires from <= to && to - StartOfWeek(from, start) <= REACH
    ensures EndOfWeek(to, start) - StartOfWeek(from, start) + 1 == 7 * WeekCount(from, to, start)
  {
    WeekStarts(from, start);
    WeekStarts(to, start);
    IndexIsOffset(StartOfWeek(from, start), EndOfWeek(to, start), start);
  }

  lemma StepsApart(a: int, b: int, cell: int, gap: int)
    requires a < b && cell >= 0 && gap >= 0
    ensures a * (cell + gap) + cell <= b * (cell + gap)
  {
    assert (a + 1) * (cell + gap) <= b * (cell + gap);
  }

  lemma PlacesApart(p: Place, q: Place, cell: int, gap: int)
    requires p != q && cell >= 0 && gap >= 0
    ensures Apart(Square(Left(p, cell + gap), Top(p, cell + gap)), Square(Left(q, cell + gap), Top(q, cell + gap)), cell)
  {
    if p.column < q.column { StepsApart(p.column, q.column, cell, gap); }
    else if q.column < p.column { StepsApart(q.column, p.column, cell, gap); }
    else if p.row < q.row { StepsApart(p.row, q.row, cell, gap); }
    else { StepsApart(q.row, p.row, cell, gap); }
  }

  lemma PlaceInside(p: Place, weeks: int, cell: int, gap: int)
    requires 0 <= p.column < weeks && 0 <= p.row < 7 && cell >= 0 && gap >= 0
    ensures Inside(Square(Left(p, cell + gap), Top(p, cell + gap)), cell, Width(weeks, cell, gap), Height(cell, gap, false))
  {
    StepsApart(p.column, weeks, cell, gap);
    StepsApart(p.row, 7, cell, gap);
    assert p.column * (cell + gap) >= 0 && p.row * (cell + gap) >= 0;
    StepsApart(0, weeks - p.column, cell, gap);
    RoomToTheRight(p.column, weeks, cell, gap);
    RoomToTheRight(p.row, 7, cell, gap);
  }

  lemma RoomToTheRight(a: int, n: int, cell: int, gap: int)
    requires 0 <= a < n && cell >= 0 && gap >= 0
    ensures a * (cell + gap) + cell <= n * (cell + gap) - gap
  {
    assert (a + 1) * (cell + gap) <= n * (cell + gap);
    assert (a + 1) * (cell + gap) == a * (cell + gap) + cell + gap;
  }

  /** The layout is right exactly for ranges within reach: beyond it two days fall
      on one square. */
  lemma WellLaidExactlyWhenInReach(from: int, to: int, start: WeekStart, cell: int, gap: int)
    requires from <= to && cell > 0 && gap >= 0
    ensures WellLaid(from, to, start, cell, gap) <==> to - StartOfWeek(from, start) <= REACH
  {
    hide Width, Height, Left, Top, WeekCount, Apart;
    var first := StartOfWeek(from, start);
    if to - first <= REACH {
      GridIsWholeWeeks(from, to, start);
      forall d, e | from <= d < e <= to
        ensures Apart(SquareOf(from, d, start, cell, gap), SquareOf(from, e, start, cell, gap), cell)
      {
        PlaceIsOffset(from, d, start);
        PlaceIsOffset(from, e, start);
        PlacesApart(PlaceOf(from, d, start), PlaceOf(from, e, start), cell, gap);
      }
      forall d | from <= d <= to
        ensures Inside(SquareOf(from, d, start, cell, gap), cell, Width(WeekCount(from, to, start), cell, gap), Height(cell, gap, false))
      {
        PlaceIsOffset(from, d, start);
        PlaceInside(PlaceOf(from, d, start), WeekCount(from, to, start), cell, gap);
      }
    } else {
      BeyondReachCollides(from, first + REACH + 1, start);
      var d, e := first + REACH + 1 - 7, first + REACH + 1;
      assert SquareOf(from, d, start, cell, gap) == SquareOf(from, e, start, cell, gap);
      SameSquareTouches(SquareOf(from, d, start, cell, gap), cell);
      assert from <= d < e <= to;
    }
  }

  /** For squares and gaps that fit 32 bits together no coordinate leaves the 64-bit
      range, so the arithmetic above is the machine's. */
  lemma CoordinatesFit(from: int, to: int, day: int, start: WeekStart, cell: int, gap: int, legend: bool)
    requires from <= day <= to && 0 <= cell && 0 <= gap && cell + gap <= 0xFFFF_FFFF
    ensures 0 <= SquareOf(from, day, start, cell, gap).x <= MAX_INT && 0 <= SquareOf(from, day, start, cell, gap).y <= MAX_INT
    ensures 0 <= Width(WeekCount(from, to, start), cell, gap) <= MAX_INT && 0 <= Height(cell, gap, legend) <= MAX_INT
  {
    var p, step := PlaceOf(from, day, start), cell + gap;
    assert 0 <= p.column <= MAX_DAYS && 1 <= WeekCount(from, to, start) <= MAX_DAYS;
    InBounds(p.column, step);
    InBounds(p.row, step);
    InBounds(WeekCount(from, to, start), step);
    assert WeekCount(from, to, start) * step >= step;
  }

  lemma InBounds(n: int, step: int)
    requires 0 <= n <= MAX_DAYS && 0 <= step <= 0xFFFF_FFFF
    ensures 0 <= n * step <= MAX_DAYS * 0xFFFF_FFFF
    ensures n >= 1 ==> n * step >= step
  {
  }

  lemma BeyondReachCollides(from: int, day: int, start: WeekStart)
    requires from <= day - 7 && day - StartOfWeek(from, start) == REACH + 1
    ensures PlaceOf(from, day, start) == PlaceOf(from, day - 7, start)
  {
  }

  lemma SameSquareTouches(a: Square, cell: int)
    requires cell > 0
    ensures !Apart(a, a, cell)
  {
  }

  // ---------- counts ----------

  datatype Date = Valid(day: int) | Invalid(text: string)

  /** Dates sort by their text, which puts valid ones in calendar order. That they all
      come before any other text is a simplification, of which only the choice among
      several errors could depend. */
  predicate Sooner(a: Date, b: Date) {
    match (a, b)
    case (Valid(x), Valid(y)) => x < y
    case (Valid(_), Invalid(_)) => true
    case (Invalid(_), Valid(_)) => false
    case (Invalid(s), Invalid(t)) => Compare(s, t) < 0
  }

  datatype Day = Day(date: Date, count: int)

  function Level(count: int): (l: int)
    ensures 0 <= l <= 4
  {
    if count <= 0 then 0 else if count <= 2 then 1 else if count <= 5 then 2 else if count <= 9 then 3 else 4
  }

  /** One or two count little, three to five more, six to nine still more, ten most. */
  lemma LevelSteps(a: int, b: int)
    requires a <= b
    ensures Level(a) <= Level(b)
    ensures Level(0) == 0 && Level(1) == 1 && Level(2) == 1 && Level(3) == 2 && Level(5) == 2 && Level(6) == 3 && Level(9) == 3 && Level(10) == 4
  {
  }

  datatype Error = NegativeCount | Overflow | InvalidDate | EmptyRange | InvalidRange | UnknownTheme
                 | InvalidCellSize | InvalidGap | InvalidWeekStart

  /** Adding without wrap-around: an error instead of a wrong sum. */
  method AddMetricValues(total: int, value: int) returns (sum: int, error: Option<Error>)
    ensures error.None? <==> total >= 0 && value >= 0 && total + value <= MAX_INT
    ensures error.None? ==> sum == total + value
    ensures total < 0 || value < 0 ==> error == Some(NegativeCount)
  {
    if total < 0 || value < 0 { return 0, Some(NegativeCount); }
    if total > MAX_INT - value { return 0, Some(Overflow); }
    return total + value, None;
  }

  /** What is recorded for one date altogether. */
  function SumOn(days: seq<Day>, date: Date): int {
    if days == [] then 0
    else SumOn(days[..|days| - 1], date) + (if days[|days| - 1].date == date then days[|days| - 1].count else 0)
  }

  function DateOf(d: Day): Date { d.date }

  /** The library's stable sort by date. */
  function ByDate(days: seq<Day>): (r: seq<Day>)
    ensures |r| == |days|
    ensures forall x :: x in r <==> x in days
  {
    Sorted(Sooner, DateOf, days)
  }

  lemma {:induction false} SumOfBoth(a: seq<Day>, b: seq<Day>, date: Date)
    ensures SumOn(a + b, date) == SumOn(a, date) + SumOn(b, date)
  {
    if b == [] {
      assert a + b == a;
    } else {
      var n := |b| - 1;
      assert (a + b)[..|a| + n] == a + b[..n];
      SumOfBoth(a, b[..n], date);
    }
  }

  lemma {:induction false} InsertedSum(days: seq<Day>, d: Day, date: Date)
    ensures SumOn(Inserted(Sooner, DateOf, days, d), date) == SumOn(days, date) + SumOn([d], date)
  {
    SumOfBoth([d], days, date);
    if days != [] && !Sooner(d.date, days[0].date) {
      InsertedSum(days[1..], d, date);
      SumOfBoth([days[0]], days[1..], date);
      SumOfBoth([days[0]], Inserted(Sooner, DateOf, days[1..], d), date);
      assert days == [days[0]] + days[1..];
    }
  }

  lemma {:induction false} SortedSum(days: seq<Day>, date: Date)
    ensures SumOn(ByDate(days), date) == SumOn(days, date)
  {
    if days != [] {
      var n := |days| - 1;
      SortedSum(days[..n], date);
      InsertedSum(ByDate(days[..n]), days[n], date);
      SumOfBoth(days[..n], [days[n]], date);
      assert days == days[..n] + [days[n]];
    }
  }

  predicate Recorded(days: seq<Day>, date: Date) { exists i :: 0 <= i < |days| && days[i].date == date }

  /** All counts are non-negative and every date is a date. */
  predicate Sane(days: seq<Day>) { forall i :: 0 <= i < |days| ==> days[i].date.Valid? && days[i].count >= 0 }

  lemma {:induction false} SumGrows(days: seq<Day>, n: int, date: Date)
    requires 0 <= n <= |days| && Sane(days)
    ensures 0 <= SumOn(days[..n], date) <= SumOn(days, date)
    decreases |days|
  {
    if n < |days| {
      SumGrows(days[..|days| - 1], n, date);
      assert days[..|days| - 1][..n] == days[..n];
    } else {
      assert days[..n] == days;
      if days != [] { SumGrows(days[..|days| - 1], |days| - 1, date); assert days[..|days| - 1][..|days| - 1] == days[..|days| - 1]; }
    }
  }

  datatype Total = Total(count: int, level: int)

  /** Per date the sum of everything recorded for it; an error exactly when a date
      is invalid, a count negative or a sum too large. */
  method NormalizeDays(days: seq<Day>) returns (totals: map<Date, Total>, error: Option<Error>)
    ensures error.None? <==> Sane(days) && forall i :: 0 <= i < |days| ==> SumOn(days, days[i].date) <= MAX_INT
    ensures error.None? ==>
              && (forall date :: date in totals <==> Recorded(days, date))
              && (forall date :: date in totals ==> totals[date] == Total(SumOn(days, date), Level(SumOn(days, date))))
  {
    hide SumOn, Level, Sooner, Recorded, ByDate;
    var ordered := ByDate(days);
    totals := map[];
    SameDays(days, ordered);
    assert forall date :: !Recorded(ordered[..0], date) by { NothingRecorded(ordered); }
    for i := 0 to |ordered|
      invariant Sane(ordered[..i])
      invariant forall date :: date in totals <==> Recorded(ordered[..i], date)
      invariant forall date :: date in totals ==>
                  && totals[date] == Total(SumOn(ordered[..i], date), Level(SumOn(ordered[..i], date)))
                  && 0 <= totals[date].count <= MAX_INT
    {
      var d := ordered[i];
      if d.date.Invalid? { return map[], Some(InvalidDate); }
      Counts(ordered, i, totals);
      var existing := if d.date in totals then totals[d.date].count else 0;
      var sum, failed := AddMetricValues(existing, d.count);
      if failed.Some? {
        Fails(days, ordered, i);
        return map[], failed;
      }
      totals := totals[d.date := Total(sum, Level(sum))];
    }
    assert ordered[..|ordered|] == ordered;
    EachRecorded(days);
    return totals, None;
  }

  /** Sorting keeps every sum, and what is asked of all days. */
  lemma SameDays(days: seq<Day>, ordered: seq<Day>)
    requires ordered == ByDate(days)
    ensures forall date :: SumOn(ordered, date) == SumOn(days, date)
    ensures Sane(ordered) <==> Sane(days)
    ensures forall date :: Recorded(ordered, date) <==> Recorded(days, date)
  {
    hide SumOn, ByDate, Recorded, Sane;
    forall date ensures SumOn(ordered, date) == SumOn(days, date) { SortedSum(days, date); }
    SameMembers(days, ordered);
    SameMembers(ordered, days);
  }

  lemma SameMembers(xs: seq<Day>, ys: seq<Day>)
    requires forall x :: x in xs ==> x in ys
    ensures Sane(ys) ==> Sane(xs)
    ensures forall date :: Recorded(xs, date) ==> Recorded(ys, date)
  {
    forall i | 0 <= i < |xs| ensures exists j :: 0 <= j < |ys| && ys[j] == xs[i] {
      assert xs[i] in ys;
    }
    forall date | Recorded(xs, date) ensures Recorded(ys, date) {
      var i :| 0 <= i < |xs| && xs[i].date == date;
      var j :| 0 <= j < |ys| && ys[j] == xs[i];
      assert ys[j].date == date;
    }
  }

  lemma EachRecorded(days: seq<Day>)
    ensures forall i :: 0 <= i < |days| ==> Recorded(days, days[i].date)
  {
  }

  lemma NothingRecorded(ordered: seq<Day>)
    ensures forall date :: !Recorded(ordered[..0], date)
  {
  }

  /** One day more in the sums. */
  lemma Counts(ordered: seq<Day>, i: int, totals: map<Date, Total>)
    requires 0 <= i < |ordered|
    requires forall date :: date in totals <==> Recorded(ordered[..i], date)
    ensures forall date :: SumOn(ordered[..i + 1], date)
                        == SumOn(ordered[..i], date) + if ordered[i].date == date then ordered[i].count else 0
    ensures ordered[i].date !in totals ==> SumOn(ordered[..i], ordered[i].date) == 0
    ensures ordered[..i + 1] == ordered[..i] + [ordered[i]]
    ensures forall date :: Recorded(ordered[..i + 1], date) <==> Recorded(ordered[..i], date) || ordered[i].date == date
  {
    var was, now := ordered[..i], ordered[..i + 1];
    assert now[i] == ordered[i];
    assert forall j :: 0 <= j < i ==> now[j] == was[j];
    assert ordered[..i + 1][..i] == ordered[..i];
    if ordered[i].date !in totals { NoneOn(ordered[..i], ordered[i].date); }
  }

  lemma {:induction false} NoneOn(days: seq<Day>, date: Date)
    requires forall j :: 0 <= j < |days| ==> days[j].date != date
    ensures SumOn(days, date) == 0
  {
    if days != [] { NoneOn(days[..|days| - 1], date); }
  }

  /** A sum that fails on the way fails altogether. */
  lemma Fails(days: seq<Day>, ordered: seq<Day>, i: int)
    requires ordered == ByDate(days) && 0 <= i < |ordered|
    requires ordered[i].count < 0 || SumOn(ordered[..i], ordered[i].date) + ordered[i].count > MAX_INT
    ensures !(Sane(days) && forall j :: 0 <= j < |days| ==> SumOn(days, days[j].date) <= MAX_INT)
  {
    hide Sorted;
    SameDays(days, ordered);
    if Sane(days) {
      SumGrows(ordered, i + 1, ordered[i].date);
      assert ordered[..i + 1][..i] == ordered[..i];
      assert ordered[i] in days;
    }
  }

  // ---------- the whole picture ----------

  datatype Options = Options(from: Option<Date>, to: Option<Date>, theme: string, cell: int, gap: int, legend: Option<bool>, week: string)

  datatype Cell = Cell(day: int, square: Square, total: Total)

  predicate AllDates(days: seq<Day>) { forall i :: 0 <= i < |days| ==> days[i].date.Valid? }

  /** Neither a given date nor, in its place, a recorded one; the empty text counts as
      no date at all. */
  predicate Missing(days: seq<Day>, given: Option<Date>) {
    if given.None? then days == [] else given.value == Invalid("")
  }

  predicate NoDate(given: Option<Date>) { given.Some? && given.value.Invalid? }

  /** The dates shown: given ones, else the first and last recorded. */
  method ResolveRange(days: seq<Day>, from: Option<Date>, to: Option<Date>) returns (range: Option<(int, int)>, error: Option<Error>)
    ensures range.Some? <==> error.None?
    ensures error == Some(EmptyRange) <==> AllDates(days) && (Missing(days, from) || Missing(days, to))
    ensures error == Some(InvalidDate) <==>
              !AllDates(days) || (!Missing(days, from) && !Missing(days, to) && (NoDate(from) || NoDate(to)))
    ensures error.None? || error.value in {EmptyRange, InvalidDate, InvalidRange}
    ensures error == Some(InvalidRange) ==>
              && (from.Some? ==> from.value.Valid?) && (to.Some? ==> to.value.Valid?)
              && (from.Some? && to.Some? ==> from.value.day > to.value.day)
              && (from.Some? && to.None? ==> forall i :: 0 <= i < |days| ==> days[i].date.day < from.value.day)
              && (from.None? && to.Some? ==> forall i :: 0 <= i < |days| ==> to.value.day < days[i].date.day)
              && (from.Some? || to.Some?)
    ensures range.Some? ==>
              && range.value.0 <= range.value.1
              && (forall i :: 0 <= i < |days| ==> days[i].date.Valid?)
              && (from.Some? ==> from.value == Valid(range.value.0)) && (to.Some? ==> to.value == Valid(range.value.1))
              && (from.None? ==> (exists i :: 0 <= i < |days| && days[i].date == Valid(range.value.0))
                                 && forall i :: 0 <= i < |days| ==> range.value.0 <= days[i].date.day)
              && (to.None? ==> (exists i :: 0 <= i < |days| && days[i].date == Valid(range.value.1))
                               && forall i :: 0 <= i < |days| ==> days[i].date.day <= range.value.1)
  {
    var minimum: Option<Date>, maximum: Option<Date> := None, None;
    for i := 0 to |days|
      invariant forall j :: 0 <= j < i ==> days[j].date.Valid?
      invariant minimum.Some? <==> i > 0
      invariant maximum.Some? <==> i > 0
      invariant minimum.Some? ==> minimum.value.Valid? && (exists j :: 0 <= j < i && days[j].date == minimum.value)
                                  && forall j :: 0 <= j < i ==> minimum.value.day <= days[j].date.day
      invariant maximum.Some? ==> maximum.value.Valid? && (exists j :: 0 <= j < i && days[j].date == maximum.value)
                                  && forall j :: 0 <= j < i ==> days[j].date.day <= maximum.value.day
    {
      var d := days[i].date;
      if d.Invalid? { return None, Some(InvalidDate); }
      if minimum.None? || Sooner(d, minimum.value) { minimum := Some(d); }
      if maximum.None? || Sooner(maximum.value, d) { maximum := Some(d); }
    }
    if from.Some? { minimum := from; }
    if to.Some? { maximum := to; }
    if minimum.None? || maximum.None? || minimum.value == Invalid("") || maximum.value == Invalid("") {
      return None, Some(EmptyRange);
    }
    if minimum.value.Invalid? || maximum.value.Invalid? { return None, Some(InvalidDate); }
    if minimum.value.day > maximum.value.day { return None, Some(InvalidRange); }
    return Some((minimum.value.day, maximum.value.day)), None;
  }

  method Size(weeks: int, cell: int, gap: int, legend: bool) returns (width: int, height: int)
    ensures width == Width(weeks, cell, gap) && height == Height(cell, gap, legend)
  {
    var step := cell + gap;
    width := LEFT + weeks * step - gap + RIGHT;
    height := TOP + 7 * step - gap + BOTTOM;
    if legend { height := height + LEGEND; }
  }

  function Start(week: string): WeekStart { if week == "monday" then Monday else Sunday }

  /** A week starts on a Sunday unless asked to start on a Monday. */
  lemma WeekStartIs(day: int)
    ensures Weekday(StartOfWeek(day, Start("monday"))) == 1
    ensures Weekday(StartOfWeek(day, Start("sunday"))) == 0 && Weekday(StartOfWeek(day, Start(""))) == 0
  {
    WeekHoldsDay(day, Monday);
    WeekHoldsDay(day, Sunday);
  }

  /** One cell a day, in date order, each on its own square inside the picture and
      carrying its date's sum. */
  method Render(days: seq<Day>, o: Options) returns (cells: seq<Cell>, width: int, height: int, error: Option<Error>)
    ensures o.theme !in {"", "light", "dark"} ==> error == Some(UnknownTheme)
    ensures o.theme in {"", "light", "dark"} && o.cell < 0 ==> error == Some(InvalidCellSize)
    ensures o.theme in {"", "light", "dark"} && o.cell >= 0 && o.gap < 0 ==> error == Some(InvalidGap)
    ensures error.None? ==>
              var cell, gap := (if o.cell == 0 then 11 else o.cell), (if o.gap == 0 then 3 else o.gap);
              && cell > 0 && gap >= 0 && o.week in {"", "sunday", "monday"}
              && cells != []
              && (forall i :: 0 <= i < |cells| ==> cells[i].day == cells[0].day + i)
              && (forall i :: 0 <= i < |cells| ==>
                    cells[i].total == if Recorded(days, Valid(cells[i].day))
                                      then Total(SumOn(days, Valid(cells[i].day)), Level(SumOn(days, Valid(cells[i].day))))
                                      else Total(0, 0))
              && (var from, to := cells[0].day, cells[|cells| - 1].day;
                  && width == Width(WeekCount(from, to, Start(o.week)), cell, gap)
                  && height == Height(cell, gap, o.legend != Some(false))
                  && (o.from.Some? ==> o.from.value == Valid(from)) && (o.to.Some? ==> o.to.value == Valid(to))
                  && (forall i :: 0 <= i < |cells| ==> cells[i].square == SquareOf(from, cells[i].day, Start(o.week), cell, gap))
                  && (WellLaid(from, to, Start(o.week), cell, gap) <==> to - StartOfWeek(from, Start(o.week)) <= REACH))
  {
    hide SumOn, Level, Elapsed, WeekdayIndex, WellLaid, Recorded, Width, Height, Left, Top;
    cells, width, height := [], 0, 0;
    if o.theme !in {"", "light", "dark"} { return cells, width, height, Some(UnknownTheme); }
    var cell := if o.cell == 0 then DEFAULT_CELL else o.cell;
    if cell < 0 { return cells, width, height, Some(InvalidCellSize); }
    var gap := if o.gap == 0 then DEFAULT_GAP else o.gap;
    if gap < 0 { return cells, width, height, Some(InvalidGap); }
    if o.week !in {"", "sunday", "monday"} { return cells, width, height, Some(InvalidWeekStart); }
    var range, failed := ResolveRange(days, o.from, o.to);
    if failed.Some? { return cells, width, height, failed; }
    var totals;
    totals, failed := NormalizeDays(days);
    if failed.Some? { return cells, width, height, failed; }
    var (from, to) := range.value;
    var start := Start(o.week);
    WeekOrder(from, to, start);
    var weeks := WeekCount(from, to, start);
    width, height := Size(weeks, cell, gap, o.legend != Some(false));
    var date := from;
    while date <= to
      invariant from <= date <= to + 1 && |cells| == date - from
      invariant forall i :: 0 <= i < |cells| ==>
                  && cells[i].day == from + i && cells[i].square == SquareOf(from, from + i, start, cell, gap)
                  && cells[i].total == if Valid(from + i) in totals then totals[Valid(from + i)] else Total(0, 0)
    {
      var total := if Valid(date) in totals then totals[Valid(date)] else Total(0, 0);
      var p := PlaceOf(from, date, start);
      cells := cells + [Cell(date, Square(Left(p, cell + gap), Top(p, cell + gap)), total)];
      date := date + 1;
    }
    WellLaidExactlyWhenInReach(from, to, start, cell, gap);
    error := None;
  }

  lemma WeekOrder(from: int, to: int, start: WeekStart)
    requires from <= to
    ensures StartOfWeek(from, start) <= from <= to <= EndOfWeek(to, start)
  {
  }
}
