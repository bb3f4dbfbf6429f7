/**
  The date windows of the profit report: a calendar month some months back, the months
  a user has been a member for, and a window cut into week-long or day-long chunks.
  Instants are whole seconds since 1970-01-01 UTC; the clock reading `now` is a parameter.
 */
module DatetimeHelper {
  import opened Wrappers
  import opened Json

  const Day: int := 86400

  /** Days from 0001-01-01 to 1970-01-01 in the proleptic Gregorian calendar. */
  const EpochDays: int := 719162

  /** The first and last year `datetime` accepts. */
  const MinYear: int := 1
  const MaxYear: int := 9999

  predicate IsLeap(y: int) {
    y % 4 == 0 && (y % 100 != 0 || y % 400 == 0)
  }

  function DaysInMonth(y: int, m: int): (n: int)
    requires 1 <= m <= 12
    ensures 28 <= n <= 31
  {
    if m == 2 then (if IsLeap(y) then 29 else 28)
    else if m == 4 || m == 6 || m == 9 || m == 11 then 30
    else 31
  }

  /** The days of year `y` before the first of month `m`. */
  function DaysBeforeMonth(y: int, m: int): int
    requires 1 <= m <= 12
  {
    [0, 31, 59, 90, 120, 151, 181, 212, 243, 273, 304, 334][m - 1] + (if m > 2 && IsLeap(y) then 1 else 0)
  }

  /** The days from 0001-01-01 to the first of January of year `y`. */
  function DaysBeforeYear(y: int): int
    requires y >= 1
  {
    365 * (y - 1) + (y - 1) / 4 - (y - 1) / 100 + (y - 1) / 400
  }

  /** The instant at which month `m` of year `y` begins, UTC. */
  function FirstOfMonth(y: int, m: int): int
    requires y >= 1 && 1 <= m <= 12
  {
    (DaysBeforeYear(y) + DaysBeforeMonth(y, m) - EpochDays) * Day
  }

  /** The month after `(y, m)`. */
  function NextMonth(y: int, m: int): (r: (int, int))
    requires 1 <= m <= 12
    ensures 1 <= r.1 <= 12
    ensures r.0 * 12 + r.1 == y * 12 + m + 1
  {
    if m == 12 then (y + 1, 1) else (y, m + 1)
  }

  lemma Div4Step(n: int)
    requires n >= 1
    ensures n / 4 - (n - 1) / 4 == if n % 4 == 0 then 1 else 0
  {
  }

  lemma Div100Step(n: int)
    requires n >= 1
    ensures n / 100 - (n - 1) / 100 == if n % 100 == 0 then 1 else 0
  {
  }

  lemma Div400Step(n: int)
    requires n >= 1
    ensures n / 400 - (n - 1) / 400 == if n % 400 == 0 then 1 else 0
  {
  }

  /** A year has 365 days, and one more when it is a leap year. */
  lemma YearLength(y: int)
    requires y >= 1
    ensures DaysBeforeYear(y + 1) - DaysBeforeYear(y) == if IsLeap(y) then 366 else 365
  {
    Div4Step(y);
    Div100Step(y);
    Div400Step(y);
  }

  /** The calendar is anchored at the Unix epoch: 1970-01-01 is instant 0, and 2024-03-01 is 1709251200. */
  lemma CalendarAnchors()
    ensures FirstOfMonth(1970, 1) == 0
    ensures FirstOfMonth(2024, 3) == 1709251200
  {
  }

  /** A month spans exactly its days: the next month begins `DaysInMonth` days later. */
  lemma MonthLength(y: int, m: int)
    requires y >= 1 && 1 <= m <= 12
    ensures
      var n := NextMonth(y, m);
      FirstOfMonth(n.0, n.1) - FirstOfMonth(y, m) == DaysInMonth(y, m) * Day
  {
    if m == 12 {
      YearLength(y);
    }
  }

  /** The `while month <= 0` loop: step back a year for every twelve months below 1. */
  function Normalize(y: int, m: int): (r: (int, int))
    ensures r.0 * 12 + r.1 == y * 12 + m
    ensures m >= 1 ==> r == (y, m)
    ensures m <= 0 ==> 1 <= r.1 <= 12
    decreases if m <= 0 then -m + 1 else 0
  {
    if m <= 0 then Normalize(y - 1, m + 12) else (y, m)
  }

  /** A `{"startTime", "endTime"}` window, inclusive at both ends. */
  datatype Window = Window(start: int, end: int)

  /** The month `monthsAgo` months before `(year, month)`, before the range checks. */
  function MonthAt(year: int, month: int, monthsAgo: int): (int, int) {
    Normalize(year, month - monthsAgo)
  }

  /** The month's `datetime` values exist: year within 1..9999, month within 1..12, and the next month too. */
  predicate Constructible(y: int, m: int) {
    MinYear <= y <= MaxYear && 1 <= m <= 12 && (m < 12 || y < MaxYear)
  }

  /**
    `get_month_bounds(months_ago, min_start)` at the instant whose calendar year and month
    are `year` and `month`: the window of the month `months_ago` months back, from its
    first second, raised to `min_start` when that is later, to the second before the next
    month begins. A month past December (a negative `months_ago`) or outside years
    1..9999 makes `datetime` raise ValueError.
   */
  function GetMonthBounds(monthsAgo: int, minStart: Option<int>, year: int, month: int): (r: Result<Window, Exc>)
    requires MinYear <= year <= MaxYear && 1 <= month <= 12
    ensures
      var (y, m) := MonthAt(year, month, monthsAgo);
      && (r.Success? <==> Constructible(y, m))
      && (r.Failure? ==> r.error == ValueError)
      && (r.Success? ==>
           var n := NextMonth(y, m);
           && r.value.end == FirstOfMonth(n.0, n.1) - 1
           && r.value.start == (if minStart.Some? && FirstOfMonth(y, m) < minStart.value then minStart.value else FirstOfMonth(y, m)))
  {
    var (y, m) := MonthAt(year, month, monthsAgo);
    if !(MinYear <= y <= MaxYear && 1 <= m <= 12) then Failure(ValueError)
    else
      var first := FirstOfMonth(y, m);
      if m == 12 && y + 1 > MaxYear then Failure(ValueError)
      else
        var next := if m == 12 then FirstOfMonth(y + 1, 1) else FirstOfMonth(y, m + 1);
        var start := if minStart.Some? && first < minStart.value then minStart.value else first;
        Success(Window(start, next - 1))
  }

  /** Any non-negative `months_ago` lands in a real month; the current month is `months_ago` 0. */
  lemma MonthAtRange(year: int, month: int, monthsAgo: int)
    requires 1 <= month <= 12 && monthsAgo >= 0
    ensures 1 <= MonthAt(year, month, monthsAgo).1 <= 12
    ensures monthsAgo == 0 ==> MonthAt(year, month, monthsAgo) == (year, month)
    ensures monthsAgo == 12 ==> MonthAt(year, month, monthsAgo) == (year - 1, month)
  {
  }

  /** Without `min_start` the window covers every second of the month and no other. */
  lemma MonthBoundsLength(monthsAgo: int, year: int, month: int)
    requires MinYear <= year <= MaxYear && 1 <= month <= 12
    requires GetMonthBounds(monthsAgo, None, year, month).Success?
    ensures
      var (y, m) := MonthAt(year, month, monthsAgo);
      var w := GetMonthBounds(monthsAgo, None, year, month).value;
      w.start == FirstOfMonth(y, m) && w.end - w.start + 1 == DaysInMonth(y, m) * Day
  {
    var (y, m) := MonthAt(year, month, monthsAgo);
    MonthLength(y, m);
  }

  /** Consecutive months tile the time line: each window ends one second before the later one starts. */
  lemma MonthsTile(monthsAgo: int, year: int, month: int)
    requires MinYear <= year <= MaxYear && 1 <= month <= 12
    requires GetMonthBounds(monthsAgo, None, year, month).Success?
    requires GetMonthBounds(monthsAgo + 1, None, year, month).Success?
    ensures GetMonthBounds(monthsAgo + 1, None, year, month).value.end + 1 ==
      GetMonthBounds(monthsAgo, None, year, month).value.start
  {
    var a := MonthAt(year, month, monthsAgo);
    var b := MonthAt(year, month, monthsAgo + 1);
    assert Constructible(a.0, a.1) && Constructible(b.0, b.1);
    var n := NextMonth(b.0, b.1);
    MonthIndexUnique(n, a);
  }

  /** A month is determined by its running index `year * 12 + month`. */
  lemma MonthIndexUnique(a: (int, int), b: (int, int))
    requires 1 <= a.1 <= 12 && 1 <= b.1 <= 12 && a.0 * 12 + a.1 == b.0 * 12 + b.1
    ensures a == b
  {
  }

  /** `max(month['startTime'], first_day_user)` with the end kept. */
  function Clip(w: Window, firstDayUser: int): (r: Window)
    ensures r.end == w.end && r.start >= firstDayUser && r.start >= w.start
    ensures r.start == w.start || r.start == firstDayUser
  {
    Window(if w.start >= firstDayUser then w.start else firstDayUser, w.end)
  }

  /** `filter_months(first_day_user, months)`: the months ending after the user's first day, each clipped to start no earlier. */
  function FilterMonths(firstDayUser: int, months: seq<Window>): (r: seq<Window>)
    ensures |r| <= |months|
    ensures forall i | 0 <= i < |r| :: r[i].end > firstDayUser && r[i].start >= firstDayUser
    ensures forall w | w in r :: exists j | 0 <= j < |months| :: months[j].end > firstDayUser && w == Clip(months[j], firstDayUser)
    ensures forall j | 0 <= j < |months| && months[j].end > firstDayUser :: Clip(months[j], firstDayUser) in r
  {
    if |months| == 0 then []
    else
      var rest := FilterMonths(firstDayUser, months[1..]);
      assert forall j | 1 <= j < |months| :: months[j] == months[1..][j - 1];
      if months[0].end > firstDayUser then [Clip(months[0], firstDayUser)] + rest else rest
  }

  /** Filtering keeps the order: it distributes over concatenation. */
  lemma {:induction false} FilterMonthsAppend(firstDayUser: int, a: seq<Window>, b: seq<Window>)
    ensures FilterMonths(firstDayUser, a + b) == FilterMonths(firstDayUser, a) + FilterMonths(firstDayUser, b)
  {
    if |a| > 0 {
      assert (a + b)[1..] == a[1..] + b;
      assert (a + b)[0] == a[0];
      FilterMonthsAppend(firstDayUser, a[1..], b);
    } else {
      assert a + b == b;
    }
  }

  /** Months that all end after the user's first day are all kept, in order, clipped. */
  lemma {:induction false} FilterMonthsKeepsAll(firstDayUser: int, months: seq<Window>)
    requires forall j | 0 <= j < |months| :: months[j].end > firstDayUser
    ensures |FilterMonths(firstDayUser, months)| == |months|
    ensures forall j | 0 <= j < |months| :: FilterMonths(firstDayUser, months)[j] == Clip(months[j], firstDayUser)
  {
    if |months| > 0 {
      FilterMonthsKeepsAll(firstDayUser, months[1..]);
      var rest := FilterMonths(firstDayUser, months[1..]);
      assert FilterMonths(firstDayUser, months) == [Clip(months[0], firstDayUser)] + rest;
      forall j | 1 <= j < |months| ensures FilterMonths(firstDayUser, months)[j] == Clip(months[j], firstDayUser) {
        assert months[1..][j - 1] == months[j];
      }
    }
  }

  /** The chunk length of `split_into_weeks`: a chunk ends 6 days after it starts. */
  const WeekSpan: int := 6 * Day

  /** The chunk length of `split_into_days`: a chunk ends a second short of a day after it starts. */
  const DaySpan: int := Day - 1

  /** The last instant a chunk may cover: the window's end, or `now` if earlier. */
  function Limit(w: Window, now: int): int {
    if w.end <= now then w.end else now
  }

  /**
    The chunks tile `[start, limit]`: each starts where the previous one ended plus a
    second, the first at `start` and the last at `limit`; every chunk is non-empty and
    spans at most `span` seconds, and all but the last span exactly `span`.
   */
  predicate Tiles(chunks: seq<Window>, start: int, limit: int, span: int) {
    && (forall i | 0 <= i < |chunks| :: chunks[i].start <= chunks[i].end <= limit && chunks[i].end - chunks[i].start <= span)
    && (forall i | 0 <= i < |chunks| - 1 :: chunks[i + 1].start == chunks[i].end + 1 && chunks[i].end - chunks[i].start == span)
    && (|chunks| > 0 ==> chunks[0].start == start && chunks[|chunks| - 1].end == limit)
  }

  /**
    The loop shared by `split_into_weeks` and `split_into_days`, from `current` on: stop
    once `current` passes the window's end or `now`; otherwise cut a chunk of `span`
    seconds clipped to both, and continue a second after it.
   */
  function SplitFrom(current: int, w: Window, now: int, span: int): (chunks: seq<Window>)
    requires span >= 0
    ensures |chunks| == 0 <==> current > Limit(w, now)
    decreases w.end - current
  {
    if current > w.end || current > now then []
    else
      var e1 := if current + span > w.end then w.end else current + span;
      var e := if e1 > now then now else e1;
      [Window(current, e)] + SplitFrom(e + 1, w, now, span)
  }

  /** A full chunk followed by a tiling of the rest, or a last chunk ending at `limit`, tiles from its start. */
  lemma TilesCons(c: Window, rest: seq<Window>, limit: int, span: int)
    requires c.start <= c.end <= limit && c.end - c.start <= span
    requires |rest| == 0 ==> c.end == limit
    requires |rest| > 0 ==> c.end - c.start == span && Tiles(rest, c.end + 1, limit, span)
    ensures Tiles([c] + rest, c.start, limit, span)
  {
    var chunks := [c] + rest;
    assert forall i | 1 <= i < |chunks| :: chunks[i] == rest[i - 1];
  }

  /** Chunks cut from `current` tile `[current, limit]`. */
  lemma {:induction false} SplitFromTiles(current: int, w: Window, now: int, span: int)
    requires span >= 0
    ensures Tiles(SplitFrom(current, w, now, span), current, Limit(w, now), span)
    decreases w.end - current
  {
    var chunks := SplitFrom(current, w, now, span);
    if current <= Limit(w, now) {
      var c := chunks[0];
      var rest := SplitFrom(c.end + 1, w, now, span);
      assert chunks == [c] + rest;
      SplitFromTiles(c.end + 1, w, now, span);
      TilesCons(c, rest, Limit(w, now), span);
    }
  }

  /** `split_into_weeks(month_bounds)`: chunks ending six days after they start, tiling the window up to `now`. */
  function SplitIntoWeeks(w: Window, now: int): (chunks: seq<Window>)
    ensures |chunks| == 0 <==> w.start > w.end || w.start > now
    ensures Tiles(chunks, w.start, Limit(w, now), WeekSpan)
  {
    SplitFromTiles(w.start, w, now, WeekSpan);
    SplitFrom(w.start, w, now, WeekSpan)
  }

  /** `split_into_days(month_bounds)`: chunks of one day tiling the window up to `now`. */
  function SplitIntoDays(w: Window, now: int): (chunks: seq<Window>)
    ensures |chunks| == 0 <==> w.start > w.end || w.start > now
    ensures Tiles(chunks, w.start, Limit(w, now), DaySpan)
  {
    SplitFromTiles(w.start, w, now, DaySpan);
    SplitFrom(w.start, w, now, DaySpan)
  }

  /** Tiling chunks cover exactly the seconds of `[start, limit]`: each such second lies in one chunk. */
  lemma {:induction false} TilesCover(chunks: seq<Window>, start: int, limit: int, span: int, t: int)
    requires |chunks| > 0 && Tiles(chunks, start, limit, span)
    requires start <= t <= limit
    ensures exists i | 0 <= i < |chunks| :: chunks[i].start <= t <= chunks[i].end
    decreases |chunks|
  {
    var last := |chunks| - 1;
    if t < chunks[last].start {
      assert last > 0;
      var front := chunks[..last];
      assert chunks[last].start == chunks[last - 1].end + 1;
      assert Tiles(front, start, chunks[last - 1].end, span) by {
        forall i | 0 <= i < |front| ensures front[i].end <= chunks[last - 1].end {
          TilesIncreasing(chunks, start, limit, span, i, last - 1);
        }
      }
      TilesCover(front, start, chunks[last - 1].end, span, t);
      var i :| 0 <= i < |front| && front[i].start <= t <= front[i].end;
      assert chunks[i] == front[i];
    }
  }

  /** Later chunks end later. */
  lemma {:induction false} TilesIncreasing(chunks: seq<Window>, start: int, limit: int, span: int, i: int, j: int)
    requires Tiles(chunks, start, limit, span) && 0 <= i <= j < |chunks|
    ensures chunks[i].end <= chunks[j].end
    decreases j - i
  {
    if i < j {
      TilesIncreasing(chunks, start, limit, span, i + 1, j);
    }
  }
}
