/** Python `datetime` values as far as the enrollment calendar uses them: the
    "%Y %m %d %H %M %S" rendering written by the calendar scraper
    (src/courses/scrape.py:110-111), the `datetime(*map(int, v.split(' ')))` parse that
    reads it back into ENROLLMENT_TIMES (src/const.py:25-30), and `timedelta` addition
    of whole hours (src/courses/scrape.py:84-109). */
module Timestamps {
  import opened Wrappers
  import opened Text

  /** A naive `datetime`; the fields are unbounded so that a parse can hold any integer
      before the range check. */
  datatype DateTime = DateTime(year: int, month: int, day: int,
                               hour: int, minute: int, second: int, microsecond: int)

  /** The exception `datetime(...)`, `int(...)` or `datetime + timedelta` raises. */
  datatype TimeError =
    | ValueError      // a field out of range, or text `int` cannot read
    | TypeError       // the wrong number of arguments
    | OverflowError   // a sum past the year 9999, or an argument beyond a C `int`

  // ---------------------------------------------------------------- the proleptic calendar

  /** Python's `calendar.isleap`. */
  predicate IsLeap(y: int) {
    y % 4 == 0 && (y % 100 != 0 || y % 400 == 0)
  }

  function DaysInMonth(y: int, m: int): (n: int)
    requires 1 <= m <= 12
    ensures 28 <= n <= 31
    ensures n == 29 <==> m == 2 && IsLeap(y)
  {
    if m == 2 then (if IsLeap(y) then 29 else 28)
    else if m == 4 || m == 6 || m == 9 || m == 11 then 30
    else 31
  }

  function DaysInYear(y: int): int {
    if IsLeap(y) then 366 else 365
  }

  /** Every field in range, with no upper bound on the year (date arithmetic steps past
      year 9999 before the caller's bound is checked). */
  predicate InCalendar(dt: DateTime) {
    && 1 <= dt.year
    && 1 <= dt.month <= 12
    && 1 <= dt.day <= DaysInMonth(dt.year, dt.month)
    && 0 <= dt.hour < 24
    && 0 <= dt.minute < 60
    && 0 <= dt.second < 60
    && 0 <= dt.microsecond < 1000000
  }

  /** What the `datetime` constructor accepts: MINYEAR = 1, MAXYEAR = 9999. */
  predicate Valid(dt: DateTime) {
    InCalendar(dt) && dt.year <= 9999
  }

  function DaysBeforeYear(y: int): int
    requires y >= 1
    decreases y
  {
    if y == 1 then 0 else DaysBeforeYear(y - 1) + DaysInYear(y - 1)
  }

  function DaysBeforeMonth(y: int, m: int): int
    requires 1 <= m <= 12
    decreases m
  {
    if m == 1 then 0 else DaysBeforeMonth(y, m - 1) + DaysInMonth(y, m - 1)
  }

  /** Days from 0001-01-01 to the date of `dt`, so that consecutive dates are one apart. */
  function DayNumber(dt: DateTime): int
    requires InCalendar(dt)
  {
    DaysBeforeYear(dt.year) + DaysBeforeMonth(dt.year, dt.month) + dt.day - 1
  }

  /** Whole hours from 0001-01-01 00:00 to `dt`, the model's instant. */
  function HoursSinceEpoch(dt: DateTime): int
    requires InCalendar(dt)
  {
    24 * DayNumber(dt) + dt.hour
  }

  /** The calendar date after that of `dt`, at the same time of day. */
  function NextDay(dt: DateTime): (r: DateTime)
    requires InCalendar(dt)
    ensures InCalendar(r)
  {
    if dt.day < DaysInMonth(dt.year, dt.month) then dt.(day := dt.day + 1)
    else if dt.month < 12 then dt.(month := dt.month + 1, day := 1)
    else dt.(year := dt.year + 1, month := 1, day := 1)
  }

  /** `dt + timedelta(days=n)`. */
  function AddDays(dt: DateTime, n: nat): (r: DateTime)
    requires InCalendar(dt)
    ensures InCalendar(r)
    decreases n
  {
    if n == 0 then dt else AddDays(NextDay(dt), n - 1)
  }

  /** `dt + timedelta(hours=h)`; the minutes, seconds and microseconds are kept. */
  function AddHours(dt: DateTime, h: nat): (r: DateTime)
    requires InCalendar(dt)
    ensures InCalendar(r)
  {
    var total := dt.hour + h;
    AddDays(dt.(hour := total % 24), total / 24)
  }

  lemma {:induction false} DecemberEndsYear(y: int)
    ensures DaysBeforeMonth(y, 12) + 31 == DaysInYear(y)
  {
  }

  /** The next date is the next day number. */
  lemma {:induction false} NextDayNumber(dt: DateTime)
    requires InCalendar(dt)
    ensures DayNumber(NextDay(dt)) == DayNumber(dt) + 1
    ensures NextDay(dt).hour == dt.hour && NextDay(dt).minute == dt.minute
    ensures NextDay(dt).second == dt.second && NextDay(dt).microsecond == dt.microsecond
  {
    if dt.day == DaysInMonth(dt.year, dt.month) && dt.month == 12 {
      DecemberEndsYear(dt.year);
    }
  }

  lemma {:induction false} AddDaysNumber(dt: DateTime, n: nat)
    requires InCalendar(dt)
    ensures DayNumber(AddDays(dt, n)) == DayNumber(dt) + n
    ensures AddDays(dt, n).hour == dt.hour && AddDays(dt, n).minute == dt.minute
    ensures AddDays(dt, n).second == dt.second && AddDays(dt, n).microsecond == dt.microsecond
    decreases n
  {
    if n > 0 {
      NextDayNumber(dt);
      AddDaysNumber(NextDay(dt), n - 1);
    }
  }

  /** Adding `h` hours moves the instant `h` hours on and leaves the minutes, seconds and
      microseconds alone. */
  lemma {:induction false} AddHoursShift(dt: DateTime, h: nat)
    requires InCalendar(dt)
    ensures HoursSinceEpoch(AddHours(dt, h)) == HoursSinceEpoch(dt) + h
    ensures AddHours(dt, h).minute == dt.minute && AddHours(dt, h).second == dt.second
    ensures AddHours(dt, h).microsecond == dt.microsecond
  {
    var total := dt.hour + h;
    AddDaysNumber(dt.(hour := total % 24), total / 24);
  }

  // ---------------------------------------------------------------- rendering and parsing

  /** `dt.strftime("%Y %m %d %H %M %S")`: six zero-padded fields separated by single
      spaces; the microseconds are not written. */
  function Format(dt: DateTime): (r: string)
    requires Valid(dt)
    ensures Split(r, " ") == FormatFields(dt)
  {
    var fs := FormatFields(dt);
    FieldsHaveNoSpace(dt);
    SplitJoin(fs, ' ');
    Join(fs, " ")
  }

  /** No rendered field holds a space. */
  lemma {:induction false} FieldsHaveNoSpace(dt: DateTime)
    requires Valid(dt)
    ensures forall k :: 0 <= k < |FormatFields(dt)| ==> ' ' !in FormatFields(dt)[k]
  {
    var fs := FormatFields(dt);
    forall k | 0 <= k < |fs| ensures ' ' !in fs[k] {
      assert AllDigits(fs[k]);
    }
  }

  function FormatFields(dt: DateTime): (fs: seq<string>)
    requires Valid(dt)
    ensures |fs| == 6 && forall k :: 0 <= k < 6 ==> AllDigits(fs[k])
  {
    [ZeroPad(dt.year, 4), ZeroPad(dt.month, 2), ZeroPad(dt.day, 2),
     ZeroPad(dt.hour, 2), ZeroPad(dt.minute, 2), ZeroPad(dt.second, 2)]
  }

  /** `list(map(int, pieces))`: the integers, or ValueError at the first bad piece. */
  function ParseFields(pieces: seq<string>): (r: Option<seq<int>>)
    ensures r.Some? <==> forall k :: 0 <= k < |pieces| ==> ParseInt(pieces[k]).Some?
    ensures r.Some? ==> |r.value| == |pieces|
    ensures r.Some? ==> forall k :: 0 <= k < |pieces| ==> ParseInt(pieces[k]) == Some(r.value[k])
  {
    if pieces == [] then Some([])
    else
      match ParseInt(pieces[0])
      case None => None
      case Some(x) =>
        match ParseFields(pieces[1..])
        case None => None
        case Some(xs) => Some([x] + xs)
  }

  /** The optional argument at `k`, or its default 0. */
  function Arg(args: seq<int>, k: nat): int {
    if k < |args| then args[k] else 0
  }

  /** The integers the "i" argument format converts: a C `int` of 32 bits. */
  predicate FitsCInt(x: int) {
    -0x8000_0000 <= x < 0x8000_0000
  }

  /** The positional integers `datetime` converts: the first seven arguments given. */
  predicate IntArgsFit(args: seq<int>) {
    forall k | 0 <= k < |args| && k < 7 :: FitsCInt(args[k])
  }

  /** `datetime(*args)`: three to seven positional integers; an eighth would be `tzinfo`,
      which an `int` cannot be, and a ninth would fill the keyword-only `fold`. More than
      nine arguments are refused before any is converted; otherwise the integers are
      converted left to right (OverflowError beyond a C `int`) before a missing argument
      is reported, and the field ranges are checked before the `tzinfo` type. */
  function MakeDateTime(args: seq<int>): (r: Result<DateTime, TimeError>)
    ensures r.Ok? <==> (3 <= |args| <= 7
      && Valid(DateTime(args[0], args[1], args[2], Arg(args, 3), Arg(args, 4), Arg(args, 5), Arg(args, 6))))
    ensures r.Ok? ==> r.value == DateTime(args[0], args[1], args[2], Arg(args, 3), Arg(args, 4), Arg(args, 5), Arg(args, 6))
    ensures r == Err(OverflowError) <==> |args| <= 9 && !IntArgsFit(args)
    ensures r == Err(ValueError) <==> (3 <= |args| <= 8 && IntArgsFit(args)
      && !Valid(DateTime(args[0], args[1], args[2], Arg(args, 3), Arg(args, 4), Arg(args, 5), Arg(args, 6))))
    ensures |args| > 9 || (IntArgsFit(args) && (|args| < 3 || |args| == 9)) ==> r == Err(TypeError)
  {
    if |args| > 9 then Err(TypeError)
    else if !IntArgsFit(args) then Err(OverflowError)
    else if |args| < 3 || |args| == 9 then Err(TypeError)
    else
      var dt := DateTime(args[0], args[1], args[2], Arg(args, 3), Arg(args, 4), Arg(args, 5), Arg(args, 6));
      if !Valid(dt) then Err(ValueError)
      else if |args| == 8 then Err(TypeError)
      else Ok(dt)
  }

  /** `datetime(y, m, d, h)`: minutes, seconds and microseconds default to zero. */
  lemma {:induction false} MakeDateTimeHour(y: int, m: int, d: int, h: int)
    ensures MakeDateTime([y, m, d, h]) ==
      if !(FitsCInt(y) && FitsCInt(m) && FitsCInt(d) && FitsCInt(h)) then Err(OverflowError)
      else if Valid(DateTime(y, m, d, h, 0, 0, 0)) then Ok(DateTime(y, m, d, h, 0, 0, 0))
      else Err(ValueError)
  {
    var args := [y, m, d, h];
    assert IntArgsFit(args) <==> FitsCInt(y) && FitsCInt(m) && FitsCInt(d) && FitsCInt(h) by {
      assert args[0] == y && args[1] == m && args[2] == d && args[3] == h;
    }
    assert Arg(args, 3) == h && Arg(args, 4) == 0 && Arg(args, 5) == 0 && Arg(args, 6) == 0;
  }

  /** `datetime(*map(int, s.split(' ')))`. */
  function ParseTimestamp(s: string): (r: Result<DateTime, TimeError>)
    ensures r.Ok? ==> Valid(r.value)
    ensures (exists k :: 0 <= k < |Split(s, " ")| && ParseInt(Split(s, " ")[k]).None?) ==> r == Err(ValueError)
  {
    match ParseFields(Split(s, " "))
    case None => Err(ValueError)
    case Some(args) => MakeDateTime(args)
  }

  /** The parse accepts exactly what the constructor accepts. */
  lemma {:induction false} ParseIsValid(s: string)
    ensures ParseTimestamp(s).Ok? ==> Valid(ParseTimestamp(s).value)
    ensures ParseTimestamp(s).Ok? ==> 3 <= |Split(s, " ")| <= 7
    ensures |Split(s, " ")| < 3 ==> ParseTimestamp(s).Err?
  {
  }

  /** Reading back a rendered time gives the time itself, microseconds being zero. */
  lemma {:induction false} ParseFormat(dt: DateTime)
    requires Valid(dt) && dt.microsecond == 0
    ensures ParseTimestamp(Format(dt)) == Ok(dt)
  {
    var args := [dt.year, dt.month, dt.day, dt.hour, dt.minute, dt.second];
    FormatFieldsParse(dt);
    assert MakeDateTime(args) == Ok(dt);
  }

  /** Every rendered field reads back as its number. */
  lemma {:induction false} FormatFieldsParse(dt: DateTime)
    requires Valid(dt)
    ensures ParseFields(FormatFields(dt)) == Some([dt.year, dt.month, dt.day, dt.hour, dt.minute, dt.second])
  {
    var fs := FormatFields(dt);
    var xs := [dt.year, dt.month, dt.day, dt.hour, dt.minute, dt.second];
    forall k | 0 <= k < 6 ensures ParseInt(fs[k]) == Some(xs[k]) {
      var widths := [4, 2, 2, 2, 2, 2];
      assert fs[k] == ZeroPad(xs[k], widths[k]);
      ParseZeroPad(xs[k], widths[k]);
    }
    ParseEach(fs, xs);
  }

  /** Pieces that each read as the matching integer read as the whole list. */
  lemma {:induction false} ParseEach(pieces: seq<string>, xs: seq<int>)
    requires |pieces| == |xs|
    requires forall k :: 0 <= k < |pieces| ==> ParseInt(pieces[k]) == Some(xs[k])
    ensures ParseFields(pieces) == Some(xs)
  {
    if pieces != [] {
      ParseEachTail(pieces, xs);
      ParseEach(pieces[1..], xs[1..]);
      assert xs == [xs[0]] + xs[1..];
    }
  }

  lemma {:induction false} ParseEachTail(pieces: seq<string>, xs: seq<int>)
    requires |pieces| == |xs| > 0
    requires forall k :: 0 <= k < |pieces| ==> ParseInt(pieces[k]) == Some(xs[k])
    ensures forall k :: 0 <= k < |pieces| - 1 ==> ParseInt(pieces[1..][k]) == Some(xs[1..][k])
  {
    forall k | 0 <= k < |pieces| - 1 ensures ParseInt(pieces[1..][k]) == Some(xs[1..][k]) {
      assert pieces[1..][k] == pieces[k + 1];
    }
  }

  // ---------------------------------------------------------------- the saved calendar

  /** The saved calendar: quarter, then window name, then the two rendered ends. */
  type RawTimes = map<string, map<string, (string, string)>>

  /** ENROLLMENT_TIMES: quarter, then window name, then start and end. */
  type Times = map<string, map<string, (DateTime, DateTime)>>

  /** Every saved end parses. */
  predicate Loads(raw: RawTimes) {
    forall q, w :: q in raw && w in raw[q] ==>
      ParseTimestamp(raw[q][w].0).Ok? && ParseTimestamp(raw[q][w].1).Ok?
  }

  /** The ENROLLMENT_TIMES comprehension; it fails when any end fails to parse. */
  function LoadTimes(raw: RawTimes): (r: Option<Times>)
    ensures r.Some? <==> Loads(raw)
    ensures r.Some? ==> r.value.Keys == raw.Keys
    ensures r.Some? ==> forall q :: q in raw ==> r.value[q].Keys == raw[q].Keys
    ensures r.Some? ==> forall q, w :: q in raw && w in raw[q] ==>
      Ok(r.value[q][w].0) == ParseTimestamp(raw[q][w].0) && Ok(r.value[q][w].1) == ParseTimestamp(raw[q][w].1)
  {
    if Loads(raw) then
      Some(map q | q in raw :: LoadWindows(raw[q], ParseTimestamp))
    else None
  }

  /** The inner comprehension, over the windows of one quarter, with the parser as a
      parameter. */
  function LoadWindows(ws: map<string, (string, string)>, parse: string -> Result<DateTime, TimeError>)
    : (r: map<string, (DateTime, DateTime)>)
    requires forall w :: w in ws ==> parse(ws[w].0).Ok? && parse(ws[w].1).Ok?
    ensures r.Keys == ws.Keys
    ensures forall w :: w in ws ==> Ok(r[w].0) == parse(ws[w].0) && Ok(r[w].1) == parse(ws[w].1)
  {
    map w | w in ws :: (parse(ws[w].0).value, parse(ws[w].1).value)
  }

  /** Every time of the calendar can be rendered. */
  predicate Saves(t: Times) {
    forall q, w :: q in t && w in t[q] ==> Valid(t[q][w].0) && Valid(t[q][w].1)
  }

  /** The comprehension at src/courses/scrape.py:111 that renders both ends of every window. */
  function SaveTimes(t: Times): (r: RawTimes)
    requires Saves(t)
    ensures r.Keys == t.Keys && forall q :: q in t ==> r[q].Keys == t[q].Keys
  {
    map q | q in t :: map w | w in t[q] :: (Format(t[q][w].0), Format(t[q][w].1))
  }

  /** Loading a saved calendar gives the calendar back when no time has microseconds
      (the scraper's times are whole hours). */
  lemma {:induction false} LoadSave(t: Times)
    requires Saves(t)
    requires forall q, w :: q in t && w in t[q] ==> t[q][w].0.microsecond == 0 && t[q][w].1.microsecond == 0
    ensures LoadTimes(SaveTimes(t)) == Some(t)
  {
    var raw: RawTimes := SaveTimes(t);
    forall q: string, w: string | q in raw && w in raw[q]
      ensures ParseTimestamp(raw[q][w].0) == Ok(t[q][w].0)
      ensures ParseTimestamp(raw[q][w].1) == Ok(t[q][w].1)
    {
      SavedWindow(t, q, w);
    }
    var r := LoadTimes(raw);
    assert r.Some?;
    forall q, w | q in t && w in t[q] ensures r.value[q][w] == t[q][w] {
      assert Ok(r.value[q][w].0) == ParseTimestamp(raw[q][w].0);
      assert Ok(r.value[q][w].1) == ParseTimestamp(raw[q][w].1);
    }
    SameCalendar(r.value, t);
  }

  /** A saved window holds the two rendered ends. */
  lemma {:induction false} SavedWindow(t: Times, q: string, w: string)
    requires Saves(t) && q in t && w in t[q]
    requires t[q][w].0.microsecond == 0 && t[q][w].1.microsecond == 0
    ensures q in SaveTimes(t) && w in SaveTimes(t)[q]
    ensures ParseTimestamp(SaveTimes(t)[q][w].0) == Ok(t[q][w].0)
    ensures ParseTimestamp(SaveTimes(t)[q][w].1) == Ok(t[q][w].1)
  {
    assert SaveTimes(t)[q][w] == (Format(t[q][w].0), Format(t[q][w].1));
    ParseFormat(t[q][w].0);
    ParseFormat(t[q][w].1);
  }

  /** Two calendars with the same quarters, windows and times are the same. */
  lemma {:induction false} SameCalendar(r: Times, t: Times)
    requires r.Keys == t.Keys && forall q :: q in t ==> r[q].Keys == t[q].Keys
    requires forall q, w :: q in t && w in t[q] ==> r[q][w] == t[q][w]
    ensures r == t
  {
    forall q | q in t ensures r[q] == t[q] {
      assert r[q].Keys == t[q].Keys;
    }
  }
}
