/** The enrollment-window table built by `scrape_enrollment_calendar`
    (src/courses/scrape.py:63-113). The calendar page arrives as the rows of its table
    after BeautifulSoup: the text of each row's first cell and of the four cells that
    follow it. Every window end is its quarter's start plus a whole number of hours, so
    `HoursSinceEpoch` measures all of them on one integer line. Fetching the page and
    writing the JSON file are not part of this model. */
module Calendar {
  import opened Wrappers
  import opened Text
  import opened Timestamps

  /** A table row: its first cell and the fall, winter, spring and summer cells after it. */
  datatype Row = Row(entry: string, fall: string, winter: string, spring: string, summer: string)

  /** The cells `zip(data, (fall, winter, spring, summer))` pairs with the quarters. */
  function Cells(r: Row): seq<string> {
    [r.fall, r.winter, r.spring, r.summer]
  }

  /** Window name to its start and end. */
  type Windows = map<string, (DateTime, DateTime)>

  /** Lines 67-72: the quarter keys, in the order the dict literal gives them. */
  function QuarterKeys(year: int): (r: seq<string>)
    ensures |r| == 4
  {
    ["FA" + IntToString(year), "WI" + IntToString(year + 1),
     "SP" + IntToString(year + 1), "SU" + IntToString(year + 1)]
  }

  /** The four quarter keys are all in `data`. */
  predicate HasQuarters(data: Times, year: int) {
    forall k :: 0 <= k < 4 ==> QuarterKeys(year)[k] in data
  }

  /** Lines 67-72: each quarter starts with no windows. */
  function Initial(year: int): Times {
    var keys := QuarterKeys(year);
    map[keys[0] := map[], keys[1] := map[], keys[2] := map[], keys[3] := map[]]
  }

  /** `data[qtr]` for a quarter key. */
  function Table(data: Times, q: string): Windows {
    if q in data then data[q] else map[]
  }

  // ---------------------------------------------------------------- windows

  /** A named window from `start + from` hours to `start + to` hours. */
  datatype Window = Window(name: string, from: nat, to: nat)

  /** Lines 85-88 and 99-102: the four priority windows, the first three days long and
      the others one day each. */
  function PriorityWindows(prefix: string): seq<Window> {
    [Window(prefix + "4", 0, 72), Window(prefix + "3", 72, 96),
     Window(prefix + "2", 96, 120), Window(prefix + "1", 120, 144)]
  }

  /** Lines 106-109: the first-year windows. */
  function FirstYearWindows(): seq<Window> {
    [Window("fpt", 0, 24), Window("fpf", 24, 112), Window("spt", 120, 144), Window("spf", 144, 232)]
  }

  /** Lines 83, 97 and 104: `m, d = text.strip().split('/')` then `int(m)`, `int(d)`;
      None when the split is not two pieces or a piece is not an integer. */
  function MonthDay(text: string): (r: Option<(int, int)>)
    ensures r.Some? <==> var parts := Split(Strip(text), "/");
      |parts| == 2 && ParseInt(parts[0]).Some? && ParseInt(parts[1]).Some?
    ensures r.Some? ==> var parts := Split(Strip(text), "/");
      |parts| == 2 && r.value == (ParseInt(parts[0]).value, ParseInt(parts[1]).value)
  {
    var parts := Split(Strip(text), "/");
    if |parts| != 2 then None
    else
      match (ParseInt(parts[0]), ParseInt(parts[1]))
      case (Some(m), Some(d)) => Some((m, d))
      case _ => None
  }

  /** Lines 83-84, 97-98 and 104-105: 8:00 on day `d` of month `m` of the year
      2000 + `year`, where `m` and `d` are the two pieces of the cell read as integers.
      Unpacking a split that is not two pieces, `int` of a piece that is not an integer
      and a day outside the calendar raise ValueError; a number beyond a C `int` raises
      OverflowError in the `datetime` call. */
  function StartDate(text: string, year: int): (r: Result<DateTime, TimeError>)
    ensures MonthDay(text).None? ==> r == Err(ValueError)
    ensures r.Ok? <==> var md := MonthDay(text);
      md.Some? && Valid(DateTime(2000 + year, md.value.0, md.value.1, 8, 0, 0, 0))
    ensures r.Ok? ==> var md := MonthDay(text);
      && md.Some?
      && r.value == DateTime(2000 + year, md.value.0, md.value.1, 8, 0, 0, 0)
      && Valid(r.value)
    ensures r == Err(OverflowError) <==> var md := MonthDay(text);
      md.Some? && !(FitsCInt(2000 + year) && FitsCInt(md.value.0) && FitsCInt(md.value.1))
    ensures r.Err? ==> r.error == ValueError || r.error == OverflowError
  {
    var md := MonthDay(text);
    if md.None? then Err(ValueError)
    else
      MakeDateTimeHour(2000 + year, md.value.0, md.value.1, 8);
      MakeDateTime([2000 + year, md.value.0, md.value.1, 8])
  }

  /** A cell "m/d" written with the numbers in decimal, zero-padded or not ("9/24" or
      "09/24"), reads back as the month `m` and the day `d`. */
  lemma {:induction false} MonthDayOfCell(m: nat, d: nat, mw: nat, dw: nat)
    ensures MonthDay(ZeroPad(m, mw) + "/" + ZeroPad(d, dw)) == Some((m, d))
  {
    CellPieces(ZeroPad(m, mw), ZeroPad(d, dw));
    ParseZeroPad(m, mw);
    ParseZeroPad(d, dw);
  }

  /** Two runs of digits joined by '/' split back into the two runs. */
  lemma {:induction false} CellPieces(a: string, b: string)
    requires a != [] && AllDigits(a) && b != [] && AllDigits(b)
    ensures Split(Strip(a + "/" + b), "/") == [a, b]
  {
    CellStripped(a, b);
    var pieces := [a, b];
    assert '/' !in a by { assert forall k :: 0 <= k < |a| ==> IsDigit(a[k]); }
    assert '/' !in b by { assert forall k :: 0 <= k < |b| ==> IsDigit(b[k]); }
    assert Join(pieces, "/") == a + "/" + b by {
      assert pieces[1..] == [b];
    }
    SplitJoin(pieces, '/');
  }

  /** Such a cell has no white space at either end. */
  lemma {:induction false} CellStripped(a: string, b: string)
    requires a != [] && AllDigits(a) && b != [] && AllDigits(b)
    ensures Strip(a + "/" + b) == a + "/" + b
  {
    var cell := a + "/" + b;
    assert cell[0] == a[0] && cell[|cell| - 1] == b[|b| - 1];
    assert IsDigit(a[0]) && IsDigit(b[|b| - 1]);
    StripStripped(cell);
  }

  /** Such a cell gives 8:00 on day `d` of month `m` when that day exists; a month or
      day beyond a C `int`, such as "99999999999/1", raises OverflowError. */
  lemma {:induction false} StartDateOfCell(m: nat, d: nat, mw: nat, dw: nat, year: int)
    ensures StartDate(ZeroPad(m, mw) + "/" + ZeroPad(d, dw), year) == MakeDateTime([2000 + year, m, d, 8])
    ensures Valid(DateTime(2000 + year, m, d, 8, 0, 0, 0)) ==>
              StartDate(ZeroPad(m, mw) + "/" + ZeroPad(d, dw), year) == Ok(DateTime(2000 + year, m, d, 8, 0, 0, 0))
    ensures !FitsCInt(m) || !FitsCInt(d) ==>
              StartDate(ZeroPad(m, mw) + "/" + ZeroPad(d, dw), year) == Err(OverflowError)
  {
    MonthDayOfCell(m, d, mw, dw);
    MakeDateTimeHour(2000 + year, m, d, 8);
  }

  /** The assignments `data[qtr][name] = (start + from, start + to)`, in order; a sum past
      the year 9999 raises OverflowError. */
  function SetWindows(table: Windows, s: DateTime, ws: seq<Window>): (r: Result<Windows, TimeError>)
    requires InCalendar(s)
    ensures r.Err? ==> r.error == OverflowError
    ensures r.Ok? ==> table.Keys <= r.value.Keys
    decreases |ws|
  {
    if ws == [] then Ok(table)
    else
      var w := ws[0];
      var a := AddHours(s, w.from);
      var b := AddHours(s, w.to);
      if a.year > 9999 || b.year > 9999 then Err(OverflowError)
      else SetWindows(table[w.name := (a, b)], s, ws[1..])
  }

  // ---------------------------------------------------------------- rows

  /** Lines 81-88 and 95-102 for one quarter: a quarter whose own cell holds no '/' is
      skipped; otherwise it gets the windows `ws` from the date in `date`. */
  function QuarterStep(data: Times, year: int, key: string, cell: string, date: string,
                       ws: seq<Window>): (r: Result<Times, TimeError>)
    ensures '/' !in cell ==> r == Ok(data)
    ensures r.Ok? ==> r.value.Keys == data.Keys + (if '/' in cell then {key} else {})
    ensures r.Err? ==> r.error == ValueError || r.error == OverflowError
  {
    if '/' !in cell then Ok(data)
    else
      match StartDate(date, year)
      case Err(e) => Err(e)
      case Ok(s) =>
        match SetWindows(Table(data, key), s, ws)
        case Err(e) => Err(e)
        case Ok(t) => Ok(data[key := t])
  }

  /** Lines 80-88 and 94-102 from quarter `q` on, stopping at the first error. */
  function Quarters(data: Times, year: int, keys: seq<string>, cells: seq<string>, dates: seq<string>,
                    ws: seq<Window>, q: nat): (r: Result<Times, TimeError>)
    requires |keys| == |cells| == |dates|
    ensures r.Ok? && (forall k :: q <= k < |keys| ==> keys[k] in data) ==> r.value.Keys == data.Keys
    ensures r.Err? ==> r.error == ValueError || r.error == OverflowError
    decreases |keys| - q
  {
    if q >= |keys| then Ok(data)
    else
      match QuarterStep(data, year, keys[q], cells[q], dates[q], ws)
      case Err(e) => Err(e)
      case Ok(d) => Quarters(d, year, keys, cells, dates, ws, q + 1)
  }

  /** Lines 75-88. Each quarter whose own cell holds '/' gets the "fp" windows; as
      written, line 83 reads their start from the fall cell for every quarter. Every other
      table is kept. */
  function EnrollmentRow(data: Times, year: int, r: Row): (t: Result<Times, TimeError>)
    ensures t.Ok? && HasQuarters(data, year) ==> t.value.Keys == data.Keys
    ensures t.Ok? ==> forall k :: 0 <= k < 4 ==>
              Received(data, t.value, year, QuarterKeys(year)[k], Cells(r)[k], r.fall, PriorityWindows("fp"))
    ensures t.Ok? ==> forall n :: n !in QuarterKeys(year) ==> Kept(data, t.value, n)
    ensures t.Err? ==> t.error == ValueError || t.error == OverflowError
  {
    var dates := [r.fall, r.fall, r.fall, r.fall];
    assert forall k :: 0 <= k < 4 ==> dates[k] == r.fall;
    QuarterKeysDistinct(year);
    QuartersAllReceived(data, year, QuarterKeys(year), Cells(r), dates, PriorityWindows("fp"));
    Quarters(data, year, QuarterKeys(year), Cells(r), dates, PriorityWindows("fp"), 0)
  }

  /** Lines 89-102: each quarter whose own cell holds '/' gets the "sp" windows from the
      date in that cell. Every other table is kept. */
  function WaitListRow(data: Times, year: int, r: Row): (t: Result<Times, TimeError>)
    ensures t.Ok? && HasQuarters(data, year) ==> t.value.Keys == data.Keys
    ensures t.Ok? ==> forall k :: 0 <= k < 4 ==>
              Received(data, t.value, year, QuarterKeys(year)[k], Cells(r)[k], Cells(r)[k], PriorityWindows("sp"))
    ensures t.Ok? ==> forall n :: n !in QuarterKeys(year) ==> Kept(data, t.value, n)
    ensures t.Err? ==> t.error == ValueError || t.error == OverflowError
  {
    QuarterKeysDistinct(year);
    QuartersAllReceived(data, year, QuarterKeys(year), Cells(r), Cells(r), PriorityWindows("sp"));
    Quarters(data, year, QuarterKeys(year), Cells(r), Cells(r), PriorityWindows("sp"), 0)
  }

  /** Lines 103-109: the fall quarter gets the first-year windows from the date in the cell
      after the label; every other table is kept. Line 104 splits that cell without testing
      for '/' first, so this is a quarter step whose cell always holds one. */
  function FirstYearRow(data: Times, year: int, r: Row): (t: Result<Times, TimeError>)
    ensures t.Ok? && HasQuarters(data, year) ==> t.value.Keys == data.Keys
    ensures t.Ok? ==> Received(data, t.value, year, QuarterKeys(year)[0], "/", r.fall, FirstYearWindows())
    ensures t.Ok? ==> forall n :: n != QuarterKeys(year)[0] ==> Kept(data, t.value, n)
    ensures StartDate(r.fall, year).Err? ==> t == Err(StartDate(r.fall, year).error)
    ensures t.Err? ==> t.error == ValueError || t.error == OverflowError
  {
    var t := QuarterStep(data, year, QuarterKeys(year)[0], "/", r.fall, FirstYearWindows());
    if t.Ok? then
      QuarterStepReceived(data, year, QuarterKeys(year)[0], "/", r.fall, FirstYearWindows());
      t
    else t
  }

  // ---------------------------------------------------------------- what each quarter receives

  /** Quarter `key` of `t`, against `data`: unchanged when its cell holds no '/', and
      otherwise its table with the windows `ws` set from the date in `date`. */
  predicate Received(data: Times, t: Times, year: int, key: string, cell: string, date: string,
                     ws: seq<Window>)
  {
    if '/' !in cell then Kept(data, t, key)
    else StartDate(date, year).Ok?
         && SetWindows(Table(data, key), StartDate(date, year).value, ws) == Ok(Table(t, key))
         && key in t
  }

  /** Key `n` is in `t` iff it is in `data`, with the same table. */
  predicate Kept(data: Times, t: Times, n: string) {
    (n in t <==> n in data) && Table(t, n) == Table(data, n)
  }

  /** The four quarter keys differ in their first two letters. */
  lemma {:induction false} QuarterKeysDistinct(year: int)
    ensures forall i, j :: 0 <= i < j < 4 ==> QuarterKeys(year)[i] != QuarterKeys(year)[j]
  {
    var keys := QuarterKeys(year);
    assert keys[0][0] == 'F' && keys[1][0] == 'W' && keys[2][..2] == "SP" && keys[3][..2] == "SU";
    assert keys[2][0] == 'S' && keys[3][0] == 'S';
  }

  /** One quarter step gives its quarter what `Received` says and keeps every other key. */
  lemma {:induction false} QuarterStepReceived(data: Times, year: int, key: string, cell: string,
                                               date: string, ws: seq<Window>)
    requires QuarterStep(data, year, key, cell, date, ws).Ok?
    ensures Received(data, QuarterStep(data, year, key, cell, date, ws).value, year, key, cell, date, ws)
    ensures forall n :: n != key ==> Kept(data, QuarterStep(data, year, key, cell, date, ws).value, n)
  {
    if '/' in cell {
      var s := StartDate(date, year).value;
      assert SetWindows(Table(data, key), s, ws).Ok?;
    }
  }

  /** The steps from quarter `q` on keep a key none of them names. */
  lemma {:induction false} QuartersKeep(data: Times, year: int, keys: seq<string>, cells: seq<string>,
                                        dates: seq<string>, ws: seq<Window>, q: nat, n: string)
    requires |keys| == |cells| == |dates|
    requires Quarters(data, year, keys, cells, dates, ws, q).Ok?
    requires forall i :: q <= i < |keys| ==> keys[i] != n
    ensures Kept(data, Quarters(data, year, keys, cells, dates, ws, q).value, n)
    decreases |keys| - q
  {
    if q < |keys| {
      QuarterStepReceived(data, year, keys[q], cells[q], dates[q], ws);
      var d := QuarterStep(data, year, keys[q], cells[q], dates[q], ws).value;
      QuartersKeep(d, year, keys, cells, dates, ws, q + 1, n);
    }
  }

  /** Quarter `k`, named by no other step, ends with what its own step gave it. */
  lemma {:induction false} QuartersReceived(data: Times, year: int, keys: seq<string>, cells: seq<string>,
                                            dates: seq<string>, ws: seq<Window>, q: nat, k: nat)
    requires |keys| == |cells| == |dates|
    requires Quarters(data, year, keys, cells, dates, ws, q).Ok?
    requires q <= k < |keys|
    requires forall i :: q <= i < |keys| && i != k ==> keys[i] != keys[k]
    ensures Received(data, Quarters(data, year, keys, cells, dates, ws, q).value, year, keys[k], cells[k], dates[k], ws)
    decreases |keys| - q
  {
    QuarterStepReceived(data, year, keys[q], cells[q], dates[q], ws);
    var d := QuarterStep(data, year, keys[q], cells[q], dates[q], ws).value;
    if q == k {
      QuartersKeep(d, year, keys, cells, dates, ws, q + 1, keys[k]);
    } else {
      QuartersReceived(d, year, keys, cells, dates, ws, q + 1, k);
    }
  }

  /** With distinct keys, every quarter ends with what its own step gave it, and every
      key that is not a quarter is kept. */
  lemma {:induction false} QuartersAllReceived(data: Times, year: int, keys: seq<string>, cells: seq<string>,
                                               dates: seq<string>, ws: seq<Window>)
    requires |keys| == |cells| == |dates|
    requires forall i, j :: 0 <= i < j < |keys| ==> keys[i] != keys[j]
    ensures Quarters(data, year, keys, cells, dates, ws, 0).Ok? ==>
              forall k :: 0 <= k < |keys| ==>
                Received(data, Quarters(data, year, keys, cells, dates, ws, 0).value, year, keys[k], cells[k], dates[k], ws)
    ensures Quarters(data, year, keys, cells, dates, ws, 0).Ok? ==>
              forall n :: n !in keys ==> Kept(data, Quarters(data, year, keys, cells, dates, ws, 0).value, n)
  {
    if Quarters(data, year, keys, cells, dates, ws, 0).Ok? {
      forall k | 0 <= k < |keys|
        ensures Received(data, Quarters(data, year, keys, cells, dates, ws, 0).value, year, keys[k], cells[k], dates[k], ws)
      {
        forall i | 0 <= i < |keys| && i != k ensures keys[i] != keys[k] {
          if i < k { assert keys[i] != keys[k]; } else { assert keys[k] != keys[i]; }
        }
        QuartersReceived(data, year, keys, cells, dates, ws, 0, k);
      }
      forall n | n !in keys ensures Kept(data, Quarters(data, year, keys, cells, dates, ws, 0).value, n) {
        QuartersKeep(data, year, keys, cells, dates, ws, 0, n);
      }
    }
  }

  /** One iteration of the loop at line 73: the three label tests, in order. */
  function RowStep(data: Times, year: int, r: Row): (t: Result<Times, TimeError>)
    ensures t.Ok? && HasQuarters(data, year) ==> t.value.Keys == data.Keys
    ensures t.Err? ==> t.error == ValueError || t.error == OverflowError
  {
    var head := Strip(r.entry);
    var d1 := if StartsWith(head, "Enrollment begins") then EnrollmentRow(data, year, r) else Ok(data);
    match d1
    case Err(e) => Err(e)
    case Ok(t1) =>
      var d2 := if StartsWith(head, "Wait Lists") then WaitListRow(t1, year, r) else Ok(t1);
      match d2
      case Err(e) => Err(e)
      case Ok(t2) => if StartsWith(head, "New undergraduate student") then FirstYearRow(t2, year, r) else Ok(t2)
  }

  /** The remaining rows from `data`. */
  function Rows(data: Times, year: int, rows: seq<Row>): (r: Result<Times, TimeError>)
    ensures r.Ok? && HasQuarters(data, year) ==> r.value.Keys == data.Keys
    ensures r.Err? ==> r.error == ValueError || r.error == OverflowError
    decreases |rows|
  {
    if rows == [] then Ok(data)
    else
      match RowStep(data, year, rows[0])
      case Err(e) => Err(e)
      case Ok(d) => Rows(d, year, rows[1..])
  }

  /** Lines 67-109: the windows of every row after the header row. The calendar keeps
      exactly the four quarter keys of line 67, and every instant in it is a valid
      `datetime` without microseconds. */
  function CalendarTimes(year: int, rows: seq<Row>): (r: Result<Times, TimeError>)
    ensures r.Ok? ==> r.value.Keys == Initial(year).Keys && Clean(r.value)
    ensures r.Err? ==> r.error == ValueError || r.error == OverflowError
  {
    var body := if rows == [] then [] else rows[1..];
    var t := Rows(Initial(year), year, body);
    if t.Ok? then
      RowsClean(Initial(year), year, body);
      t
    else t
  }
  // ---------------------------------------------------------------- the saved file (lines 110-111)

  /** Every instant of a table is a valid `datetime` with no microseconds. */
  predicate WindowsClean(w: Windows) {
    forall n :: n in w ==>
      Valid(w[n].0) && Valid(w[n].1) && w[n].0.microsecond == 0 && w[n].1.microsecond == 0
  }

  /** Every table of the calendar is clean. */
  predicate Clean(t: Times) {
    forall q :: q in t ==> WindowsClean(t[q])
  }

  /** Lines 110-111: both ends of every window rendered with "%Y %m %d %H %M %S". */
  function Saved(year: int, rows: seq<Row>): Result<RawTimes, TimeError> {
    match CalendarTimes(year, rows)
    case Err(e) => Err(e)
    case Ok(t) =>
      CalendarClean(year, rows);
      Ok(SaveTimes(t))
  }

  /** Setting windows from a clean start keeps a table clean. */
  lemma {:induction false} SetWindowsClean(table: Windows, s: DateTime, ws: seq<Window>)
    requires Valid(s) && s.microsecond == 0 && WindowsClean(table)
    requires SetWindows(table, s, ws).Ok?
    ensures WindowsClean(SetWindows(table, s, ws).value)
    decreases |ws|
  {
    if ws != [] {
      AddHoursShift(s, ws[0].from);
      AddHoursShift(s, ws[0].to);
      var a := AddHours(s, ws[0].from);
      var b := AddHours(s, ws[0].to);
      SetWindowsClean(table[ws[0].name := (a, b)], s, ws[1..]);
    }
  }

  lemma {:induction false} QuartersClean(data: Times, year: int, keys: seq<string>, cells: seq<string>,
                                         dates: seq<string>, ws: seq<Window>, q: nat)
    requires |keys| == |cells| == |dates|
    requires Clean(data) && Quarters(data, year, keys, cells, dates, ws, q).Ok?
    ensures Clean(Quarters(data, year, keys, cells, dates, ws, q).value)
    decreases |keys| - q
  {
    if q < |keys| {
      QuarterStepClean(data, year, keys[q], cells[q], dates[q], ws);
      var d := QuarterStep(data, year, keys[q], cells[q], dates[q], ws).value;
      QuartersClean(d, year, keys, cells, dates, ws, q + 1);
    }
  }

  lemma {:induction false} QuarterStepClean(data: Times, year: int, key: string, cell: string,
                                            date: string, ws: seq<Window>)
    requires Clean(data) && QuarterStep(data, year, key, cell, date, ws).Ok?
    ensures Clean(QuarterStep(data, year, key, cell, date, ws).value)
  {
    if '/' in cell {
      var s := StartDate(date, year).value;
      SetWindowsClean(Table(data, key), s, ws);
    }
  }

  lemma {:induction false} RowStepClean(data: Times, year: int, r: Row)
    requires Clean(data) && RowStep(data, year, r).Ok?
    ensures Clean(RowStep(data, year, r).value)
  {
    var head := Strip(r.entry);
    var t1 := data;
    if StartsWith(head, "Enrollment begins") {
      EnrollmentRowClean(data, year, r);
      t1 := EnrollmentRow(data, year, r).value;
    }
    var t2 := t1;
    if StartsWith(head, "Wait Lists") {
      WaitListRowClean(t1, year, r);
      t2 := WaitListRow(t1, year, r).value;
    }
    if StartsWith(head, "New undergraduate student") {
      FirstYearRowClean(t2, year, r);
    }
  }

  lemma {:induction false} EnrollmentRowClean(data: Times, year: int, r: Row)
    requires Clean(data) && EnrollmentRow(data, year, r).Ok?
    ensures Clean(EnrollmentRow(data, year, r).value)
  {
    QuartersClean(data, year, QuarterKeys(year), Cells(r), [r.fall, r.fall, r.fall, r.fall], PriorityWindows("fp"), 0);
  }

  lemma {:induction false} WaitListRowClean(data: Times, year: int, r: Row)
    requires Clean(data) && WaitListRow(data, year, r).Ok?
    ensures Clean(WaitListRow(data, year, r).value)
  {
    QuartersClean(data, year, QuarterKeys(year), Cells(r), Cells(r), PriorityWindows("sp"), 0);
  }

  lemma {:induction false} FirstYearRowClean(data: Times, year: int, r: Row)
    requires Clean(data) && FirstYearRow(data, year, r).Ok?
    ensures Clean(FirstYearRow(data, year, r).value)
  {
    QuarterStepClean(data, year, QuarterKeys(year)[0], "/", r.fall, FirstYearWindows());
  }

  lemma {:induction false} RowsClean(data: Times, year: int, rows: seq<Row>)
    requires Clean(data) && Rows(data, year, rows).Ok?
    ensures Clean(Rows(data, year, rows).value)
    decreases |rows|
  {
    if rows != [] {
      RowStepClean(data, year, rows[0]);
      RowsClean(RowStep(data, year, rows[0]).value, year, rows[1..]);
    }
  }

  /** Every instant the scraper produces can be rendered and read back. */
  lemma {:induction false} CalendarClean(year: int, rows: seq<Row>)
    ensures CalendarTimes(year, rows).Ok? ==> Clean(CalendarTimes(year, rows).value)
    ensures CalendarTimes(year, rows).Ok? ==> Saves(CalendarTimes(year, rows).value)
  {
    if CalendarTimes(year, rows).Ok? {
      RowsClean(Initial(year), year, if rows == [] then [] else rows[1..]);
    }
  }

  // ---------------------------------------------------------------- the loops as written

  /** The assignments of one set of windows. */
  method FillWindows(table: Windows, s: DateTime, ws: seq<Window>) returns (r: Result<Windows, TimeError>)
    requires InCalendar(s)
    ensures r == SetWindows(table, s, ws)
  {
    var t := table;
    var j := 0;
    while j < |ws|
      invariant j <= |ws|
      invariant SetWindows(t, s, ws[j..]) == SetWindows(table, s, ws)
    {
      assert ws[j..][1..] == ws[j + 1..];
      var a := AddHours(s, ws[j].from);
      var b := AddHours(s, ws[j].to);
      if a.year > 9999 || b.year > 9999 {
        return Err(OverflowError);
      }
      t := t[ws[j].name := (a, b)];
      j := j + 1;
    }
    return Ok(t);
  }

  /** One quarter of the loop `for qtr, start in zip(data, cells)`. */
  method FillQuarter(data: Times, year: int, key: string, cell: string, date: string,
                     ws: seq<Window>) returns (r: Result<Times, TimeError>)
    ensures r == QuarterStep(data, year, key, cell, date, ws)
  {
    if '/' !in cell {
      return Ok(data);
    }
    var start := StartDate(date, year);
    if start.Err? {
      return Err(start.error);
    }
    var t := FillWindows(Table(data, key), start.value, ws);
    if t.Err? {
      return Err(t.error);
    }
    return Ok(data[key := t.value]);
  }

  /** The loop `for qtr, start in zip(data, cells)` at lines 80-88 and 94-102. */
  method FillQuarters(data: Times, year: int, keys: seq<string>, cells: seq<string>, dates: seq<string>,
                      ws: seq<Window>) returns (r: Result<Times, TimeError>)
    requires |keys| == |cells| == |dates|
    ensures r == Quarters(data, year, keys, cells, dates, ws, 0)
  {
    var d := data;
    var q := 0;
    while q < |keys|
      invariant q <= |keys|
      invariant Quarters(d, year, keys, cells, dates, ws, q) == Quarters(data, year, keys, cells, dates, ws, 0)
    {
      var step := FillQuarter(d, year, keys[q], cells[q], dates[q], ws);
      if step.Err? {
        return Err(step.error);
      }
      d := step.value;
      q := q + 1;
    }
    return Ok(d);
  }

  /** The loop at lines 73-109 and the rendering at lines 110-111. */
  method ScrapeCalendar(year: int, rows: seq<Row>) returns (r: Result<RawTimes, TimeError>)
    ensures r == Saved(year, rows)
  {
    var body := if rows == [] then [] else rows[1..];
    var data := Initial(year);
    var keys := QuarterKeys(year);
    var n := 0;
    while n < |body|
      invariant n <= |body|
      invariant Rows(data, year, body[n..]) == Rows(Initial(year), year, body)
    {
      assert body[n..][1..] == body[n + 1..];
      var row := body[n];
      var head := Strip(row.entry);
      var before := data;
      if StartsWith(head, "Enrollment begins") {
        var d := FillQuarters(data, year, keys, Cells(row), [row.fall, row.fall, row.fall, row.fall], PriorityWindows("fp"));
        if d.Err? {
          return Err(d.error);
        }
        data := d.value;
      }
      if StartsWith(head, "Wait Lists") {
        var d := FillQuarters(data, year, keys, Cells(row), Cells(row), PriorityWindows("sp"));
        if d.Err? {
          return Err(d.error);
        }
        data := d.value;
      }
      if StartsWith(head, "New undergraduate student") {
        var start := StartDate(row.fall, year);
        if start.Err? {
          return Err(start.error);
        }
        var t := FillWindows(Table(data, keys[0]), start.value, FirstYearWindows());
        if t.Err? {
          return Err(t.error);
        }
        data := data[keys[0] := t.value];
      }
      assert RowStep(before, year, row) == Ok(data);
      n := n + 1;
    }
    CalendarClean(year, rows);
    return Ok(SaveTimes(data));
  }
  // ---------------------------------------------------------------- properties

  /** `ws` names a window `n`. */
  predicate Names(ws: seq<Window>, n: string) {
    exists k :: 0 <= k < |ws| && ws[k].name == n
  }

  /** No two windows of `ws` share a name. */
  predicate DistinctNames(ws: seq<Window>) {
    forall i, j :: 0 <= i < j < |ws| ==> ws[i].name != ws[j].name
  }

  /** Setting windows succeeds exactly when no end passes the year 9999; each named window
      then holds its two sums and every other entry is kept. */
  lemma {:induction false} SetWindowsSets(table: Windows, s: DateTime, ws: seq<Window>)
    requires InCalendar(s) && DistinctNames(ws)
    ensures SetWindows(table, s, ws).Ok? <==>
              forall k :: 0 <= k < |ws| ==> AddHours(s, ws[k].from).year <= 9999 && AddHours(s, ws[k].to).year <= 9999
    ensures SetWindows(table, s, ws).Ok? ==>
              forall k :: 0 <= k < |ws| ==>
                (ws[k].name in SetWindows(table, s, ws).value
                 && SetWindows(table, s, ws).value[ws[k].name] == (AddHours(s, ws[k].from), AddHours(s, ws[k].to)))
    ensures SetWindows(table, s, ws).Ok? ==>
              forall n :: !Names(ws, n) ==>
                ((n in SetWindows(table, s, ws).value <==> n in table)
                 && (n in table ==> SetWindows(table, s, ws).value[n] == table[n]))
    decreases |ws|
  {
    if ws != [] {
      var w := ws[0];
      var t := table[w.name := (AddHours(s, w.from), AddHours(s, w.to))];
      assert SetWindows(table, s, ws) ==
        if AddHours(s, w.from).year > 9999 || AddHours(s, w.to).year > 9999 then Err(OverflowError)
        else SetWindows(t, s, ws[1..]);
      SetWindowsSets(t, s, ws[1..]);
      forall k | 0 <= k < |ws[1..]| ensures ws[1..][k] == ws[k + 1] { }
      forall n | Names(ws[1..], n) ensures Names(ws, n) {
        var k :| 0 <= k < |ws[1..]| && ws[1..][k].name == n;
        assert ws[k + 1].name == n;
      }
      forall n | !Names(ws[1..], n) && n != w.name ensures !Names(ws, n) {
        forall k | 0 <= k < |ws| ensures ws[k].name != n {
          if k > 0 {
            assert ws[k] == ws[1..][k - 1];
          }
        }
      }
      assert !Names(ws[1..], w.name) by {
        forall k | 0 <= k < |ws[1..]| ensures ws[1..][k].name != w.name {
          assert ws[1..][k] == ws[k + 1];
        }
      }
      assert Names(ws, w.name) by { assert ws[0].name == w.name; }
      if SetWindows(table, s, ws).Ok? {
        forall k | 0 <= k < |ws|
          ensures ws[k].name in SetWindows(table, s, ws).value
          ensures SetWindows(table, s, ws).value[ws[k].name] == (AddHours(s, ws[k].from), AddHours(s, ws[k].to))
        {
          if k > 0 {
            assert ws[k] == ws[1..][k - 1];
          }
        }
      }
    }
  }

  /** `dt + timedelta(0)` is `dt`. */
  lemma {:induction false} AddNoHours(dt: DateTime)
    requires InCalendar(dt)
    ensures AddHours(dt, 0) == dt
  {
  }

  /** Window `w` runs from `a` to `b` hours after `s`. */
  predicate Spans(w: (DateTime, DateTime), s: DateTime, a: int, b: int)
    requires InCalendar(s)
  {
    && InCalendar(w.0) && InCalendar(w.1)
    && HoursSinceEpoch(w.0) == HoursSinceEpoch(s) + a
    && HoursSinceEpoch(w.1) == HoursSinceEpoch(s) + b
  }

  /** The priority windows: the fourth-priority window starts at the quarter's start and
      lasts 72 hours, the others 24 hours each, and each ends where the next begins. */
  lemma {:induction false} PriorityHours(table: Windows, s: DateTime, p: string)
    requires InCalendar(s) && SetWindows(table, s, PriorityWindows(p)).Ok?
    ensures var t := SetWindows(table, s, PriorityWindows(p)).value;
      && p + "4" in t && p + "3" in t && p + "2" in t && p + "1" in t
      && t[p + "4"].0 == s && Spans(t[p + "4"], s, 0, 72)
      && t[p + "3"].0 == t[p + "4"].1 && Spans(t[p + "3"], s, 72, 96)
      && t[p + "2"].0 == t[p + "3"].1 && Spans(t[p + "2"], s, 96, 120)
      && t[p + "1"].0 == t[p + "2"].1 && Spans(t[p + "1"], s, 120, 144)
  {
    var ws := PriorityWindows(p);
    forall i, j | 0 <= i < j < |ws| ensures ws[i].name != ws[j].name {
      assert ws[i].name[|p|] != ws[j].name[|p|];
    }
    SetWindowsSets(table, s, ws);
    assert ws[0].name == p + "4" && ws[1].name == p + "3" && ws[2].name == p + "2" && ws[3].name == p + "1";
    AddNoHours(s);
    AddHoursShift(s, 72);
    AddHoursShift(s, 96);
    AddHoursShift(s, 120);
    AddHoursShift(s, 144);
  }

  /** The first-year windows: a 24-hour window for the first pass, then 88 more hours;
      after an 8-hour gap, the same pair for the second pass. */
  lemma {:induction false} FirstYearHours(table: Windows, s: DateTime)
    requires InCalendar(s) && SetWindows(table, s, FirstYearWindows()).Ok?
    ensures var t := SetWindows(table, s, FirstYearWindows()).value;
      && "fpt" in t && "fpf" in t && "spt" in t && "spf" in t
      && t["fpt"].0 == s && Spans(t["fpt"], s, 0, 24)
      && t["fpf"].0 == t["fpt"].1 && Spans(t["fpf"], s, 24, 112)
      && Spans(t["spt"], s, 120, 144)
      && t["spf"].0 == t["spt"].1 && Spans(t["spf"], s, 144, 232)
  {
    var ws := FirstYearWindows();
    FirstYearNamesDistinct();
    SetWindowsSets(table, s, ws);
    var t := SetWindows(table, s, ws).value;
    assert ws[0].name == "fpt" && ws[1].name == "fpf" && ws[2].name == "spt" && ws[3].name == "spf";
    assert t["fpt"] == (AddHours(s, 0), AddHours(s, 24)) by { assert ws[0] == Window("fpt", 0, 24); }
    assert t["fpf"] == (AddHours(s, 24), AddHours(s, 112)) by { assert ws[1] == Window("fpf", 24, 112); }
    assert t["spt"] == (AddHours(s, 120), AddHours(s, 144)) by { assert ws[2] == Window("spt", 120, 144); }
    assert t["spf"] == (AddHours(s, 144), AddHours(s, 232)) by { assert ws[3] == Window("spf", 144, 232); }
    AddNoHours(s);
    AddHoursShift(s, 24);
    AddHoursShift(s, 112);
    AddHoursShift(s, 120);
    AddHoursShift(s, 144);
    AddHoursShift(s, 232);
  }

  lemma {:induction false} FirstYearNamesDistinct()
    ensures DistinctNames(FirstYearWindows())
  {
    var ws := FirstYearWindows();
    assert ws[0].name[2] == 't' && ws[1].name[2] == 'f' && ws[0].name[0] == 'f' && ws[1].name[0] == 'f';
    assert ws[2].name[2] == 't' && ws[3].name[2] == 'f' && ws[2].name[0] == 's' && ws[3].name[0] == 's';
  }
}
