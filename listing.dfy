/** The course-listing parser inside `scrape` (src/courses/scrape.py:21-58). The page's HTML
    is abstracted away: each `<p class="course-name">` paragraph arrives as its text, paired
    with the text of the `<p>` that follows it when there is one. The defaultdict of records
    is a map from sub-department to its list of records; writing it out as JSON files
    (lines 59-61) is not part of this model. */
module Listing {
  import opened Wrappers
  import opened Text
  import opened Lists
  import opened Catalog

  /** One course-name paragraph and the description paragraph after it, if any. */
  datatype Entry = Entry(name: string, desc: Option<string>)

  /** What the parser can raise. */
  datatype ScrapeError =
    | IndexError     // `course.text[i+1]` after a final space, or `split("Prerequisites:")[1]`
    | UnboundLocal   // `i += 1` at line 29 before any loop has ever bound `i`

  type Catalogs = map<string, seq<Course>>

  // ---------------------------------------------------------------- the department scan (lines 22-25)

  /** Position `k` holds the space that ends the department: a space followed by a digit. */
  predicate SpaceBeforeDigit(text: string, k: nat) {
    k + 1 < |text| && text[k] == ' ' && IsDigit(text[k + 1])
  }

  /** How the department loop ends. */
  datatype DeptStop =
    | BreakAt(k: nat)    // `break` at the space at `k`
    | RanOut             // the loop went through the whole text
    | TrailingSpace      // `course.text[i+1]` with the space as the last character

  /** The department loop, from position `k` on. */
  function DeptScan(text: string, k: nat): (r: DeptStop)
    ensures r.BreakAt? ==> k <= r.k && SpaceBeforeDigit(text, r.k)
    decreases |text| - k
  {
    if k >= |text| then RanOut
    else if text[k] == ' ' && k + 1 == |text| then TrailingSpace
    else if SpaceBeforeDigit(text, k) then BreakAt(k)
    else DeptScan(text, k + 1)
  }

  /** The department text and the value of `i` once the loop at line 23 is over. */
  datatype DeptRead = DeptRead(dept: string, i: Option<nat>)

  /** Lines 22-25: the department is everything before the break; `i` is the position of the
      break, or the last position, or (for an empty text) whatever it was before. */
  function ReadDept(text: string, i: Option<nat>): Result<DeptRead, ScrapeError> {
    match DeptScan(text, 0)
    case TrailingSpace => Err(IndexError)
    case BreakAt(k) => Ok(DeptRead(text[..k], Some(k)))
    case RanOut => Ok(DeptRead(text, if |text| > 0 then Some(|text| - 1) else i))
  }

  /** Lines 26-27: a department holding '(' becomes the text after the first '(' up to the
      next ')' (or the next '(' if that comes first). */
  function ParenDept(dept: string): string {
    if '(' in dept then
      SplitCharFound(dept, '(');
      Split(Split(dept, "(")[1], ")")[0]
    else dept
  }

  // ---------------------------------------------------------------- the code scan (lines 28-33)

  /** The characters the loop at line 30 reads before its space: `course.text[start:]` up to
      the first space. */
  function CodeToken(text: string, start: nat): string {
    var rest := Drop(text, start);
    match Find(rest, " ")
    case Some(e) => rest[..e]
    case None => rest
  }

  /** The value of `i` once the loop at line 30 is over: the position of the space, the last
      position, or `start` itself when the loop body never runs. */
  function CodeScanEnd(text: string, start: nat): nat {
    var rest := Drop(text, start);
    match Find(rest, " ")
    case Some(e) => start + e
    case None => if rest == [] then start else start + |rest| - 1
  }

  // ---------------------------------------------------------------- title and units (lines 34-40)

  /** Lines 34-40: the remainder, stripped and split on '('; with no '(' there are no units,
      otherwise the units are the last piece up to its ')' and the title is the pieces before,
      re-joined with '(' and stripped. */
  function TitleUnits(rest: string): (string, Option<string>) {
    var pieces := Split(Strip(rest), "(");
    if |pieces| == 1 then (pieces[0], None)
    else (Strip(Join(pieces[..|pieces| - 1], "(")), Some(Split(pieces[|pieces| - 1], ")")[0]))
  }

  /** The parts of one course-name line. */
  datatype Name = Name(dept: string, code: string, title: string, units: Option<string>)

  /** A parsed line and the value of `i` after line 33, which the next line starts from. */
  datatype Parsed = Parsed(name: Name, next: nat)

  /** Lines 26-40, once the department loop has read `dept` and left `i` bound. */
  function NameFrom(text: string, dept: string, i: nat): Parsed {
    var d := ParenDept(dept);
    var start := i + 1;
    var code := d + " " + Without(CodeToken(text, start), '.');
    var next := CodeScanEnd(text, start) + 1;
    var tu := TitleUnits(Drop(text, next));
    Parsed(Name(d, code, tu.0, tu.1), next)
  }

  /** Lines 22-40 for one course-name text, given the value `i` had before. Only an empty
      text on the first line leaves `i` unbound at line 29, and a parsed code always starts
      with the department and a space. */
  function ParseName(text: string, i: Option<nat>): (r: Result<Parsed, ScrapeError>)
    ensures r == Err(UnboundLocal) <==> text == [] && i.None?
    ensures r.Ok? ==> StartsWith(r.value.name.code, r.value.name.dept + " ")
  {
    match ReadDept(text, i)
    case Err(e) => Err(e)
    case Ok(read) =>
      if read.i.None? then Err(UnboundLocal)
      else
        var p := NameFrom(text, read.dept, read.i.value);
        assert p.name.code[..|p.name.dept + " "|] == p.name.dept + " ";
        Ok(p)
  }

  // ---------------------------------------------------------------- prerequisites (lines 47-50)

  /** Lines 47-50: with "Prerequisite" anywhere in the description, the stripped piece after
      "Prerequisites:" (an IndexError when only the singular occurs); otherwise "None". */
  function Prereqs(desc: string): (r: Result<string, ScrapeError>)
    ensures !Contains(desc, "Prerequisite") ==> r == Ok("None")
    ensures r.Err? <==> Contains(desc, "Prerequisite") && !Contains(desc, "Prerequisites:")
    ensures r.Ok? && Contains(desc, "Prerequisite") ==> IsStripped(r.value)
  {
    if Contains(desc, "Prerequisite") then
      var pieces := Split(desc, "Prerequisites:");
      if |pieces| < 2 then Err(IndexError) else Ok(Strip(pieces[1]))
    else Ok("None")
  }

  // ---------------------------------------------------------------- fan-out (lines 51-58)

  /** `courses[s]` of a defaultdict(list): the empty list for a missing key. */
  function Get(m: Catalogs, s: string): seq<Course> {
    if s in m then m[s] else []
  }

  /** `courses[s].append(c)`. */
  function AppendTo(m: Catalogs, s: string, c: Course): Catalogs {
    m[s := Get(m, s) + [c]]
  }

  /** Lines 51-58: the record appended once for each '/'-separated sub-department, in order.
      Every list only grows, lists of other sub-departments are unchanged, and a list is
      created only by an append. */
  function FanOut(m: Catalogs, subs: seq<string>, c: Course): (r: Catalogs)
    ensures forall s :: Get(m, s) <= Get(r, s)
    ensures forall s :: s !in subs ==> Get(r, s) == Get(m, s)
    ensures NoEmptyList(m) ==> NoEmptyList(r)
    decreases |subs|
  {
    if subs == [] then m else FanOut(AppendTo(m, subs[0], c), subs[1..], c)
  }

  // ---------------------------------------------------------------- the whole loop (lines 21-58)

  /** The defaultdict so far and the value of `i` (None while unbound). */
  datatype State = State(courses: Catalogs, i: Option<nat>)

  /** No sub-department holds an empty list: `courses[s]` exists only after an append. */
  predicate NoEmptyList(m: Catalogs) {
    forall s :: s in m ==> m[s] != []
  }

  /** One iteration of the loop at line 21. It leaves `i` bound, only appends to lists,
      and appends nothing for a line without a description. */
  function Step(st: State, e: Entry): (r: Result<State, ScrapeError>)
    ensures r == Err(UnboundLocal) <==> e.name == [] && st.i.None?
    ensures r.Ok? ==> r.value.i.Some?
    ensures r.Ok? ==> forall s :: Get(st.courses, s) <= Get(r.value.courses, s)
    ensures r.Ok? && e.desc.None? ==> r.value.courses == st.courses
    ensures r.Ok? && NoEmptyList(st.courses) ==> NoEmptyList(r.value.courses)
  {
    match ParseName(e.name, st.i)
    case Err(err) => Err(err)
    case Ok(p) =>
      match e.desc
      case None => Ok(State(st.courses, Some(p.next)))
      case Some(text) =>
        var desc := Strip(text);
        match Prereqs(desc)
        case Err(err) => Err(err)
        case Ok(pre) =>
          var course := Course(p.name.code, p.name.title, p.name.units, desc, pre);
          Ok(State(FanOut(st.courses, Split(p.name.dept, "/"), course), Some(p.next)))
  }

  /** The remaining iterations from state `st`: lists only grow. */
  function Run(st: State, entries: seq<Entry>): (r: Result<State, ScrapeError>)
    ensures r.Ok? ==> forall s :: Get(st.courses, s) <= Get(r.value.courses, s)
    ensures r.Ok? && NoEmptyList(st.courses) ==> NoEmptyList(r.value.courses)
    decreases |entries|
  {
    if entries == [] then Ok(st)
    else
      match Step(st, entries[0])
      case Err(err) => Err(err)
      case Ok(st') => Run(st', entries[1..])
  }

  /** What the loop leaves in `courses`, starting from an empty defaultdict and unbound `i`:
      an empty first line is an unbound `i`, and every sub-department it names has at
      least one record. */
  function Scraped(entries: seq<Entry>): (r: Result<Catalogs, ScrapeError>)
    ensures entries != [] && entries[0].name == [] ==> r == Err(UnboundLocal)
    ensures r.Ok? ==> NoEmptyList(r.value)
  {
    match Run(State(map[], None), entries)
    case Err(err) => Err(err)
    case Ok(st) => Ok(st.courses)
  }

  // ---------------------------------------------------------------- the loops as written

  /** The loop at lines 23-25. */
  method ScanDept(text: string, i0: Option<nat>) returns (r: Result<DeptRead, ScrapeError>)
    ensures r == ReadDept(text, i0)
  {
    var dept := "";
    var i := i0;
    var k := 0;
    while k < |text| && !(text[k] == ' ' && (k + 1 == |text| || IsDigit(text[k + 1])))
      invariant k <= |text|
      invariant dept == text[..k]
      invariant DeptScan(text, k) == DeptScan(text, 0)
      invariant i == if k == 0 then i0 else Some(k - 1)
    {
      dept := dept + [text[k]];
      i := Some(k);
      k := k + 1;
    }
    if k < |text| {
      // the iteration that meets the space binds `i` before it reads `text[k + 1]`
      i := Some(k);
      if k + 1 == |text| {
        return Err(IndexError);
      }
      assert DeptScan(text, k) == BreakAt(k);
    } else {
      assert DeptScan(text, k) == RanOut;
      assert dept == text;
    }
    return Ok(DeptRead(dept, i));
  }

  /** The loop at lines 30-32: returns the code characters other than '.' and the final `i`. */
  method ScanCode(text: string, start: nat) returns (token: string, i: nat)
    ensures token == Without(CodeToken(text, start), '.')
    ensures i == CodeScanEnd(text, start)
  {
    var rest := Drop(text, start);
    token := "";
    i := start;
    var j := 0;
    while j < |rest| && rest[j] != ' '
      invariant j <= |rest|
      invariant forall m :: 0 <= m < j ==> rest[m] != ' '
      invariant token == Without(rest[..j], '.')
      invariant i == if j == 0 then start else start + j - 1
    {
      WithoutSnoc(rest, j, '.');
      token := token + (if rest[j] != '.' then [rest[j]] else []);
      i := start + j;
      j := j + 1;
    }
    if j < |rest| {
      // the iteration that meets the space binds `i` and breaks
      i := start + j;
      CodeScanStops(text, start, j);
    } else {
      CodeScanRunsOut(text, start);
      assert rest[..j] == rest;
    }
  }

  /** One more character read by the code loop. */
  lemma {:induction false} WithoutSnoc(s: string, j: nat, c: char)
    requires j < |s|
    ensures Without(s[..j + 1], c) == Without(s[..j], c) + (if s[j] != c then [s[j]] else [])
  {
    WithoutAppend(s[..j], [s[j]], c);
    assert s[..j + 1] == s[..j] + [s[j]];
  }

  /** The code loop stops at the first space of `course.text[start:]`. */
  lemma {:induction false} CodeScanStops(text: string, start: nat, j: nat)
    requires j < |Drop(text, start)| && Drop(text, start)[j] == ' '
    requires forall m :: 0 <= m < j ==> Drop(text, start)[m] != ' '
    ensures CodeToken(text, start) == Drop(text, start)[..j]
    ensures CodeScanEnd(text, start) == start + j
  {
    var rest := Drop(text, start);
    OccursAtChar(rest, ' ', j);
    forall m | 0 <= m < j ensures !OccursAt(rest, " ", m) { OccursAtChar(rest, ' ', m); }
    assert Find(rest, " ") == Some(j);
  }

  /** Without a space the code loop reads all of `course.text[start:]`. */
  lemma {:induction false} CodeScanRunsOut(text: string, start: nat)
    requires forall m :: 0 <= m < |Drop(text, start)| ==> Drop(text, start)[m] != ' '
    ensures CodeToken(text, start) == Drop(text, start)
    ensures CodeScanEnd(text, start) == if Drop(text, start) == [] then start else start + |Drop(text, start)| - 1
  {
    var rest := Drop(text, start);
    forall m: nat ensures !OccursAt(rest, " ", m) { OccursAtChar(rest, ' ', m); }
    assert Find(rest, " ") == None;
  }

  /** Lines 51-58 as a loop over the sub-departments. */
  method AppendAll(courses: Catalogs, subs: seq<string>, c: Course) returns (r: Catalogs)
    ensures r == FanOut(courses, subs, c)
  {
    r := courses;
    var j := 0;
    while j < |subs|
      invariant j <= |subs|
      invariant FanOut(r, subs[j..], c) == FanOut(courses, subs, c)
    {
      assert subs[j..][1..] == subs[j + 1..];
      r := r[subs[j] := (if subs[j] in r then r[subs[j]] else []) + [c]];
      j := j + 1;
    }
  }

  /** Lines 22-40 for one course-name text. */
  method ParseLine(text: string, i0: Option<nat>) returns (r: Result<Parsed, ScrapeError>)
    ensures r == ParseName(text, i0)
  {
    var read := ScanDept(text, i0);
    if read.Err? {
      return Err(read.error);
    }
    var i := read.value.i;
    if i.None? {
      return Err(UnboundLocal);
    }
    var p := FinishLine(text, read.value.dept, i.value);
    return Ok(p);
  }

  /** Lines 26-40. */
  method FinishLine(text: string, dept0: string, i: nat) returns (p: Parsed)
    ensures p == NameFrom(text, dept0, i)
  {
    var dept := ParenDept(dept0);
    var code := dept + " ";
    var token, last := ScanCode(text, i + 1);
    code := code + token;
    var next := last + 1;
    var tu := TitleUnits(Drop(text, next));
    return Parsed(Name(dept, code, tu.0, tu.1), next);
  }

  /** The loop at lines 21-58. */
  method Scrape(entries: seq<Entry>) returns (r: Result<Catalogs, ScrapeError>)
    ensures r == Scraped(entries)
  {
    var courses: Catalogs := map[];
    var i: Option<nat> := None;
    var n := 0;
    while n < |entries|
      invariant n <= |entries|
      invariant Run(State(courses, i), entries[n..]) == Run(State(map[], None), entries)
    {
      assert entries[n..][1..] == entries[n + 1..];
      var parsed := ParseLine(entries[n].name, i);
      if parsed.Err? {
        return Err(parsed.error);
      }
      var p := parsed.value;
      i := Some(p.next);
      match entries[n].desc {
        case None =>
        case Some(t) =>
          var desc := Strip(t);
          var pre := Prereqs(desc);
          if pre.Err? {
            return Err(pre.error);
          }
          var course := Course(p.name.code, p.name.title, p.name.units, desc, pre.value);
          courses := AppendAll(courses, Split(p.name.dept, "/"), course);
      }
      n := n + 1;
    }
    return Ok(courses);
  }
  // ---------------------------------------------------------------- properties

  /** The scan from `k` stops at the first space-before-digit at or after `k`, fails on a
      final space when there is none, and otherwise runs out. */
  lemma {:induction false} DeptScanFinds(text: string, k: nat)
    requires k <= |text|
    ensures DeptScan(text, k).BreakAt? ==>
              forall j :: k <= j < DeptScan(text, k).k ==> !SpaceBeforeDigit(text, j)
    ensures DeptScan(text, k) == TrailingSpace <==>
              k < |text| && text[|text| - 1] == ' ' && forall j :: k <= j < |text| ==> !SpaceBeforeDigit(text, j)
    ensures DeptScan(text, k) == RanOut <==>
              (k < |text| ==> text[|text| - 1] != ' ') && forall j :: k <= j < |text| ==> !SpaceBeforeDigit(text, j)
    decreases |text| - k
  {
    if k < |text| && !(text[k] == ' ' && k + 1 == |text|) && !SpaceBeforeDigit(text, k) {
      DeptScanFinds(text, k + 1);
    }
  }

  /** The department is the part of the text before its first space that is followed by a
      digit (all of it when there is none); the scan fails exactly when there is none and the
      text ends in a space. */
  lemma {:induction false} DeptBeforeNumber(text: string, i: Option<nat>)
    ensures ReadDept(text, i) == Err(IndexError) <==>
              |text| > 0 && text[|text| - 1] == ' ' && forall j :: 0 <= j < |text| ==> !SpaceBeforeDigit(text, j)
    ensures ReadDept(text, i).Ok? ==>
              var dept := ReadDept(text, i).value.dept;
              && StartsWith(text, dept)
              && (forall j :: 0 <= j < |dept| ==> !SpaceBeforeDigit(text, j))
              && (dept == text || SpaceBeforeDigit(text, |dept|))
  {
    DeptScanFinds(text, 0);
    if DeptScan(text, 0).BreakAt? {
      assert text[..DeptScan(text, 0).k] == ReadDept(text, i).value.dept;
    }
  }

  /** The scan from `k` reaches the space-before-digit at `b` when none comes earlier. */
  lemma {:induction false} DeptScanReaches(text: string, k: nat, b: nat)
    requires k <= b && SpaceBeforeDigit(text, b)
    requires forall j :: k <= j < b ==> !SpaceBeforeDigit(text, j)
    ensures DeptScan(text, k) == BreakAt(b)
    decreases b - k
  {
    if k < b {
      DeptScanReaches(text, k + 1, b);
    }
  }

  /** A line "<dept> <code> <rest>" whose department has no digit after a space and no '(',
      and whose code starts with a digit, parses into that department, the department and
      the code with its dots removed, and the title and units of the rest. */
  lemma {:induction false} CourseNameParts(dept: string, code: string, rest: string, i: Option<nat>)
    requires forall j :: 0 <= j < |dept| - 1 ==> !(dept[j] == ' ' && IsDigit(dept[j + 1]))
    requires '(' !in dept
    requires code != [] && IsDigit(code[0]) && ' ' !in code
    ensures ParseName(dept + " " + code + " " + rest, i)
         == Ok(Parsed(Name(dept, dept + " " + Without(code, '.'), TitleUnits(rest).0, TitleUnits(rest).1),
                      |dept| + |code| + 2))
  {
    var text := dept + " " + code + " " + rest;
    var p := Parsed(Name(dept, dept + " " + Without(code, '.'), TitleUnits(rest).0, TitleUnits(rest).1),
                    |dept| + |code| + 2);
    assert ReadDept(text, i) == Ok(DeptRead(dept, Some(|dept|))) by {
      DeptPart(dept, code, rest, i);
    }
    assert NameFrom(text, dept, |dept|) == p by {
      CodePart(dept, code, rest);
      NameFromParts(text, dept, |dept|, code, rest);
    }
    ParseNameAfterDept(text, i, dept, |dept|, p);
  }

  /** Once the department loop has read `dept` and bound `i`, the rest is `NameFrom`. */
  lemma {:induction false} ParseNameAfterDept(text: string, i: Option<nat>, dept: string, b: nat, p: Parsed)
    requires ReadDept(text, i) == Ok(DeptRead(dept, Some(b)))
    requires NameFrom(text, dept, b) == p
    ensures ParseName(text, i) == Ok(p)
  {
  }

  /** `NameFrom` once the code loop's reading and the remainder are known. */
  lemma {:induction false} NameFromParts(text: string, dept: string, b: nat, code: string, rest: string)
    requires '(' !in dept
    requires CodeToken(text, b + 1) == code && CodeScanEnd(text, b + 1) == b + |code| + 1
    requires Drop(text, b + |code| + 2) == rest
    ensures NameFrom(text, dept, b)
         == Parsed(Name(dept, dept + " " + Without(code, '.'), TitleUnits(rest).0, TitleUnits(rest).1), b + |code| + 2)
  {
    var m := CodeScanEnd(text, b + 1);
    NameFromTitle(text, dept, b, rest);
    assert ParenDept(dept) == dept;
  }

  /** The title and units come from the text after the code loop's final `i`. */
  lemma {:induction false} NameFromTitle(text: string, dept: string, b: nat, rest: string)
    requires Drop(text, CodeScanEnd(text, b + 1) + 1) == rest
    ensures NameFrom(text, dept, b).name.title == TitleUnits(rest).0
    ensures NameFrom(text, dept, b).name.units == TitleUnits(rest).1
  {
  }

  /** The department loop of `CourseNameParts` breaks at the space after the department. */
  lemma {:induction false} DeptPart(dept: string, code: string, rest: string, i: Option<nat>)
    requires forall j :: 0 <= j < |dept| - 1 ==> !(dept[j] == ' ' && IsDigit(dept[j + 1]))
    requires code != [] && IsDigit(code[0])
    ensures ReadDept(dept + " " + code + " " + rest, i) == Ok(DeptRead(dept, Some(|dept|)))
  {
    var text := dept + " " + code + " " + rest;
    var b := |dept|;
    forall j | 0 <= j < b ensures !SpaceBeforeDigit(text, j) {
      if j + 1 < b {
        assert text[j] == dept[j] && text[j + 1] == dept[j + 1];
      } else {
        assert text[j + 1] == ' ';
      }
    }
    assert text[b] == ' ' && text[b + 1] == code[0];
    DeptScanReaches(text, 0, b);
    assert text[..b] == dept;
  }

  /** The code loop of `CourseNameParts` reads the code and stops at the space after it. */
  lemma {:induction false} CodePart(dept: string, code: string, rest: string)
    requires ' ' !in code
    ensures CodeToken(dept + " " + code + " " + rest, |dept| + 1) == code
    ensures CodeScanEnd(dept + " " + code + " " + rest, |dept| + 1) == |dept| + |code| + 1
    ensures Drop(dept + " " + code + " " + rest, |dept| + |code| + 2) == rest
  {
    var text := dept + " " + code + " " + rest;
    var b := |dept|;
    var tail := Drop(text, b + 1);
    assert tail == code + " " + rest;
    forall m | 0 <= m < |code| ensures tail[m] != ' ' {
      assert tail[m] == code[m];
    }
    CodeScanStops(text, b + 1, |code|);
    assert tail[..|code|] == code;
    assert Drop(text, b + |code| + 2) == rest;
  }

  /** A parenthesised department: the text between the first '(' and the ')' after it. */
  lemma {:induction false} ParenDeptInside(a: string, b: string, r: string)
    requires '(' !in a && '(' !in b && ')' !in b
    ensures ParenDept(a + "(" + b + ")" + r) == b
  {
    var s := a + "(" + b + ")" + r;
    var u := b + ")" + r;
    assert s == a + ['('] + u;
    assert s[|a|] == '(';
    SplitCharCons(a, '(', u);
    assert StartsWith(u, b + ")");
    FirstPieceStarts(u, b + ")", '(');
    FirstPieceIs(Split(u, "(")[0], b, ')');
  }

  /** A prefix free of `c` is kept by the first piece of a split on `c`. */
  lemma {:induction false} FirstPieceStarts(u: string, p: string, c: char)
    requires StartsWith(u, p) && c !in p
    ensures StartsWith(Split(u, [c])[0], p)
  {
    var h := Split(u, [c])[0];
    SplitHeadShape(u, c);
    forall k | 0 <= k < |p| ensures u[k] != c {
      assert u[k] == p[k];
    }
    assert |h| >= |p|;
    assert h[..|p|] == p by {
      forall k | 0 <= k < |p| ensures h[k] == p[k] {
        assert h[k] == u[k] == p[k];
      }
    }
  }

  /** A text that starts with `p` and then `c`, with no `c` in `p`, splits on `c` with
      `p` as its first piece. */
  lemma {:induction false} FirstPieceIs(h: string, p: string, c: char)
    requires StartsWith(h, p + [c]) && c !in p
    ensures Split(h, [c])[0] == p
  {
    assert h == p + [c] + h[|p| + 1..];
    SplitCharCons(p, c, h[|p| + 1..]);
  }

  /** With no '(' in the stripped remainder there are no units and the title is all of it. */
  lemma {:induction false} TitleWithoutUnits(rest: string)
    requires '(' !in Strip(rest)
    ensures TitleUnits(rest) == (Strip(rest), None)
  {
    SplitCharNone(Strip(rest), '(');
  }

  /** With a last group "(u)" the units are `u` and the title is everything before it,
      stripped, parentheses included. */
  lemma {:induction false} TitleWithUnits(rest: string, t: string, u: string, w: string)
    requires Strip(rest) == t + "(" + u + ")" + w
    requires '(' !in u && ')' !in u && '(' !in w
    ensures TitleUnits(rest) == (Strip(t), Some(u))
  {
    var v := u + ")" + w;
    assert Strip(rest) == t + ['('] + v;
    SplitCharSnoc(t, '(', v);
    var pieces := Split(Strip(rest), "(");
    assert pieces[..|pieces| - 1] == Split(t, "(");
    JoinSplit(t, "(");
    assert v == u + [')'] + w;
    SplitCharCons(u, ')', w);
  }

  /** Without "Prerequisite" the prerequisites are "None"; with only the singular form the
      split has no second piece. */
  lemma {:induction false} PrereqsCases(desc: string)
    ensures !Contains(desc, "Prerequisite") ==> Prereqs(desc) == Ok("None")
    ensures Contains(desc, "Prerequisite") && !Contains(desc, "Prerequisites:") ==> Prereqs(desc) == Err(IndexError)
  {
    if Find(desc, "Prerequisites:").None? {
      assert Split(desc, "Prerequisites:") == [desc];
    }
  }

  /** The prerequisites are the stripped text after the only "Prerequisites:". */
  lemma {:induction false} PrereqsAfterHeading(desc: string, p: nat)
    requires Find(desc, "Prerequisites:") == Some(p)
    requires !Contains(desc[p + 14..], "Prerequisites:")
    ensures Prereqs(desc) == Ok(Strip(desc[p + 14..]))
  {
    assert desc[p..p + 12] == "Prerequisite" by {
      assert desc[p..p + 14] == "Prerequisites:";
      assert desc[p..p + 12] == desc[p..p + 14][..12];
    }
    assert OccursAt(desc, "Prerequisite", p);
    assert Split(desc, "Prerequisites:") == [desc[..p]] + [desc[p + 14..]];
  }

  /** A record appended under every sub-department: each key gains it as often as it occurs
      among the sub-departments, and no key loses anything. */
  lemma {:induction false} FanOutCounts(m: Catalogs, subs: seq<string>, c: Course)
    ensures FanOut(m, subs, c).Keys == m.Keys + (set s | s in subs)
    ensures forall s :: Get(FanOut(m, subs, c), s) == Get(m, s) + Repeat(c, Count(subs, s))
  {
    FanOutKeys(m, subs, c);
    forall s ensures Get(FanOut(m, subs, c), s) == Get(m, s) + Repeat(c, Count(subs, s)) {
      FanOutGet(m, subs, c, s);
    }
  }

  lemma {:induction false} FanOutKeys(m: Catalogs, subs: seq<string>, c: Course)
    ensures FanOut(m, subs, c).Keys == m.Keys + (set s | s in subs)
    decreases |subs|
  {
    if subs != [] {
      FanOutKeys(AppendTo(m, subs[0], c), subs[1..], c);
      assert (set s | s in subs) == {subs[0]} + (set s | s in subs[1..]);
    }
  }

  lemma {:induction false} FanOutGet(m: Catalogs, subs: seq<string>, c: Course, s: string)
    ensures Get(FanOut(m, subs, c), s) == Get(m, s) + Repeat(c, Count(subs, s))
    decreases |subs|
  {
    if subs != [] {
      var m' := AppendTo(m, subs[0], c);
      FanOutGet(m', subs[1..], c, s);
      var n := Count(subs[1..], s);
      if s == subs[0] {
        assert Repeat(c, n + 1) == [c] + Repeat(c, n);
        assert Get(m', s) + Repeat(c, n) == Get(m, s) + ([c] + Repeat(c, n));
      } else {
        assert Get(m', s) == Get(m, s);
      }
    }
  }

  /** The loop only appends: every list it has built is a prefix of the final one. */
  lemma {:induction false} RunOnlyAppends(st: State, entries: seq<Entry>, s: string)
    requires Run(st, entries).Ok?
    ensures Get(st.courses, s) <= Get(Run(st, entries).value.courses, s)
    decreases |entries|
  {
    if entries != [] {
      var next := Step(st, entries[0]).value;
      RunOnlyAppends(next, entries[1..], s);
      if entries[0].desc.Some? {
        var p := ParseName(entries[0].name, st.i).value;
        var desc := Strip(entries[0].desc.value);
        var course := Course(p.name.code, p.name.title, p.name.units, desc, Prereqs(desc).value);
        FanOutCounts(st.courses, Split(p.name.dept, "/"), course);
      }
    }
  }

  /** Lines without a description paragraph add no records. */
  lemma {:induction false} NoDescriptionNoRecords(st: State, entries: seq<Entry>)
    requires forall k :: 0 <= k < |entries| ==> entries[k].desc.None?
    requires Run(st, entries).Ok?
    ensures Run(st, entries).value.courses == st.courses
    decreases |entries|
  {
    if entries != [] {
      NoDescriptionNoRecords(Step(st, entries[0]).value, entries[1..]);
    }
  }

  /** An empty first line reaches `i += 1` with `i` never bound. */
  lemma {:induction false} EmptyFirstLine(d: Option<string>, rest: seq<Entry>)
    ensures Scraped([Entry("", d)] + rest) == Err(UnboundLocal)
  {
    assert ([Entry("", d)] + rest)[0] == Entry("", d);
  }

  /** An empty later line reuses the `i` the previous line left: it yields the code " ",
      an empty title, no units, and moves `i` on by two. */
  lemma {:induction false} EmptyLaterLine(n: nat)
    ensures ParseName("", Some(n)) == Ok(Parsed(Name("", " ", "", None), n + 2))
  {
    CodeScanRunsOut("", n + 1);
    assert Drop("", n + 2) == "" && Without("", '.') == "";
    assert Strip("") == "";
    SplitCharNone("", '(');
    assert TitleUnits("") == ("", None);
    assert ReadDept("", Some(n)) == Ok(DeptRead("", Some(n)));
    assert ParenDept("") == "";
    assert NameFrom("", "", n) == Parsed(Name("", " ", "", None), n + 2);
  }
  /** The usual remainder "<title> (<units>)", as in "Advanced Data Structures (4)", reads
      as that title and those units. */
  lemma {:induction false} TitleThenUnits(t: string, u: string)
    requires IsStripped(t) && t != []
    requires '(' !in u && ')' !in u
    ensures TitleUnits(t + " (" + u + ")") == (t, Some(u))
  {
    var rest := t + " (" + u + ")";
    assert rest[0] == t[0] && rest[|rest| - 1] == ')';
    StripStripped(rest);
    assert rest == (t + " ") + "(" + u + ")" + "";
    TitleWithUnits(rest, t + " ", u, "");
    assert AllSpaces(" ");
    StripSpacesAfter(t, " ");
  }
}
