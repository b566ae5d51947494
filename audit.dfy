/** The text handling of `process_audit` (server.py:43-92): `normalize_code`, and what
    `extract_major_categories` makes of each category and sub-requirement of a degree
    audit. BeautifulSoup is not modelled: each element arrives as the text or attributes
    that its `find` or `get` calls would return, `None` where the element or attribute
    is missing. The audit header (PID, unit totals) and the section titles are not part
    of this model. */
module Audit {
  import opened Wrappers
  import opened Text

  /** What the extraction can raise. */
  datatype AuditError =
    | AttributeError   // `.text` or `.strip()` on a missing element or attribute
    | ValueError       // `int(...)` on text that is not an integer

  // ---------------------------------------------------------------- collecting results

  /** A list comprehension whose element expression may raise: the results in order, or
      the error of the first element that raises. */
  function Collect<T, U>(xs: seq<T>, f: T -> Result<U, AuditError>): (r: Result<seq<U>, AuditError>)
    ensures r.Ok? <==> forall k :: 0 <= k < |xs| ==> f(xs[k]).Ok?
    ensures r.Ok? ==> |r.value| == |xs| && forall k :: 0 <= k < |xs| ==> f(xs[k]) == Ok(r.value[k])
    decreases |xs|
  {
    if xs == [] then Ok([])
    else
      var init := xs[..|xs| - 1];
      match Collect(init, f)
      case Err(e) => Err(e)
      case Ok(ys) =>
        assert forall k :: 0 <= k < |init| ==> xs[k] == init[k];
        match f(xs[|xs| - 1])
        case Err(e) => Err(e)
        case Ok(y) => Ok(ys + [y])
  }

  /** One more element: the results so far extended by its result, or the first error. */
  lemma {:induction false} CollectSnoc<T, U>(xs: seq<T>, f: T -> Result<U, AuditError>, n: nat)
    requires n < |xs|
    ensures Collect(xs[..n + 1], f) ==
      match Collect(xs[..n], f)
      case Err(e) => Err(e)
      case Ok(ys) => (match f(xs[n]) case Err(e) => Err(e) case Ok(y) => Ok(ys + [y]))
  {
    assert xs[..n + 1][..n] == xs[..n];
  }

  /** Once an element has raised, the rest of the list is never looked at. */
  lemma {:induction false} CollectKeepsError<T, U>(xs: seq<T>, f: T -> Result<U, AuditError>, m: nat)
    requires m <= |xs| && Collect(xs[..m], f).Err?
    ensures Collect(xs, f) == Collect(xs[..m], f)
    decreases |xs| - m
  {
    if m < |xs| {
      CollectSnoc(xs, f, m);
      CollectKeepsError(xs, f, m + 1);
    } else {
      assert xs[..m] == xs;
    }
  }

  /** The error of a comprehension is the error of its first raising element. */
  lemma {:induction false} CollectFirstError<T, U>(xs: seq<T>, f: T -> Result<U, AuditError>, n: nat)
    requires n < |xs| && f(xs[n]).Err?
    requires forall k :: 0 <= k < n ==> f(xs[k]).Ok?
    ensures Collect(xs, f) == Err(f(xs[n]).error)
  {
    assert forall k :: 0 <= k < n ==> xs[..n][k] == xs[k];
    CollectSnoc(xs, f, n);
    CollectKeepsError(xs, f, n + 1);
  }

  // ---------------------------------------------------------------- normalize_code (lines 43-46)

  /** The position of the first digit of `code`, if it has one. */
  function FirstDigit(code: string): (r: Option<nat>)
    ensures r.Some? ==> r.value < |code| && IsDigit(code[r.value])
    ensures r.Some? ==> forall k :: 0 <= k < r.value ==> !IsDigit(code[k])
    ensures r.None? ==> forall k :: 0 <= k < |code| ==> !IsDigit(code[k])
    decreases |code|
  {
    if code == [] then None
    else if IsDigit(code[0]) then Some(0)
    else
      match FirstDigit(code[1..])
      case None => None
      case Some(i) => Some(i + 1)
  }

  /** The first digit is the one with no digit before it. */
  lemma {:induction false} FirstDigitAt(code: string, i: nat)
    requires i <= |code| && forall k :: 0 <= k < i ==> !IsDigit(code[k])
    ensures i < |code| && IsDigit(code[i]) ==> FirstDigit(code) == Some(i)
    ensures i == |code| ==> FirstDigit(code) == None
  {
  }

  /** What `normalize_code` returns: the text before the first digit and the text from
      it on, each stripped, joined by one space; `None` (the implicit return) when the
      code has no digit. */
  function Normalized(code: string): (r: Option<string>)
    ensures r.None? <==> forall k :: 0 <= k < |code| ==> !IsDigit(code[k])
    ensures r.Some? ==> NonSpace(r.value) == NonSpace(code)
  {
    match FirstDigit(code)
    case None => None
    case Some(i) =>
      NormalizedKeepsText(code, i);
      Some(Strip(code[..i]) + " " + Strip(code[i..]))
  }

  /** `normalize_code`: the scan with an early return. */
  method NormalizeCode(code: string) returns (r: Option<string>)
    ensures r == Normalized(code)
  {
    var i := 0;
    while i < |code|
      invariant i <= |code|
      invariant forall k :: 0 <= k < i ==> !IsDigit(code[k])
    {
      if IsDigit(code[i]) {
        FirstDigitAt(code, i);
        return Some(Strip(code[..i]) + " " + Strip(code[i..]));
      }
      i := i + 1;
    }
    FirstDigitAt(code, |code|);
    return None;
  }

  /** A code in normal form: a stripped, digit-free department, one space, and a stripped
      number that starts with a digit. */
  predicate NormalForm(a: string, b: string) {
    && IsStripped(a) && (forall k :: 0 <= k < |a| ==> !IsDigit(a[k]))
    && IsStripped(b) && b != [] && IsDigit(b[0])
  }

  /** A code in normal form is its own normalization. */
  lemma {:induction false} NormalizedOfNormalForm(a: string, b: string)
    requires NormalForm(a, b)
    ensures Normalized(a + " " + b) == Some(a + " " + b)
  {
    var s := a + " " + b;
    var i := |a| + 1;
    assert s[i] == b[0];
    assert forall k :: 0 <= k < |a| ==> s[k] == a[k];
    assert !IsDigit(s[|a|]);
    assert FirstDigit(s) == Some(i);
    assert s[..i] == a + " " && s[i..] == b;
    assert AllSpaces(" ");
    StripSpacesAfter(a, " ");
    StripStripped(b);
  }

  /** The department part of a normalization is digit-free and stripped; the number part
      is stripped and starts with the first digit. */
  lemma {:induction false} NormalizedParts(code: string, i: nat)
    requires FirstDigit(code) == Some(i)
    ensures NormalForm(Strip(code[..i]), Strip(code[i..]))
  {
    var pre := code[..i];
    var a := Strip(pre);
    var la := LeadingSpaces(pre);
    assert a == pre[la..la + |a|];
    forall k | 0 <= k < |a| ensures !IsDigit(a[k]) {
      assert a[k] == pre[la + k] == code[la + k];
    }
    StripKeepsFirst(code[i..]);
  }

  /** One space between two texts adds no non-white-space character. */
  lemma {:induction false} NonSpaceAroundSpace(a: string, b: string)
    ensures NonSpace(a + " " + b) == NonSpace(a) + NonSpace(b)
  {
    var sp := " ";
    assert AllSpaces(sp);
    NonSpaceAppend(a + sp, b);
    NonSpaceAppend(a, sp);
    NonSpaceOfSpaces(sp);
  }

  /** Two parts with the non-white-space characters of `pre` and `post`, joined by one
      space, have those of `pre + post`. */
  lemma {:induction false} NonSpaceOfParts(code: string, pre: string, post: string, x: string, y: string)
    requires pre + post == code
    requires NonSpace(x) == NonSpace(pre) && NonSpace(y) == NonSpace(post)
    ensures NonSpace(x + " " + y) == NonSpace(code)
  {
    NonSpaceAroundSpace(x, y);
    NonSpaceAppend(pre, post);
  }

  /** Splitting at the first digit and stripping both parts keeps every non-white-space
      character. */
  lemma {:induction false} NormalizedKeepsText(code: string, i: nat)
    requires i <= |code|
    ensures NonSpace(Strip(code[..i]) + " " + Strip(code[i..])) == NonSpace(code)
  {
    var pre, post := code[..i], code[i..];
    assert pre + post == code;
    NonSpaceOfStrip(pre);
    NonSpaceOfStrip(post);
    NonSpaceOfParts(code, pre, post, Strip(pre), Strip(post));
  }

  /** `normalize_code` returns None exactly for codes without a digit. Otherwise its
      result is in normal form and keeps every non-white-space character of the code, in
      order. */
  lemma {:induction false} NormalizedShape(code: string)
    ensures Normalized(code).None? <==> forall k :: 0 <= k < |code| ==> !IsDigit(code[k])
    ensures Normalized(code).Some? ==>
      exists a, b :: NormalForm(a, b) && Normalized(code).value == a + " " + b
    ensures Normalized(code).Some? ==> NonSpace(Normalized(code).value) == NonSpace(code)
  {
    if FirstDigit(code).Some? {
      var i := FirstDigit(code).value;
      NormalizedParts(code, i);
      NormalizedKeepsText(code, i);
      var a, b := Strip(code[..i]), Strip(code[i..]);
      assert NormalForm(a, b) && Normalized(code).value == a + " " + b;
    }
  }

  /** Normalizing a normalized code changes nothing. */
  lemma {:induction false} NormalizeIdempotent(code: string)
    requires Normalized(code).Some?
    ensures Normalized(Normalized(code).value) == Normalized(code)
  {
    var i := FirstDigit(code).value;
    NormalizedParts(code, i);
    NormalizedOfNormalForm(Strip(code[..i]), Strip(code[i..]));
  }

  /** A code as the audit prints it gains the space. */
  lemma {:induction false} NormalizeExample()
    ensures Normalized("CSE100") == Some("CSE 100")
  {
    var a, b := "CSE", "100";
    assert NormalForm(a, b) by {
      assert IsStripped(a) && IsStripped(b);
      assert !IsDigit(a[0]) && !IsDigit(a[1]) && !IsDigit(a[2]);
    }
    NormalizedJoined(a, b);
    ExampleTexts();
  }

  lemma {:induction false} ExampleTexts()
    ensures "CSE" + "100" == "CSE100" && "CSE" + " " + "100" == "CSE 100"
  {
  }

  /** A digit-free department written straight before its number gains the space. */
  lemma {:induction false} NormalizedJoined(a: string, b: string)
    requires NormalForm(a, b)
    ensures Normalized(a + b) == Some(a + " " + b)
  {
    var s := a + b;
    assert s[|a|] == b[0];
    assert forall k :: 0 <= k < |a| ==> s[k] == a[k];
    assert FirstDigit(s) == Some(|a|);
    assert s[..|a|] == a && s[|a|..] == b;
    StripStripped(a);
    StripStripped(b);
  }

  /** A code without a number normalizes to None. */
  lemma {:induction false} NormalizeNoNumber()
    ensures Normalized("ELECTIVE") == None
  {
    var e := "ELECTIVE";
    assert forall k :: 0 <= k < |e| ==> !IsDigit(e[k]);
  }

  // ---------------------------------------------------------------- sub-requirement titles (lines 56-62)

  /** The title used when the `subreqTitle` span is missing. */
  const MissingTitle: string := "Failed to load title :("

  /** `' '.join(title.strip().split())`, with the fallback for a missing span: the words of
      the span text, stripped and single-spaced, and so with the same non-white-space
      characters as the span text. */
  function SubreqTitle(title: Option<string>): (r: string)
    ensures title.Some? ==> Words(r) == Words(Strip(title.value))
    ensures IsStripped(r) && SingleSpaced(r)
    ensures title.Some? ==> NonSpace(r) == NonSpace(title.value)
    ensures title.None? ==> r == MissingTitle
  {
    var t := title.GetOr(MissingTitle);
    CollapseSpacesShape(t);
    if title.None? then MissingTitleCollapsed(); CollapseSpaces(t)
    else CollapseSpaces(t)
  }

  /** The fallback title is already collapsed. */
  lemma {:induction false} MissingTitleCollapsed()
    ensures CollapseSpaces(MissingTitle) == MissingTitle
  {
    var ws := ["Failed", "to", "load", "title", ":("];
    assert Join(ws, " ") == MissingTitle;
    forall k | 0 <= k < |ws| ensures ws[k] != [] && NoSpace(ws[k]) { }
    JoinWordsShape(ws);
    StripStripped(MissingTitle);
    WordsOfJoin(ws);
  }

  /** A title that went through the collapse once is left alone the second time. */
  lemma {:induction false} SubreqTitleIdempotent(title: Option<string>)
    ensures SubreqTitle(Some(SubreqTitle(title))) == SubreqTitle(title)
  {
    CollapseSpacesShape(title.GetOr(MissingTitle));
  }

  // ---------------------------------------------------------------- progress (lines 63-79)

  /** What is left of a sub-requirement. The hours cell holds a decimal that the source
      reads with `float`; the model keeps its stripped text. */
  datatype Progress = Complete | UnitsLeft(units: string) | CoursesLeft(courses: int)

  /** The `subreqNeeds` table: the text of its `hours` and `count` cells, when present. */
  datatype Needs = Needs(hours: Option<string>, count: Option<string>)

  /** The progress entry after the assignments of lines 63-79: complete unless there is
      a needs table; an hours cell makes it units; a count cell then makes it courses,
      or raises ValueError when its text is not an integer. */
  function ProgressOf(needs: Option<Needs>): (r: Result<Progress, AuditError>)
    ensures (needs.None? || needs.value == Needs(None, None)) ==> r == Ok(Complete)
    ensures needs.Some? && needs.value.count.Some? ==>
      (r.Ok? <==> ParseInt(needs.value.count.value).Some?)
      && (r.Ok? ==> r.value == CoursesLeft(ParseInt(needs.value.count.value).value))
      && (r.Err? ==> r.error == ValueError)
    ensures needs.Some? && needs.value.count.None? && needs.value.hours.Some? ==>
      r == Ok(UnitsLeft(Strip(needs.value.hours.value)))
  {
    var start := Ok(Complete);
    if needs.None? then start
    else
      var afterHours := if needs.value.hours.Some? then Ok(UnitsLeft(Strip(needs.value.hours.value))) else start;
      if needs.value.count.None? then afterHours
      else
        match ParseInt(needs.value.count.value)
        case None => Err(ValueError)
        case Some(n) => Ok(CoursesLeft(n))
  }

  // ---------------------------------------------------------------- needed courses (lines 84-88)

  /** A `course draggable` tag: its `department` and `number` attributes, when present. */
  datatype CourseTag = CourseTag(department: Option<string>, number: Option<string>)

  /** `f'{department.strip()} {number.strip()}'`; a missing attribute is `None`, whose
      `.strip()` raises. */
  function NeededCourse(t: CourseTag): (r: Result<string, AuditError>)
    ensures r.Err? <==> t.department.None? || t.number.None?
    ensures r.Err? ==> r.error == AttributeError
    ensures r.Ok? ==> NonSpace(r.value) == NonSpace(t.department.value) + NonSpace(t.number.value)
  {
    if t.department.None? || t.number.None? then Err(AttributeError)
    else
      var d, n := t.department.value, t.number.value;
      NonSpaceAroundSpace(Strip(d), Strip(n));
      NonSpaceOfStrip(d);
      NonSpaceOfStrip(n);
      Ok(Strip(d) + " " + Strip(n))
  }

  /** A needed course is the two attributes, stripped, around one space; when both are
      single words it splits back into exactly them; and when the department has no digit
      and the number starts with one, it is already in `normalize_code`'s form. */
  lemma {:induction false} NeededCourseForm(t: CourseTag)
    requires t.department.Some? && t.number.Some?
    ensures NeededCourse(t).Ok?
    ensures var d, n := Strip(t.department.value), Strip(t.number.value);
      (d != [] && NoSpace(d) && n != [] && NoSpace(n) ==> Words(NeededCourse(t).value) == [d, n])
      && (NormalForm(d, n) ==> Normalized(NeededCourse(t).value) == Some(NeededCourse(t).value))
  {
    var d, n := Strip(t.department.value), Strip(t.number.value);
    if d != [] && NoSpace(d) && n != [] && NoSpace(n) {
      assert Join([d, n], " ") == d + " " + n;
      WordsOfJoin([d, n]);
    }
    if NormalForm(d, n) {
      NormalizedOfNormalForm(d, n);
    }
  }

  // ---------------------------------------------------------------- extract_major_categories (lines 48-92)

  /** A `subrequirement` div: the `subreqTitle` span text, the needs table, the `course`
      cell text of each `takenCourse` row (None where the row has no such cell), and the
      draggable course tags. */
  datatype SubreqHtml = SubreqHtml(title: Option<string>, needs: Option<Needs>,
                                   taken: seq<Option<string>>, tags: seq<CourseTag>)

  /** A major category div: its `reqTitle` text (None when missing) and its sub-requirements. */
  datatype CategoryHtml = CategoryHtml(reqTitle: Option<string>, subreqs: seq<SubreqHtml>)

  /** The `subreq_dict` the loop appends. */
  datatype Subreq = Subreq(title: string, progress: Progress,
                           completed: seq<Option<string>>, needed: seq<string>)

  /** The `major_category_dict` the loop appends. */
  datatype Category = Category(name: string, subreqs: seq<Subreq>)

  /** Line 82: `normalize_code(course.find('td', class_='course').text)`. */
  function TakenCourse(cell: Option<string>): Result<Option<string>, AuditError> {
    if cell.None? then Err(AttributeError) else Ok(Normalized(cell.value))
  }

  /** Lines 56-89 for one sub-requirement, in the order the source evaluates them. It
      succeeds exactly when the progress reads, every taken row has its course cell and
      every needed tag has both attributes; each taken course is then normalized and each
      needed tag becomes one course, in order. */
  function ExtractSubreq(s: SubreqHtml): (r: Result<Subreq, AuditError>)
    ensures r.Ok? <==> && ProgressOf(s.needs).Ok?
                       && (forall k :: 0 <= k < |s.taken| ==> s.taken[k].Some?)
                       && (forall k :: 0 <= k < |s.tags| ==> NeededCourse(s.tags[k]).Ok?)
    ensures r.Ok? ==> && r.value.title == SubreqTitle(s.title)
                      && r.value.progress == ProgressOf(s.needs).value
                      && |r.value.completed| == |s.taken| && |r.value.needed| == |s.tags|
                      && (forall k :: 0 <= k < |s.taken| ==> r.value.completed[k] == Normalized(s.taken[k].value))
                      && (forall k :: 0 <= k < |s.tags| ==> NeededCourse(s.tags[k]) == Ok(r.value.needed[k]))
  {
    var title := SubreqTitle(s.title);
    var progress := ProgressOf(s.needs);
    var done := Collect(s.taken, TakenCourse);
    var need := Collect(s.tags, NeededCourse);
    TakenCourses(s.taken);
    if progress.Err? then Err(progress.error)
    else if done.Err? then Err(done.error)
    else if need.Err? then Err(need.error)
    else Ok(Subreq(title, progress.value, done.value, need.value))
  }

  /** Line 82: the comprehension succeeds exactly when every taken row has its cell, and
      then gives their normalizations. */
  lemma {:induction false} TakenCourses(taken: seq<Option<string>>)
    ensures Collect(taken, TakenCourse).Ok? <==> forall k :: 0 <= k < |taken| ==> taken[k].Some?
    ensures Collect(taken, TakenCourse).Ok? ==>
              forall k :: 0 <= k < |taken| ==> Collect(taken, TakenCourse).value[k] == Normalized(taken[k].value)
  {
    assert forall k :: 0 <= k < |taken| ==> (TakenCourse(taken[k]).Ok? <==> taken[k].Some?);
  }

  /** Lines 51-91 for one category: the stripped `reqTitle` (read first) and one entry
      per sub-requirement, in order. */
  function ExtractCategory(c: CategoryHtml): (r: Result<Category, AuditError>)
    ensures c.reqTitle.None? ==> r == Err(AttributeError)
    ensures r.Ok? <==> c.reqTitle.Some? && forall k :: 0 <= k < |c.subreqs| ==> ExtractSubreq(c.subreqs[k]).Ok?
    ensures r.Ok? ==> && r.value.name == Strip(c.reqTitle.value) && |r.value.subreqs| == |c.subreqs|
                      && forall k :: 0 <= k < |c.subreqs| ==> ExtractSubreq(c.subreqs[k]) == Ok(r.value.subreqs[k])
  {
    if c.reqTitle.None? then Err(AttributeError)
    else
      match Collect(c.subreqs, ExtractSubreq)
      case Err(e) => Err(e)
      case Ok(subs) => Ok(Category(Strip(c.reqTitle.value), subs))
  }

  /** A category with its title is the stripped title and the sub-requirements'
      comprehension, or that comprehension's error. */
  lemma {:induction false} ExtractCategoryOf(c: CategoryHtml)
    requires c.reqTitle.Some?
    ensures ExtractCategory(c) == match Collect(c.subreqs, ExtractSubreq)
      case Err(e) => Err(e)
      case Ok(subs) => Ok(Category(Strip(c.reqTitle.value), subs))
  {
  }

  /** `extract_major_categories`: the nested loops appending to `subreqs` and `major_reqs`. */
  method ExtractMajorCategories(categories: seq<CategoryHtml>) returns (r: Result<seq<Category>, AuditError>)
    ensures r == Collect(categories, ExtractCategory)
  {
    var majorReqs: seq<Category> := [];
    var n := 0;
    while n < |categories|
      invariant n <= |categories|
      invariant Collect(categories[..n], ExtractCategory) == Ok(majorReqs)
    {
      var category := categories[n];
      CollectSnoc(categories, ExtractCategory, n);
      if category.reqTitle.None? {
        CollectKeepsError(categories, ExtractCategory, n + 1);
        return Err(AttributeError);
      }
      var subs := ExtractSubreqs(category.subreqs);
      ExtractCategoryOf(category);
      if subs.Err? {
        CollectKeepsError(categories, ExtractCategory, n + 1);
        return Err(subs.error);
      }
      majorReqs := majorReqs + [Category(Strip(category.reqTitle.value), subs.value)];
      n := n + 1;
    }
    assert categories[..n] == categories;
    return Ok(majorReqs);
  }

  /** The inner loop of `extract_major_categories`: the sub-requirements of one category,
      in order, or the first error. */
  method ExtractSubreqs(subreqs: seq<SubreqHtml>) returns (r: Result<seq<Subreq>, AuditError>)
    ensures r == Collect(subreqs, ExtractSubreq)
  {
    var subs: seq<Subreq> := [];
    var j := 0;
    while j < |subreqs|
      invariant j <= |subreqs|
      invariant Collect(subreqs[..j], ExtractSubreq) == Ok(subs)
    {
      var s := ExtractSubreq(subreqs[j]);
      CollectSnoc(subreqs, ExtractSubreq, j);
      if s.Err? {
        CollectKeepsError(subreqs, ExtractSubreq, j + 1);
        return Err(s.error);
      }
      subs := subs + [s.value];
      j := j + 1;
    }
    assert subreqs[..j] == subreqs;
    return Ok(subs);
  }

  /** What the extraction promises the `/me` pages: one category per div, in order, each
      named by its stripped title and holding one entry per sub-requirement, in order;
      every title is collapsed, and every completed course that normalized is in normal
      form, so normalizing it again changes nothing. */
  lemma {:induction false} ExtractedShape(categories: seq<CategoryHtml>, k: nat, j: nat)
    requires Collect(categories, ExtractCategory).Ok?
    requires k < |categories| && j < |categories[k].subreqs|
    ensures var cs := Collect(categories, ExtractCategory).value;
      && |cs| == |categories|
      && categories[k].reqTitle.Some? && cs[k].name == Strip(categories[k].reqTitle.value)
      && |cs[k].subreqs| == |categories[k].subreqs|
      && cs[k].subreqs[j] == ExtractSubreq(categories[k].subreqs[j]).value
      && IsStripped(cs[k].subreqs[j].title) && SingleSpaced(cs[k].subreqs[j].title)
      && |cs[k].subreqs[j].needed| == |categories[k].subreqs[j].tags|
      && |cs[k].subreqs[j].completed| == |categories[k].subreqs[j].taken|
      && forall i :: 0 <= i < |cs[k].subreqs[j].completed| && cs[k].subreqs[j].completed[i].Some? ==>
           Normalized(cs[k].subreqs[j].completed[i].value) == cs[k].subreqs[j].completed[i]
  {
    var cs := Collect(categories, ExtractCategory).value;
    assert ExtractCategory(categories[k]) == Ok(cs[k]);
    var s := categories[k].subreqs[j];
    assert ExtractSubreq(s) == Ok(cs[k].subreqs[j]);
    var done := Collect(s.taken, TakenCourse).value;
    forall i | 0 <= i < |done| && done[i].Some? ensures Normalized(done[i].value) == done[i] {
      assert TakenCourse(s.taken[i]) == Ok(done[i]);
      NormalizeIdempotent(s.taken[i].value);
    }
  }
}
