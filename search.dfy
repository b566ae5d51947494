/** `search` (src/functions/search.py:4-16): the starting list is the whole catalog, or
    the semantic ranking of it when keywords are given; then, in the order the code
    applies them, the exact code-list filter, the division filter and the department-prefix
    filter. Every stage is a list comprehension, so every stage keeps order and
    multiplicity. The listing ends at the department filter without a `return`; the model
    returns the final value of `courses`. */
module Search {
  import opened Wrappers
  import opened Text
  import opened Lists
  import opened Catalog
  import opened Divisions
  import opened Embed

  /** What `search` can raise. */
  datatype SearchError =
    | UnknownDivision   // `SEARCH_FILTERS[division]` raises KeyError
    | BadPosition       // `COURSES[i]` inside `query` raises IndexError

  /** `query(keywords) if keywords else COURSES`. */
  function StartList(catalog: seq<Course>, rank: Ranker, keywords: string): (r: Result<seq<Course>, SearchError>)
    ensures keywords == [] ==> r == Ok(catalog)
    ensures keywords != [] ==> (r.Ok? <==> Query(catalog, rank, keywords).Some?)
    ensures keywords != [] && r.Ok? ==> r.value == Query(catalog, rank, keywords).value
  {
    if keywords == [] then Ok(catalog)
    else
      match Query(catalog, rank, keywords)
      case None => Err(BadPosition)
      case Some(ranked) => Ok(ranked)
  }

  /** `[code.strip().upper() for code in numbers.split(',')]`. */
  function CleanCodes(numbers: string): (r: seq<string>)
    ensures |r| == |Split(numbers, ",")|
    ensures forall k :: 0 <= k < |r| ==> r[k] == Upper(Strip(Split(numbers, ",")[k]))
  {
    var codes := Split(numbers, ",");
    seq(|codes|, k requires 0 <= k < |codes| => Upper(Strip(codes[k])))
  }

  /** A list of codes without commas, joined by commas, names exactly its pieces, each
      stripped and upper-cased. */
  lemma {:induction false} CleanCodesOfList(pieces: seq<string>)
    requires |pieces| >= 1 && forall k :: 0 <= k < |pieces| ==> ',' !in pieces[k]
    ensures |CleanCodes(Join(pieces, ","))| == |pieces|
    ensures forall k :: 0 <= k < |pieces| ==> CleanCodes(Join(pieces, ","))[k] == Upper(Strip(pieces[k]))
  {
    SplitJoin(pieces, ',');
  }

  /** The code-list stage keeps a course when its code is one of the cleaned codes. */
  predicate CodeListed(numbers: string, c: Course) {
    numbers == [] || c.code in CleanCodes(numbers)
  }

  /** The department stage keeps a course when its code starts with the cleaned department. */
  predicate InDepartment(dept: string, c: Course) {
    dept == [] || StartsWith(c.code, Upper(Strip(dept)))
  }

  /** The three stages at once. */
  predicate Selected(numbers: string, dept: string, d: Division, c: Course) {
    CodeListed(numbers, c) && Matches(d, c.code) && InDepartment(dept, c)
  }

  /** The starting list filtered once by all three stages. */
  function BySelection(courses: seq<Course>, numbers: string, dept: string, d: Division): seq<Course> {
    Filter(courses, (c: Course) => Selected(numbers, dept, d, c))
  }

  /** Lines 11-13: with a code list, every copy of each course whose code is listed, in
      order; without one, the list unchanged. */
  function ByNumbers(courses: seq<Course>, numbers: string): (r: seq<Course>)
    ensures forall c :: multiset(r)[c] == if CodeListed(numbers, c) then multiset(courses)[c] else 0
    ensures IsSubsequence(r, courses)
  {
    var p := (c: Course) => CodeListed(numbers, c);
    FilterCountsAll(courses, p);
    if numbers == [] then
      FilterKeepsAll(courses, p);
      courses
    else
      var q := (c: Course) => c.code in CleanCodes(numbers);
      FilterCongruent(courses, q, p);
      Filter(courses, q)
  }

  /** Line 14, once the division label has been looked up: every copy of each course
      whose code the division's pattern matches, in order. */
  function ByDivision(courses: seq<Course>, d: Division): (r: seq<Course>)
    ensures forall c :: multiset(r)[c] == if Matches(d, c.code) then multiset(courses)[c] else 0
    ensures IsSubsequence(r, courses)
  {
    var p := (c: Course) => Matches(d, c.code);
    FilterCountsAll(courses, p);
    Filter(courses, p)
  }

  /** Lines 15-16: with a department, every copy of each course whose code starts with
      it, cleaned, in order; without one, the list unchanged. */
  function ByDepartment(courses: seq<Course>, dept: string): (r: seq<Course>)
    ensures forall c :: multiset(r)[c] == if InDepartment(dept, c) then multiset(courses)[c] else 0
    ensures IsSubsequence(r, courses)
  {
    var p := (c: Course) => InDepartment(dept, c);
    FilterCountsAll(courses, p);
    if dept == [] then
      FilterKeepsAll(courses, p);
      courses
    else
      var q := (c: Course) => StartsWith(c.code, Upper(Strip(dept)));
      FilterCongruent(courses, q, p);
      Filter(courses, q)
  }

  /** `search(numbers, keywords, dept, division)`. The ranking is computed first, so a
      bad position is reported before an unknown division. The division is looked up in
      the condition of the line-14 comprehension, once per element, so an unknown division
      raises only when the code-list stage left something to test. */
  function Search(catalog: seq<Course>, rank: Ranker, numbers: string, keywords: string,
                  dept: string, division: string): (r: Result<seq<Course>, SearchError>)
    ensures StartList(catalog, rank, keywords).Err? ==> r == Err(BadPosition)
    ensures StartList(catalog, rank, keywords).Ok? && FromLabel(division).None? ==>
              r == if ByNumbers(StartList(catalog, rank, keywords).value, numbers) == [] then Ok([])
                   else Err(UnknownDivision)
    ensures r.Ok? ==> StartList(catalog, rank, keywords).Ok? && (FromLabel(division).Some? || r.value == [])
  {
    match StartList(catalog, rank, keywords)
    case Err(e) => Err(e)
    case Ok(courses) =>
      var listed := ByNumbers(courses, numbers);
      if listed == [] then Ok([])
      else
        match FromLabel(division)
        case None => Err(UnknownDivision)
        case Some(d) => Ok(ByDepartment(ByDivision(listed, d), dept))
  }

  /** A course passes the three stages of a search whose division is known. */
  predicate Kept(numbers: string, dept: string, division: string, c: Course) {
    FromLabel(division).Some? && Selected(numbers, dept, FromLabel(division).value, c)
  }

  // ---------------------------------------------------------------- properties

  /** The code-list stage is the filter by `CodeListed`. */
  lemma {:induction false} NumbersStage(courses: seq<Course>, numbers: string, n: Course -> bool)
    requires forall c :: n(c) == CodeListed(numbers, c)
    ensures ByNumbers(courses, numbers) == Filter(courses, n)
  {
    if numbers == [] {
      FilterKeepsAll(courses, n);
    } else {
      FilterCongruent(courses, (c: Course) => c.code in CleanCodes(numbers), n);
    }
  }

  /** The department stage is the filter by `InDepartment`. */
  lemma {:induction false} DepartmentStage(courses: seq<Course>, dept: string, p: Course -> bool)
    requires forall c :: p(c) == InDepartment(dept, c)
    ensures ByDepartment(courses, dept) == Filter(courses, p)
  {
    if dept == [] {
      FilterKeepsAll(courses, p);
    } else {
      FilterCongruent(courses, (c: Course) => StartsWith(c.code, Upper(Strip(dept))), p);
    }
  }

  /** The three stages compose to one filter by their conjunction, so the order of the
      stages does not matter. */
  lemma {:induction false} StagesAreOneFilter(courses: seq<Course>, numbers: string, dept: string, d: Division,
                           sel: Course -> bool)
    requires forall c :: sel(c) == Selected(numbers, dept, d, c)
    ensures ByDepartment(ByDivision(ByNumbers(courses, numbers), d), dept) == Filter(courses, sel)
  {
    var n := (c: Course) => CodeListed(numbers, c);
    var nm := (c: Course) => CodeListed(numbers, c) && Matches(d, c.code);
    var p := (c: Course) => InDepartment(dept, c);
    NumbersStage(courses, numbers, n);
    FilterFilter(courses, n, (c: Course) => Matches(d, c.code), nm);
    DepartmentStage(Filter(courses, nm), dept, p);
    FilterFilter(courses, nm, p, sel);
  }

  /** With a known division, the search runs the three stages in the order of the code
      (an empty list stays empty through them). */
  lemma {:induction false} SearchStages(catalog: seq<Course>, rank: Ranker, numbers: string, keywords: string,
                                        dept: string, division: string)
    requires StartList(catalog, rank, keywords).Ok? && FromLabel(division).Some?
    ensures Search(catalog, rank, numbers, keywords, dept, division)
         == Ok(ByDepartment(ByDivision(ByNumbers(StartList(catalog, rank, keywords).value, numbers),
                                       FromLabel(division).value), dept))
  {
    var listed := ByNumbers(StartList(catalog, rank, keywords).value, numbers);
    if listed == [] {
      assert ByDivision(listed, FromLabel(division).value) == [];
    }
  }

  /** A successful search is the starting list filtered once by all three predicates;
      with an unknown division it succeeds only as the empty list, when the code-list
      stage left nothing. */
  lemma {:induction false} SearchIsFilter(catalog: seq<Course>, rank: Ranker, numbers: string, keywords: string,
                       dept: string, division: string)
    requires Search(catalog, rank, numbers, keywords, dept, division).Ok?
    ensures FromLabel(division).Some? ==>
              (Search(catalog, rank, numbers, keywords, dept, division).value
               == BySelection(StartList(catalog, rank, keywords).value, numbers, dept, FromLabel(division).value))
    ensures FromLabel(division).None? ==>
              (Search(catalog, rank, numbers, keywords, dept, division).value == []
               && ByNumbers(StartList(catalog, rank, keywords).value, numbers) == [])
  {
    if FromLabel(division).Some? {
      SearchStages(catalog, rank, numbers, keywords, dept, division);
      StagesAreOneFilter(StartList(catalog, rank, keywords).value, numbers, dept, FromLabel(division).value,
                         (c: Course) => Selected(numbers, dept, FromLabel(division).value, c));
    }
  }

  /** A successful search is the starting list filtered once by `Kept`. */
  lemma {:induction false} SearchIsKept(catalog: seq<Course>, rank: Ranker, numbers: string, keywords: string,
                                        dept: string, division: string)
    requires Search(catalog, rank, numbers, keywords, dept, division).Ok?
    ensures Search(catalog, rank, numbers, keywords, dept, division).value
         == Filter(StartList(catalog, rank, keywords).value, (c: Course) => Kept(numbers, dept, division, c))
  {
    var start := StartList(catalog, rank, keywords).value;
    var kept := (c: Course) => Kept(numbers, dept, division, c);
    SearchIsFilter(catalog, rank, numbers, keywords, dept, division);
    if FromLabel(division).Some? {
      FilterCongruent(start, (c: Course) => Selected(numbers, dept, FromLabel(division).value, c), kept);
    } else {
      FilterNone(start, kept);
    }
  }

  /** The result keeps the order of the starting list (it is a subsequence of it), holds
      only kept courses, and holds each kept course exactly as often as the starting list
      does: cross-listed duplicates are neither merged nor dropped. */
  lemma {:induction false} SearchKeepsOrderAndCopies(catalog: seq<Course>, rank: Ranker, numbers: string, keywords: string,
                                  dept: string, division: string)
    requires Search(catalog, rank, numbers, keywords, dept, division).Ok?
    ensures IsSubsequence(Search(catalog, rank, numbers, keywords, dept, division).value,
                          StartList(catalog, rank, keywords).value)
    ensures forall c :: (multiset(Search(catalog, rank, numbers, keywords, dept, division).value)[c]
         == if Kept(numbers, dept, division, c) then multiset(StartList(catalog, rank, keywords).value)[c] else 0)
  {
    SearchIsKept(catalog, rank, numbers, keywords, dept, division);
    var start := StartList(catalog, rank, keywords).value;
    var kept := (c: Course) => Kept(numbers, dept, division, c);
    FilterIsSubsequence(start, kept);
    forall c ensures multiset(Filter(start, kept))[c] == if kept(c) then multiset(start)[c] else 0 {
      FilterCounts(start, kept, c);
    }
  }

  /** A course is in the result exactly when it is in the starting list and passes each
      stage that was asked for: its code is one of the listed codes (exactly, not as a
      substring), the division is known and takes it, and it starts with the department. */
  lemma {:induction false} SearchMembers(catalog: seq<Course>, rank: Ranker, numbers: string, keywords: string,
                      dept: string, division: string, c: Course)
    requires Search(catalog, rank, numbers, keywords, dept, division).Ok?
    ensures c in Search(catalog, rank, numbers, keywords, dept, division).value
        <==> && c in StartList(catalog, rank, keywords).value
             && (numbers != [] ==> c.code in CleanCodes(numbers))
             && FromLabel(division).Some? && Matches(FromLabel(division).value, c.code)
             && (dept != [] ==> StartsWith(c.code, Upper(Strip(dept))))
  {
    SearchIsKept(catalog, rank, numbers, keywords, dept, division);
    FilterMembers(StartList(catalog, rank, keywords).value, (c: Course) => Kept(numbers, dept, division, c), c);
  }

  /** With only a division given, the search is exactly the catalog entries in that
      division, in catalog order. */
  lemma {:induction false} DivisionOnly(catalog: seq<Course>, rank: Ranker, d: Division)
    ensures Search(catalog, rank, "", "", "", Label(d)) == Ok(ByDivision(catalog, d))
  {
    LabelRoundTrip(d, Label(d));
  }

  /** An empty code list or an empty department leaves the list unchanged at that stage. */
  lemma {:induction false} EmptyStagesKeepAll(courses: seq<Course>)
    ensures ByNumbers(courses, "") == courses && ByDepartment(courses, "") == courses
  {
  }

  /** Searching the result of a search again with the same filters changes nothing. */
  lemma {:induction false} SearchIdempotent(catalog: seq<Course>, rank: Ranker, numbers: string, keywords: string,
                         dept: string, division: string)
    requires Search(catalog, rank, numbers, keywords, dept, division).Ok?
    ensures Search(Search(catalog, rank, numbers, keywords, dept, division).value, rank, numbers, "", dept, division)
         == Search(catalog, rank, numbers, keywords, dept, division)
  {
    var r := Search(catalog, rank, numbers, keywords, dept, division).value;
    var kept := (c: Course) => Kept(numbers, dept, division, c);
    SearchIsKept(catalog, rank, numbers, keywords, dept, division);
    if FromLabel(division).Some? {
      var d := FromLabel(division).value;
      var sel := (c: Course) => Selected(numbers, dept, d, c);
      SearchIsFilter(catalog, rank, numbers, keywords, dept, division);
      SearchStages(r, rank, numbers, "", dept, division);
      StagesAreOneFilter(r, numbers, dept, d, sel);
      FilterFilter(StartList(catalog, rank, keywords).value, sel, sel, sel);
    } else {
      assert r == [];
      assert ByNumbers(r, numbers) == [];
    }
  }

  /** An unknown division is a KeyError only when some course reaches the division stage:
      over an empty catalog, or when no course has a listed code, the search gives the empty
      list. */
  lemma {:induction false} UnknownDivisionReached(rank: Ranker, numbers: string)
    ensures Search([], rank, numbers, "", "", "Bogus") == Ok([])
    ensures Search(Sample(), rank, "", "", "", "Bogus") == Err(UnknownDivision)
  {
    assert ByNumbers([], numbers) == [];
    assert ByNumbers(Sample(), "") == Sample();
  }

  /** A department is a prefix, not a whole department: "CS" also keeps "CSE 100". */
  lemma {:induction false} DepartmentIsPrefix()
    ensures InDepartment(" cs ", Course("CSE 100", "", None, "", ""))
  {
    StripExample();
    assert Upper("cs") == "CS";
  }

  lemma {:induction false} StripExample()
    ensures Strip(" cs ") == "cs"
  {
    var x := "cs";
    assert IsStripped(x);
    StripPadded(x);
    assert " cs " == " " + (x + " ");
  }

  /** One space on each side of a stripped text is stripped away. */
  lemma {:induction false} StripPadded(x: string)
    requires IsStripped(x)
    ensures Strip(" " + (x + " ")) == x
  {
    assert AllSpaces(" ");
    StripSpacesAfter(x, " ");
    StripSpaceBefore(x + " ");
  }

  // ---------------------------------------------------------------- the three-course catalog

  function Sample(): seq<Course> {
    [Course("CSE 8", "", None, "intro programming", "None"),
     Course("CSE 100", "", None, "algorithms", "None"),
     Course("MATH 20A", "", None, "calculus", "None")]
  }

  /** `search(division="Lower Division")` lists "CSE 8" and "MATH 20A", in that order. */
  lemma {:induction false} SampleLowerDivision(catalog: seq<Course>, rank: Ranker)
    requires catalog == Sample()
    ensures Search(catalog, rank, "", "", "", "Lower Division") == Ok([catalog[0], catalog[2]])
  {
    SampleInLowerDivision(catalog);
    ByDivisionKeepsOuter(catalog, LowerDivision);
    DivisionOnly(catalog, rank, LowerDivision);
  }

  lemma {:induction false} SampleInLowerDivision(catalog: seq<Course>)
    requires catalog == Sample()
    ensures |catalog| == 3
    ensures Matches(LowerDivision, catalog[0].code) && !Matches(LowerDivision, catalog[1].code)
    ensures Matches(LowerDivision, catalog[2].code)
  {
    LowerDivisionExamples();
  }

  /** The code list "CSE 100, MATH 20A", written as its two comma-separated pieces. */
  function SampleNumbers(): string {
    Join(["CSE 100", " MATH 20A"], ",")
  }

  /** "CSE 100, MATH 20A" names the codes "CSE 100" and "MATH 20A". */
  lemma {:induction false} SampleCodes()
    ensures CleanCodes(SampleNumbers()) == ["CSE 100", "MATH 20A"]
  {
    CleanFirstCode();
    CleanSecondCode();
    TwoCodes("CSE 100", " MATH 20A");
  }

  /** Two comma-free pieces joined by a comma name their two cleaned codes. */
  lemma {:induction false} TwoCodes(p0: string, p1: string)
    requires ',' !in p0 && ',' !in p1
    ensures CleanCodes(Join([p0, p1], ",")) == [Upper(Strip(p0)), Upper(Strip(p1))]
  {
    var pieces := [p0, p1];
    assert forall k :: 0 <= k < |pieces| ==> ',' !in pieces[k];
    CleanCodesOfList(pieces);
  }

  lemma {:induction false} CleanFirstCode()
    ensures Upper(Strip("CSE 100")) == "CSE 100"
  {
    assert IsStripped("CSE 100");
    StripStripped("CSE 100");
    UpperKeeps("CSE 100");
  }

  lemma {:induction false} CleanSecondCode()
    ensures Upper(Strip(" MATH 20A")) == "MATH 20A"
  {
    var w := "MATH 20A";
    assert " MATH 20A" == " " + w;
    assert IsStripped(w);
    StripLeadingSpace(w);
    UpperKeeps(w);
  }

  /** `search(numbers=..., division="All Courses")` with a code list naming "CSE 100" and
      "MATH 20A" (as `SampleCodes` shows "CSE 100, MATH 20A" does) keeps exactly those two. */
  lemma {:induction false} SampleByNumbers(catalog: seq<Course>, rank: Ranker, numbers: string)
    requires catalog == Sample() && numbers != [] && CleanCodes(numbers) == ["CSE 100", "MATH 20A"]
    ensures Search(catalog, rank, numbers, "", "", "All Courses") == Ok([catalog[1], catalog[2]])
  {
    SampleListed(catalog, numbers);
    FilterKeepsLastTwo(catalog, (c: Course) => Selected(numbers, "", AllCourses, c));
    NumbersOnly(catalog, rank, numbers);
  }

  /** With only a code list and "All Courses", the search is the code-list filter of the catalog. */
  lemma {:induction false} NumbersOnly(catalog: seq<Course>, rank: Ranker, numbers: string)
    ensures Search(catalog, rank, numbers, "", "", "All Courses") == Ok(BySelection(catalog, numbers, "", AllCourses))
  {
    LabelRoundTrip(AllCourses, "All Courses");
    SearchIsFilter(catalog, rank, numbers, "", "", "All Courses");
  }

  lemma {:induction false} SampleListed(catalog: seq<Course>, numbers: string)
    requires catalog == Sample() && numbers != [] && CleanCodes(numbers) == ["CSE 100", "MATH 20A"]
    ensures |catalog| == 3
    ensures !Selected(numbers, "", AllCourses, catalog[0])
    ensures Selected(numbers, "", AllCourses, catalog[1]) && Selected(numbers, "", AllCourses, catalog[2])
  {
    SampleCodesListed(catalog, CleanCodes(numbers));
    SelectedByCodeOnly(numbers, catalog[0]);
    SelectedByCodeOnly(numbers, catalog[1]);
    SelectedByCodeOnly(numbers, catalog[2]);
  }

  /** Which sample codes the list ["CSE 100", "MATH 20A"] names. */
  lemma {:induction false} SampleCodesListed(catalog: seq<Course>, cc: seq<string>)
    requires catalog == Sample() && cc == ["CSE 100", "MATH 20A"]
    ensures |catalog| == 3
    ensures catalog[0].code !in cc && catalog[1].code in cc && catalog[2].code in cc
  {
  }

  /** With no department and "All Courses", a course is selected exactly when its code is listed. */
  lemma {:induction false} SelectedByCodeOnly(numbers: string, c: Course)
    ensures Selected(numbers, "", AllCourses, c) == (numbers == [] || c.code in CleanCodes(numbers))
  {
  }

  /** One step of the division filter. */
  lemma {:induction false} ByDivisionCons(xs: seq<Course>, d: Division)
    requires xs != []
    ensures ByDivision(xs, d) == (if Matches(d, xs[0].code) then [xs[0]] else []) + ByDivision(xs[1..], d)
  {
  }

  /** The division filter over three courses that keeps the outer two. */
  lemma {:induction false} ByDivisionKeepsOuter(xs: seq<Course>, d: Division)
    requires |xs| == 3
    requires Matches(d, xs[0].code) && !Matches(d, xs[1].code) && Matches(d, xs[2].code)
    ensures ByDivision(xs, d) == [xs[0], xs[2]]
  {
    FilterKeepsOuter(xs, (c: Course) => Matches(d, c.code));
  }

  /** A filter over three elements that keeps the outer two. */
  lemma {:induction false} FilterKeepsOuter<T>(xs: seq<T>, p: T -> bool)
    requires |xs| == 3 && p(xs[0]) && !p(xs[1]) && p(xs[2])
    ensures Filter(xs, p) == [xs[0], xs[2]]
  {
    assert xs[2..][1..] == [];
    assert Filter(xs[2..], p) == [xs[2]];
    assert xs[1..][1..] == xs[2..];
    assert Filter(xs[1..], p) == [xs[2]];
  }

  /** A filter over three elements that keeps the last two. */
  lemma {:induction false} FilterKeepsLastTwo<T>(xs: seq<T>, p: T -> bool)
    requires |xs| == 3 && !p(xs[0]) && p(xs[1]) && p(xs[2])
    ensures Filter(xs, p) == [xs[1], xs[2]]
  {
    assert xs[2..][1..] == [];
    assert Filter(xs[2..], p) == [xs[2]];
    assert xs[1..][1..] == xs[2..];
    assert Filter(xs[1..], p) == [xs[1], xs[2]];
  }

  /** With keywords and "Upper Division", whatever order the ranking puts the three courses
      in, only "CSE 100" survives. */
  lemma {:induction false} SampleRankedUpper(rank: Ranker)
    requires multiset(rank("sorting algorithms", 3)) == multiset(Range(3))
    ensures Search(Sample(), rank, "", "sorting algorithms", "", "Upper Division") == Ok([Sample()[1]])
  {
    var xs := Sample();
    var keywords := "sorting algorithms";
    var sel := (c: Course) => Selected("", "", UpperDivision, c);
    QueryPermutes(xs, rank, keywords);
    LabelRoundTrip(UpperDivision, "Upper Division");
    SearchKeepsOrderAndCopies(xs, rank, "", keywords, "", "Upper Division");
    SampleInUpperDivision(xs);
    OneOfThreeKept(Search(xs, rank, "", keywords, "", "Upper Division").value,
                   StartList(xs, rank, keywords).value, xs, sel);
  }

  lemma {:induction false} SampleInUpperDivision(catalog: seq<Course>)
    requires catalog == Sample()
    ensures |catalog| == 3 && catalog[1] != catalog[0] && catalog[1] != catalog[2]
    ensures !Matches(UpperDivision, catalog[0].code) && Matches(UpperDivision, catalog[1].code)
    ensures !Matches(UpperDivision, catalog[2].code)
  {
    UpperDivisionExamples();
  }

  /** A list holding each selected element of a three-element list exactly as often as
      that list does, when only the middle element is selected, is that element alone. */
  lemma {:induction false} OneOfThreeKept<T>(r: seq<T>, start: seq<T>, xs: seq<T>, sel: T -> bool)
    requires |xs| == 3 && multiset(start) == multiset(xs)
    requires !sel(xs[0]) && sel(xs[1]) && !sel(xs[2]) && xs[1] != xs[0] && xs[1] != xs[2]
    requires forall c :: multiset(r)[c] == if sel(c) then multiset(start)[c] else 0
    ensures r == [xs[1]]
  {
    assert multiset(xs) == multiset{xs[0]} + multiset{xs[1]} + multiset{xs[2]} by {
      assert xs == [xs[0]] + [xs[1]] + [xs[2]];
    }
    forall c ensures multiset(r)[c] == multiset{xs[1]}[c] {
      if sel(c) {
        assert c != xs[0] && c != xs[2];
      }
    }
    assert multiset(r) == multiset{xs[1]};
    SingletonSeq(r, xs[1]);
  }

  /** A list whose multiset is a single element is that one-element list. */
  lemma {:induction false} SingletonSeq<T>(r: seq<T>, x: T)
    requires multiset(r) == multiset{x}
    ensures r == [x]
  {
    assert |r| == |multiset(r)| == 1;
    assert r[0] in multiset(r);
  }
}
