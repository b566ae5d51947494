/** The logic of the chat commands (src/discord_bot/commands.py) that does not depend on
    Discord itself: the PID check of `/link`, the pages of `/search`, the pages of `/me`,
    and the `verification_timers` dict with its 15-second check. Embeds are modelled as
    a title and a list of (name, value) fields; colours, the filter description, the
    paginator and the database are not part of this model. */
module Commands {
  import opened Wrappers
  import opened Text
  import opened Lists
  import opened Catalog
  import opened Audit
  import Search

  // ---------------------------------------------------------------- /link (lines 195-222)

  /** `pid.upper().strip()`. */
  function CleanPid(pid: string): string {
    Strip(Upper(pid))
  }

  /** The negation of the test at line 197: nine characters, an 'A', then digits. */
  predicate PidAccepted(pid: string) {
    var p := CleanPid(pid);
    |p| == 9 && StartsWith(p, "A") && AllDigits(p[1..])
  }

  /** An accepted PID is 'A' and eight digits once cleaned. */
  lemma {:induction false} PidShape(pid: string)
    ensures PidAccepted(pid) <==>
      |CleanPid(pid)| == 9 && CleanPid(pid)[0] == 'A' && forall k :: 1 <= k < 9 ==> IsDigit(CleanPid(pid)[k])
  {
    var p := CleanPid(pid);
    if |p| == 9 {
      assert forall k :: 1 <= k < 9 ==> p[k] == p[1..][k - 1];
    }
  }

  /** Cleaning is idempotent, so a cleaned PID is accepted exactly when the raw one is. */
  lemma {:induction false} CleanPidIdempotent(pid: string)
    ensures CleanPid(CleanPid(pid)) == CleanPid(pid)
    ensures PidAccepted(CleanPid(pid)) == PidAccepted(pid)
  {
    var u := Upper(pid);
    var p := Strip(u);
    var l := LeadingSpaces(u);
    assert p == u[l..l + |p|];
    forall k | 0 <= k < |p| ensures !IsLower(p[k]) {
      assert p[k] == u[l + k];
    }
    UpperKeeps(p);
    StripIdempotent(u);
  }

  /** Lower case and surrounding white space are forgiven. */
  lemma {:induction false} PidAcceptedExample()
    ensures PidAccepted(" a12345678")
  {
    var w := "A12345678";
    assert Upper(" a12345678") == " " + w by {
      assert forall k :: 0 <= k < 10 ==> Upper(" a12345678")[k] == (" " + w)[k];
    }
    assert IsStripped(w);
    StripLeadingSpace(w);
    assert CleanPid(" a12345678") == w;
    assert AllDigits(w[1..]);
  }

  /** Eight characters are too few. */
  lemma {:induction false} PidTooShortExample()
    ensures !PidAccepted("A1234567")
  {
    var w := "A1234567";
    UpperKeeps(w);
    assert IsStripped(w);
    StripStripped(w);
  }

  /** The letter must be 'A'. */
  lemma {:induction false} PidLetterExample()
    ensures !PidAccepted("B12345678")
  {
    var w := "B12345678";
    UpperKeeps(w);
    assert IsStripped(w);
    StripStripped(w);
    assert w[0] != "A"[0];
  }

  /** The eight characters after the letter must be digits. */
  lemma {:induction false} PidDigitsExample()
    ensures !PidAccepted("A1234567X")
  {
    var w := "A1234567X";
    UpperKeeps(w);
    assert IsStripped(w);
    StripStripped(w);
    assert !IsDigit(w[1..][7]);
  }

  // ---------------------------------------------------------------- /search pages (lines 74-101)

  /** One embed field. */
  datatype Field = Field(name: string, value: string)

  /** One embed page: its title and fields. */
  datatype Page = Page(title: string, fields: seq<Field>)

  /** Results per page. */
  const PageSize: nat := 3

  /** Longest field value Discord accepts. */
  const FieldLimit: nat := 1024

  /** Line 78: `[xs[i:min(i+3, len(xs))] for i in range(0, len(xs), 3)]`. */
  function Chunks<T>(xs: seq<T>): (r: seq<seq<T>>)
    ensures |r| == (|xs| + PageSize - 1) / PageSize
    ensures forall k :: 0 <= k < |r| ==> 1 <= |r[k]| <= PageSize
    ensures forall k :: 0 <= k < |r| - 1 ==> |r[k]| == PageSize
  {
    seq((|xs| + 2) / 3, (j: int) requires 0 <= j < (|xs| + 2) / 3 =>
      xs[3 * j .. if 3 * j + 3 < |xs| then 3 * j + 3 else |xs|])
  }

  lemma {:induction false} SliceOfSlice<T>(xs: seq<T>, off: nat, a: nat, b: nat)
    requires off <= |xs| && a <= b <= |xs| - off
    ensures xs[off..][a..b] == xs[off + a .. off + b]
  {
  }

  /** The pages, read in order, give back the list. */
  lemma {:induction false} ChunksConcat<T>(xs: seq<T>)
    ensures Concat(Chunks(xs)) == xs
    decreases |xs|
  {
    var cs := Chunks(xs);
    if |xs| <= 3 {
      if xs != [] {
        assert cs[0] == xs[0..|xs|] == xs;
        assert cs == [xs];
        assert Concat(cs[1..]) == [];
      }
    } else {
      var rest := Chunks(xs[3..]);
      assert |cs| == 1 + |rest|;
      forall j | 0 <= j < |rest| ensures cs[j + 1] == rest[j] {
        var e := if 3 * j + 3 < |xs| - 3 then 3 * j + 3 else |xs| - 3;
        assert rest[j] == xs[3..][3 * j .. e];
        assert cs[j + 1] == xs[3 * j + 3 .. 3 + e];
        SliceOfSlice(xs, 3, 3 * j, e);
      }
      assert cs[1..] == rest;
      ChunksConcat(xs[3..]);
      assert cs[0] == xs[..3];
      assert xs == xs[..3] + xs[3..];
    }
  }

  /** Lines 89-92: the description when shorter than the limit, else its first 1021
      characters and "...". */
  function FieldValue(desc: string): (r: string)
    ensures |r| <= FieldLimit
    ensures |desc| < FieldLimit ==> r == desc
    ensures |desc| >= FieldLimit ==> |r| == FieldLimit && StartsWith(r, desc[..FieldLimit - 3]) && EndsWith(r, "...")
  {
    if |desc| < 1024 then desc else desc[..1021] + "..."
  }

  /** Truncating a truncated description changes nothing. */
  lemma {:induction false} FieldValueIdempotent(desc: string)
    ensures FieldValue(FieldValue(desc)) == FieldValue(desc)
  {
    if |desc| >= 1024 {
      var r := FieldValue(desc);
      assert r[..1021] == desc[..1021];
    }
  }

  /** Lines 86-93: one field per course. */
  function CourseField(c: Course): Field {
    Field(c.code + " | " + c.title, FieldValue(c.desc))
  }

  /** The pages of a list of chunks under one title. */
  function ResultPages(title: string, chunks: seq<seq<Course>>): (r: seq<Page>)
    ensures |r| == |chunks|
  {
    if chunks == [] then [] else [Page(title, Map(chunks[0], CourseField))] + ResultPages(title, chunks[1..])
  }

  /** The fields of a list of pages, read in order. */
  function AllFields(pages: seq<Page>): seq<Field> {
    if pages == [] then [] else pages[0].fields + AllFields(pages[1..])
  }

  /** What `/search` shows: nothing found, or pages titled with the total. */
  datatype SearchReply = NoResults | Results(pages: seq<Page>)

  /** Lines 76-109 for the list that `functions.search` returns. As written, line 74 calls
      the command itself, which shadows the imported name, so these lines are reached only
      if that call is read as the intended one. */
  function SearchReplyOf(courses: seq<Course>): (r: SearchReply)
    ensures r.NoResults? <==> courses == []
    ensures r.Results? ==> |r.pages| == (|courses| + PageSize - 1) / PageSize
  {
    if courses == [] then NoResults
    else Results(ResultPages("Search results (" + NatToString(|courses|) + " total)", Chunks(courses)))
  }

  lemma {:induction false} ResultPagesFields(title: string, chunks: seq<seq<Course>>)
    ensures AllFields(ResultPages(title, chunks)) == Map(Concat(chunks), CourseField)
    ensures forall k :: 0 <= k < |chunks| ==> ResultPages(title, chunks)[k] == Page(title, Map(chunks[k], CourseField))
  {
    if chunks != [] {
      ResultPagesFields(title, chunks[1..]);
      MapAppend(chunks[0], Concat(chunks[1..]), CourseField);
      var r := ResultPages(title, chunks);
      forall k | 1 <= k < |chunks| ensures r[k] == Page(title, Map(chunks[k], CourseField)) {
        assert r[k] == ResultPages(title, chunks[1..])[k - 1];
      }
    }
  }

  /** Results come as ceil(n/3) pages that each show the total n and one to three courses
      (only the last page may show fewer than three), every field value fits the limit,
      and the fields, read page by page, are the results in order. */
  lemma {:induction false} SearchPages(courses: seq<Course>)
    ensures courses == [] <==> SearchReplyOf(courses) == NoResults
    ensures courses != [] ==> var pages := SearchReplyOf(courses).pages;
      && |pages| == (|courses| + PageSize - 1) / PageSize
      && AllFields(pages) == Map(courses, CourseField)
      && (forall k :: 0 <= k < |pages| ==>
            pages[k].title == "Search results (" + NatToString(|courses|) + " total)"
            && 1 <= |pages[k].fields| <= PageSize)
      && (forall k :: 0 <= k < |pages| - 1 ==> |pages[k].fields| == PageSize)
      && (forall k, i :: 0 <= k < |pages| && 0 <= i < |pages[k].fields| ==> |pages[k].fields[i].value| <= FieldLimit)
  {
    if courses != [] {
      var title := "Search results (" + NatToString(|courses|) + " total)";
      ResultPagesFields(title, Chunks(courses));
      ChunksConcat(courses);
    }
  }

  // ---------------------------------------------------------------- /me pages (lines 115-189)

  /** A major as the audit store keeps it: its title and categories. */
  datatype Major = Major(title: string, categories: seq<Category>)

  /** The stored JSON object, as far as `/me` reads it: its "major" and "second_major"
      entries and how many other keys it holds. */
  datatype AuditData = AuditData(major: Option<Major>, secondMajor: Option<Major>, otherKeys: nat)

  /** `not data` for a stored object: it holds no key at all. */
  predicate IsEmptyObject(d: AuditData) {
    d.major.None? && d.secondMajor.None? && d.otherKeys == 0
  }

  /** The progress line without its newline (lines 132-138 and 155-161). The hours are
      shown as the audit's text. */
  function Status(p: Progress): (r: string)
    ensures r != [] && r[|r| - 1] != '\n'
  {
    match p
    case Complete => "Requirements Complete. \U{2705}"
    case UnitsLeft(u) => u + " units remaining. \U{1F7E5}"
    case CoursesLeft(n) => IntToString(n) + " courses remaining. \U{1F7E5}"
  }

  /** Needed courses shown after "Choose from: ". */
  const NeededShown: nat := 20

  /** Lines 164-167: the first twenty needed courses joined by ", ", and " or more..." when
      there are more than twenty. */
  function NeededSummary(needed: seq<string>): string {
    if |needed| > 20 then Join(needed[..20], ", ") + " or more..." else Join(needed, ", ")
  }

  /** A text led by one space. */
  function Spaced(x: string): string {
    " " + x
  }

  /** `", ".join(xs)` is `",".join` of the pieces after the first, each led by a space. */
  lemma {:induction false} JoinCommaSpace(xs: seq<string>)
    requires |xs| >= 1
    ensures " " + Join(xs, ", ") == Join(Map(xs, Spaced), ",")
  {
    if |xs| > 1 {
      JoinCommaSpace(xs[1..]);
      var m := Map(xs, Spaced);
      assert m[1..] == Map(xs[1..], Spaced);
      calc {
        " " + Join(xs, ", ");
        " " + (xs[0] + ", " + Join(xs[1..], ", "));
        (" " + xs[0]) + "," + (" " + Join(xs[1..], ", "));
        m[0] + "," + Join(m[1..], ",");
        Join(m, ",");
      }
    } else {
      assert Map(xs, Spaced) == [" " + xs[0]];
    }
  }

  lemma {:induction false} CommaSpace()
    ensures ", " == "," + " "
  {
  }

  lemma {:induction false} Regroup(a: string, b: string, c: string, d: string)
    ensures a + (b + c) + d == a + b + (c + d)
  {
  }

  /** The pieces `",".split` finds in `", ".join(codes)`. */
  function CommaPieces(codes: seq<string>): (r: seq<string>)
    requires |codes| >= 1
    ensures |r| == |codes|
  {
    [codes[0]] + Map(codes[1..], Spaced)
  }

  lemma {:induction false} CommaPiecesJoin(codes: seq<string>)
    requires |codes| >= 1
    ensures Join(codes, ", ") == Join(CommaPieces(codes), ",")
  {
    var pieces := CommaPieces(codes);
    if |codes| > 1 {
      var j := Join(codes[1..], ", ");
      JoinCommaSpace(codes[1..]);
      assert pieces[1..] == Map(codes[1..], Spaced);
      CommaSpace();
      Regroup(codes[0], ",", " ", j);
      assert Join(codes, ", ") == codes[0] + "," + (" " + j);
    } else {
      assert pieces == codes;
    }
  }

  lemma {:induction false} CommaPiecesClean(codes: seq<string>, k: nat)
    requires k < |codes| && IsStripped(codes[k]) && ',' !in codes[k]
    ensures ',' !in CommaPieces(codes)[k] && Upper(Strip(CommaPieces(codes)[k])) == Upper(codes[k])
  {
    if k == 0 {
      StripStripped(codes[0]);
    } else {
      assert CommaPieces(codes)[k] == " " + codes[k];
      StripLeadingSpace(codes[k]);
    }
  }

  lemma {:induction false} CommaPiecesAllClean(codes: seq<string>)
    requires |codes| >= 1
    requires forall k :: 0 <= k < |codes| ==> IsStripped(codes[k]) && ',' !in codes[k]
    ensures forall k :: 0 <= k < |codes| ==>
      ',' !in CommaPieces(codes)[k] && Upper(Strip(CommaPieces(codes)[k])) == Upper(codes[k])
  {
    forall k | 0 <= k < |codes|
      ensures ',' !in CommaPieces(codes)[k] && Upper(Strip(CommaPieces(codes)[k])) == Upper(codes[k])
    {
      CommaPiecesClean(codes, k);
    }
  }

  /** The list "Choose from:" shows, read back as `/search`'s comma-separated code list:
      stripped codes without commas give back exactly themselves, upper-cased. */
  lemma {:induction false} CodeListRoundTrip(codes: seq<string>)
    requires |codes| >= 1
    requires forall k :: 0 <= k < |codes| ==> IsStripped(codes[k]) && ',' !in codes[k]
    ensures Search.CleanCodes(Join(codes, ", ")) == Map(codes, Upper)
  {
    var pieces := CommaPieces(codes);
    CommaPiecesAllClean(codes);
    CommaPiecesJoin(codes);
    SplitJoin(pieces, ',');
    assert Split(Join(codes, ", "), ",") == pieces;
  }

  /** Up to twenty needed courses are all listed and read back as a code list; beyond
      twenty, exactly the first twenty are listed, followed by " or more...". */
  lemma {:induction false} NeededSummaryLists(needed: seq<string>)
    requires forall k :: 0 <= k < |needed| ==> IsStripped(needed[k]) && ',' !in needed[k]
    ensures 1 <= |needed| <= NeededShown ==> Search.CleanCodes(NeededSummary(needed)) == Map(needed, Upper)
    ensures |needed| > NeededShown ==>
      NeededSummary(needed) == Join(needed[..NeededShown], ", ") + " or more..."
      && Search.CleanCodes(Join(needed[..NeededShown], ", ")) == Map(needed[..NeededShown], Upper)
  {
    if 1 <= |needed| <= 20 {
      CodeListRoundTrip(needed);
    } else if |needed| > 20 {
      CodeListRoundTrip(needed[..20]);
    }
  }

  /** Lines 155-167: the progress line, then the needed courses unless complete. */
  function CategoryValue(s: Subreq): string {
    Status(s.progress) + "\n" + (if s.progress.Complete? then "" else "Choose from: " + NeededSummary(s.needed))
  }

  /** Lines 168-171. */
  function SubreqField(s: Subreq): Field {
    Field(s.title, CategoryValue(s))
  }

  /** `category_overview`: one field per sub-requirement, under the category's name. */
  function CategoryOverview(c: Category): (p: Page)
    ensures p.title == c.name && |p.fields| == |c.subreqs|
    ensures forall k :: 0 <= k < |c.subreqs| ==> p.fields[k].name == c.subreqs[k].title
  {
    Page(c.name, Map(c.subreqs, SubreqField))
  }

  /** `category_overview`'s loop. */
  method CategoryOverviewPage(c: Category) returns (p: Page)
    ensures p == CategoryOverview(c)
  {
    var fields: seq<Field> := [];
    var j := 0;
    while j < |c.subreqs|
      invariant j <= |c.subreqs|
      invariant fields == Map(c.subreqs[..j], SubreqField)
    {
      var subreq := c.subreqs[j];
      var value := Status(subreq.progress) + "\n";
      if !subreq.progress.Complete? {
        value := value + "Choose from: ";
        if |subreq.needed| > 20 {
          value := value + (Join(subreq.needed[..20], ", ") + " or more...");
        } else {
          value := value + Join(subreq.needed, ", ");
        }
        Append3(Status(subreq.progress) + "\n", "Choose from: ", NeededSummary(subreq.needed));
      } else {
        assert value == Status(subreq.progress) + "\n" + "";
      }
      assert value == CategoryValue(subreq);
      MapSnoc(c.subreqs, j, SubreqField);
      fields := fields + [Field(subreq.title, value)];
      j := j + 1;
    }
    assert c.subreqs[..j] == c.subreqs;
    return Page(c.name, fields);
  }

  /** One line of a major overview, without its newline (lines 131-138). */
  function OverviewLine(s: Subreq): string {
    "**" + s.title + "**: " + Status(s.progress)
  }

  /** The `value` accumulated over `subs`: each line followed by a newline. */
  function Accumulated(subs: seq<Subreq>): string
    decreases |subs|
  {
    if subs == [] then []
    else
      var s := subs[|subs| - 1];
      Accumulated(subs[..|subs| - 1]) + "**" + s.title + "**: " + Status(s.progress) + "\n"
  }

  lemma {:induction false} Regroup6(a: string, b: string, c: string, d: string, e: string, f: string)
    ensures a + b + c + d + e + f == a + (b + c + d + e) + f
  {
  }

  /** The accumulated text grows by one overview line and a newline per sub-requirement. */
  lemma {:induction false} AccumulatedLast(subs: seq<Subreq>)
    requires subs != []
    ensures Accumulated(subs) == Accumulated(subs[..|subs| - 1]) + OverviewLine(subs[|subs| - 1]) + "\n"
  {
    var s := subs[|subs| - 1];
    Regroup6(Accumulated(subs[..|subs| - 1]), "**", s.title, "**: ", Status(s.progress), "\n");
  }

  /** `s.rstrip('\n')`. */
  function RStripNewlines(s: string): (r: string)
    ensures r == [] || r[|r| - 1] != '\n'
    decreases |s|
  {
    if s != [] && s[|s| - 1] == '\n' then RStripNewlines(s[..|s| - 1]) else s
  }

  /** Line 140-143: the category's field in a major overview. */
  function CategorySummary(c: Category): Field {
    Field(c.name, RStripNewlines(Accumulated(c.subreqs)))
  }

  /** `major_overview`: one field per category, under the major's title. */
  function MajorOverview(m: Major): (p: Page)
    ensures p.title == m.title && |p.fields| == |m.categories|
    ensures forall k :: 0 <= k < |m.categories| ==> p.fields[k].name == m.categories[k].name
  {
    Page(m.title, Map(m.categories, CategorySummary))
  }

  lemma {:induction false} Append3(a: string, b: string, c: string)
    ensures a + b + c == a + (b + c)
  {
  }

  /** `major_overview`'s nested loops. */
  method MajorOverviewPage(m: Major) returns (p: Page)
    ensures p == MajorOverview(m)
  {
    var fields: seq<Field> := [];
    var n := 0;
    while n < |m.categories|
      invariant n <= |m.categories|
      invariant fields == Map(m.categories[..n], CategorySummary)
    {
      var category := m.categories[n];
      var value := "";
      var j := 0;
      while j < |category.subreqs|
        invariant j <= |category.subreqs|
        invariant value == Accumulated(category.subreqs[..j])
      {
        var subreq := category.subreqs[j];
        assert category.subreqs[..j + 1][..j] == category.subreqs[..j];
        value := value + "**" + subreq.title + "**: ";
        value := value + Status(subreq.progress) + "\n";
        j := j + 1;
      }
      assert category.subreqs[..j] == category.subreqs;
      MapSnoc(m.categories, n, CategorySummary);
      fields := fields + [Field(category.name, RStripNewlines(value))];
      n := n + 1;
    }
    assert m.categories[..n] == m.categories;
    return Page(m.title, fields);
  }

  /** The accumulated text is the lines joined by newlines, plus a final newline. */
  lemma {:induction false} AccumulatedLines(subs: seq<Subreq>)
    requires subs != []
    ensures Accumulated(subs) == Join(Map(subs, OverviewLine), "\n") + "\n"
    decreases |subs|
  {
    var init, last := subs[..|subs| - 1], subs[|subs| - 1];
    LinesSnoc(subs);
    if init != [] {
      AccumulatedLines(init);
      AccumulatedLinesStep(subs);
    } else {
      AccumulatedOneLine(subs);
    }
  }

  lemma {:induction false} LinesSnoc(subs: seq<Subreq>)
    requires subs != []
    ensures Map(subs, OverviewLine) == Map(subs[..|subs| - 1], OverviewLine) + [OverviewLine(subs[|subs| - 1])]
  {
    MapSnoc(subs, |subs| - 1, OverviewLine);
    assert subs[..|subs|] == subs;
  }

  lemma {:induction false} AccumulatedOneLine(subs: seq<Subreq>)
    requires |subs| == 1
    ensures Accumulated(subs) == Join(Map(subs, OverviewLine), "\n") + "\n"
  {
    var l := OverviewLine(subs[0]);
    AccumulatedLast(subs);
    assert Map(subs, OverviewLine) == [l];
    assert Accumulated(subs[..0]) == [];
    EmptyPrefix(l);
  }

  lemma {:induction false} AccumulatedLinesStep(subs: seq<Subreq>)
    requires |subs| > 1
    requires Accumulated(subs[..|subs| - 1]) == Join(Map(subs[..|subs| - 1], OverviewLine), "\n") + "\n"
    requires Map(subs, OverviewLine) == Map(subs[..|subs| - 1], OverviewLine) + [OverviewLine(subs[|subs| - 1])]
    ensures Accumulated(subs) == Join(Map(subs, OverviewLine), "\n") + "\n"
  {
    var init, l := Map(subs[..|subs| - 1], OverviewLine), OverviewLine(subs[|subs| - 1]);
    AccumulatedLast(subs);
    JoinSnoc(init, l, "\n");
  }

  lemma {:induction false} EmptyPrefix(l: string)
    ensures [] + l == l
  {
  }

  /** Every line of a major overview ends in its status mark, so the final `rstrip`
      removes exactly the last newline: the field is the lines joined by newlines. */
  lemma {:induction false} SummaryIsLines(subs: seq<Subreq>)
    ensures RStripNewlines(Accumulated(subs)) == Join(Map(subs, OverviewLine), "\n")
  {
    if subs != [] {
      AccumulatedLines(subs);
      var lines := Map(subs, OverviewLine);
      OverviewLineEnd(subs[|subs| - 1]);
      JoinLastChar(lines, "\n");
      RStripOne(Join(lines, "\n"));
    }
  }

  /** An overview line ends in its status mark, not in a newline. */
  lemma {:induction false} OverviewLineEnd(s: Subreq)
    ensures var l := OverviewLine(s); l != [] && l[|l| - 1] != '\n'
  {
    var st := Status(s.progress);
    assert OverviewLine(s)[|OverviewLine(s)| - 1] == st[|st| - 1];
  }

  /** A joined list ends as its last element does. */
  lemma {:induction false} JoinLastChar(xs: seq<string>, sep: string)
    requires |xs| >= 1 && xs[|xs| - 1] != []
    ensures var j, l := Join(xs, sep), xs[|xs| - 1]; j != [] && j[|j| - 1] == l[|l| - 1]
  {
    var l := xs[|xs| - 1];
    if |xs| > 1 {
      assert xs == xs[..|xs| - 1] + [l];
      JoinSnoc(xs[..|xs| - 1], l, sep);
    }
  }

  /** `rstrip('\n')` of a text without a final newline, plus one newline. */
  lemma {:induction false} RStripOne(j: string)
    requires j != [] && j[|j| - 1] != '\n'
    ensures RStripNewlines(j + "\n") == j
  {
    assert (j + "\n")[..|j|] == j;
  }

  /** The category pages of a major that is present, each built by `page`. */
  function CategoryPages(m: Option<Major>, page: Category -> Page): seq<Page> {
    if m.Some? then Map(m.value.categories, page) else []
  }

  /** Lines 178-186 with the two page builders as parameters: both overviews, then the
      major's categories, then the second major's. */
  function PagesOf(d: AuditData, overview: Major -> Page, page: Category -> Page): seq<Page> {
    (if d.major.Some? then [overview(d.major.value)] else [])
    + (if d.secondMajor.Some? then [overview(d.secondMajor.value)] else [])
    + CategoryPages(d.major, page) + CategoryPages(d.secondMajor, page)
  }

  /** The pages of `/me`. */
  function MePages(d: AuditData): seq<Page> {
    PagesOf(d, MajorOverview, CategoryOverview)
  }

  /** What `/me` shows: an error for an unregistered user, else the pages. */
  datatype MeReply = NotRegistered | MePaged(pages: seq<Page>)

  /** `me`, given what `get_json_data` returned (None when there is no row or its text is
      not JSON). Line 117 tests `not data`, so an empty stored object `{}` is answered as
      unregistered too. */
  function Me(data: Option<AuditData>): (r: MeReply)
    ensures r.NotRegistered? <==> data.None? || IsEmptyObject(data.value)
    ensures r.MePaged? ==> r.pages == PagesOf(data.value, MajorOverview, CategoryOverview)
  {
    if data.None? || IsEmptyObject(data.value) then NotRegistered else MePaged(MePages(data.value))
  }

  /** A stored object holding neither major is registered but shows no page; holding no
      key at all, it is not registered. */
  lemma {:induction false} MeWithoutMajors(others: nat)
    ensures Me(Some(AuditData(None, None, others))) == if others == 0 then NotRegistered else MePaged([])
  {
    assert CategoryPages(None, CategoryOverview) == [];
  }

  /** Number of pages a present major contributes: its overview and one per category. */
  function CategoryCount(m: Option<Major>): nat {
    if m.Some? then |m.value.categories| else 0
  }

  function OverviewCount(m: Option<Major>): nat {
    if m.Some? then 1 else 0
  }

  /** The page order of `/me`: one overview per present major, the major's first; then
      one page per category of the major, in order; then the second major's. */
  lemma {:induction false} MePageOrder(d: AuditData)
    ensures var pages, a := MePages(d), OverviewCount(d.major) + OverviewCount(d.secondMajor);
      && |pages| == a + CategoryCount(d.major) + CategoryCount(d.secondMajor)
      && (d.major.Some? ==> pages[0] == MajorOverview(d.major.value))
      && (d.secondMajor.Some? ==> pages[OverviewCount(d.major)] == MajorOverview(d.secondMajor.value))
      && (forall k :: 0 <= k < CategoryCount(d.major) ==>
            pages[a + k] == CategoryOverview(d.major.value.categories[k]))
      && (forall k :: 0 <= k < CategoryCount(d.secondMajor) ==>
            pages[a + CategoryCount(d.major) + k] == CategoryOverview(d.secondMajor.value.categories[k]))
  {
    PagesOfOrder(d, MajorOverview, CategoryOverview);
  }

  /** The overviews and the two category lists that `PagesOf` lays end to end. */
  function Overviews(d: AuditData, overview: Major -> Page): seq<Page> {
    (if d.major.Some? then [overview(d.major.value)] else [])
    + (if d.secondMajor.Some? then [overview(d.secondMajor.value)] else [])
  }

  lemma {:induction false} PagesOfParts(d: AuditData, overview: Major -> Page, page: Category -> Page)
    ensures PagesOf(d, overview, page)
      == Overviews(d, overview) + CategoryPages(d.major, page) + CategoryPages(d.secondMajor, page)
    ensures |Overviews(d, overview)| == OverviewCount(d.major) + OverviewCount(d.secondMajor)
    ensures |CategoryPages(d.major, page)| == CategoryCount(d.major)
    ensures |CategoryPages(d.secondMajor, page)| == CategoryCount(d.secondMajor)
  {
  }

  lemma {:induction false} PagesOfOrder(d: AuditData, overview: Major -> Page, page: Category -> Page)
    ensures var pages, a := PagesOf(d, overview, page), OverviewCount(d.major) + OverviewCount(d.secondMajor);
      && |pages| == a + CategoryCount(d.major) + CategoryCount(d.secondMajor)
      && (d.major.Some? ==> pages[0] == overview(d.major.value))
      && (d.secondMajor.Some? ==> pages[OverviewCount(d.major)] == overview(d.secondMajor.value))
      && (forall k :: 0 <= k < CategoryCount(d.major) ==> pages[a + k] == page(d.major.value.categories[k]))
      && (forall k :: 0 <= k < CategoryCount(d.secondMajor) ==>
            pages[a + CategoryCount(d.major) + k] == page(d.secondMajor.value.categories[k]))
  {
    PagesOfFront(d, overview, page);
    PagesOfMajor(d, overview, page);
    PagesOfSecond(d, overview, page);
  }

  lemma {:induction false} PagesOfFront(d: AuditData, overview: Major -> Page, page: Category -> Page)
    ensures |PagesOf(d, overview, page)|
      == OverviewCount(d.major) + OverviewCount(d.secondMajor) + CategoryCount(d.major) + CategoryCount(d.secondMajor)
    ensures d.major.Some? ==> PagesOf(d, overview, page)[0] == overview(d.major.value)
    ensures d.secondMajor.Some? ==> PagesOf(d, overview, page)[OverviewCount(d.major)] == overview(d.secondMajor.value)
  {
    var o, c1, c2 := Overviews(d, overview), CategoryPages(d.major, page), CategoryPages(d.secondMajor, page);
    PagesOfParts(d, overview, page);
    OverviewsFront(d, overview);
    PagesBefore(o, c1, c2);
  }

  lemma {:induction false} PagesOfMajor(d: AuditData, overview: Major -> Page, page: Category -> Page)
    ensures var a := OverviewCount(d.major) + OverviewCount(d.secondMajor);
      forall k :: 0 <= k < CategoryCount(d.major) ==>
        a + k < |PagesOf(d, overview, page)| && PagesOf(d, overview, page)[a + k] == page(d.major.value.categories[k])
  {
    var o, c1, c2 := Overviews(d, overview), CategoryPages(d.major, page), CategoryPages(d.secondMajor, page);
    PagesOfParts(d, overview, page);
    forall k | 0 <= k < CategoryCount(d.major)
      ensures (o + c1 + c2)[|o| + k] == page(d.major.value.categories[k])
    {
      CategoryPage(d.major, page, k);
      PageBetween(o, c1, c2, k);
    }
  }

  lemma {:induction false} PagesOfSecond(d: AuditData, overview: Major -> Page, page: Category -> Page)
    ensures var a := OverviewCount(d.major) + OverviewCount(d.secondMajor) + CategoryCount(d.major);
      forall k :: 0 <= k < CategoryCount(d.secondMajor) ==>
        a + k < |PagesOf(d, overview, page)| && PagesOf(d, overview, page)[a + k] == page(d.secondMajor.value.categories[k])
  {
    var o, c1, c2 := Overviews(d, overview), CategoryPages(d.major, page), CategoryPages(d.secondMajor, page);
    PagesOfParts(d, overview, page);
    forall k | 0 <= k < CategoryCount(d.secondMajor)
      ensures (o + c1 + c2)[|o + c1| + k] == page(d.secondMajor.value.categories[k])
    {
      CategoryPage(d.secondMajor, page, k);
      PageAfter(o + c1, c2, k);
    }
  }

  lemma {:induction false} CategoryPage(m: Option<Major>, page: Category -> Page, k: int)
    requires 0 <= k < CategoryCount(m)
    ensures m.Some? && k < |CategoryPages(m, page)| && CategoryPages(m, page)[k] == page(m.value.categories[k])
  {
  }

  lemma {:induction false} OverviewsFront(d: AuditData, overview: Major -> Page)
    ensures d.major.Some? ==> Overviews(d, overview)[0] == overview(d.major.value)
    ensures d.secondMajor.Some? ==> Overviews(d, overview)[OverviewCount(d.major)] == overview(d.secondMajor.value)
  {
  }

  /** A position in the middle of three lists of pages laid end to end. */
  lemma {:induction false} PageBetween(p: seq<Page>, q: seq<Page>, r: seq<Page>, k: int)
    requires 0 <= k < |q|
    ensures (p + q + r)[|p| + k] == q[k]
  {
  }

  /** A position in the second of two lists of pages laid end to end. */
  lemma {:induction false} PageAfter(p: seq<Page>, q: seq<Page>, k: int)
    requires 0 <= k < |q|
    ensures (p + q)[|p| + k] == q[k]
  {
  }

  /** Positions in the first of three lists of pages laid end to end. */
  lemma {:induction false} PagesBefore(p: seq<Page>, q: seq<Page>, r: seq<Page>)
    ensures forall k :: 0 <= k < |p| ==> (p + q + r)[k] == p[k]
  {
  }

  // ---------------------------------------------------------------- verification timers (lines 15-53)

  /** `timedelta(minutes=30)`, in seconds; instants are whole seconds. */
  const VerificationWindow: int := 30 * 60

  /** The `verification_timers` dict as a value: its keys in insertion order and the
      deadline of each key. */
  datatype Timers = Timers(order: seq<string>, deadlines: map<string, int>)

  /** The keys listed once each, and exactly the keys of the deadline map. */
  ghost predicate WellFormed(t: Timers) {
    Distinct(t.order) && forall u :: u in t.deadlines <==> u in t.order
  }

  /** Line 19: the user's deadline set to thirty minutes from now; a user already present
      keeps their place in the order, a new one goes last. */
  function Started(t: Timers, user: string, now: int): (r: Timers)
    requires WellFormed(t)
    ensures WellFormed(r)
    ensures user in r.deadlines && r.deadlines[user] == now + VerificationWindow
    ensures forall u :: u != user ==> (u in r.deadlines <==> u in t.deadlines)
    ensures forall u :: u != user && u in t.deadlines ==> r.deadlines[u] == t.deadlines[u]
    ensures |r.deadlines| == if user in t.deadlines then |t.deadlines| else |t.deadlines| + 1
  {
    var r := Timers(if user in t.deadlines then t.order else t.order + [user],
                    t.deadlines[user := now + VerificationWindow]);
    if user !in t.deadlines then
      assert t.deadlines.Keys + {user} == r.deadlines.Keys;
      r
    else
      assert t.deadlines.Keys == r.deadlines.Keys;
      r
  }

  /** The user is still waiting at this tick: not verified and not past the deadline. */
  predicate Waiting(t: Timers, now: int, verified: set<string>, u: string) {
    u in t.deadlines && u !in verified && now <= t.deadlines[u]
  }

  /** The user times out at this tick: not verified and past the deadline. */
  predicate TimedOut(t: Timers, now: int, verified: set<string>, u: string) {
    u in t.deadlines && u !in verified && now > t.deadlines[u]
  }

  function WaitingTest(t: Timers, now: int, verified: set<string>): string -> bool {
    u => Waiting(t, now, verified, u)
  }

  function TimedOutTest(t: Timers, now: int, verified: set<string>): string -> bool {
    u => TimedOut(t, now, verified, u)
  }

  /** The deadlines of the users still waiting. */
  function WaitingDeadlines(t: Timers, now: int, verified: set<string>): map<string, int> {
    map u | u in t.deadlines && Waiting(t, now, verified, u) :: t.deadlines[u]
  }

  /** The timers after one tick of `check_verification_status`: the waiting users only. */
  function TickedTimers(t: Timers, now: int, verified: set<string>): (r: Timers)
    requires WellFormed(t)
    ensures WellFormed(r)
  {
    TickedWellFormed(t, now, verified);
    Timers(Filter(t.order, WaitingTest(t, now, verified)), WaitingDeadlines(t, now, verified))
  }

  lemma {:induction false} TickedWellFormed(t: Timers, now: int, verified: set<string>)
    requires WellFormed(t)
    ensures WellFormed(Timers(Filter(t.order, WaitingTest(t, now, verified)), WaitingDeadlines(t, now, verified)))
  {
    FilterDistinct(t.order, WaitingTest(t, now, verified));
    forall u ensures u in Filter(t.order, WaitingTest(t, now, verified)) <==> u in WaitingDeadlines(t, now, verified) {
      FilterMembers(t.order, WaitingTest(t, now, verified), u);
    }
  }

  /** The users a tick deletes, in the dict's order. */
  function TimedOutUsers(t: Timers, now: int, verified: set<string>): seq<string> {
    Filter(t.order, TimedOutTest(t, now, verified))
  }

  /** One tick, user by user: a verified user is dropped and not deleted; an unverified
      user past the deadline is dropped and deleted; every other user keeps the same
      deadline and place. No user is deleted twice, and the kept users keep their order. */
  lemma {:induction false} TickOutcome(t: Timers, now: int, verified: set<string>, u: string)
    requires WellFormed(t)
    ensures var r, gone := TickedTimers(t, now, verified), TimedOutUsers(t, now, verified);
      && (u in t.deadlines && u in verified ==> u !in r.deadlines && u !in gone)
      && (u in t.deadlines && u !in verified && now > t.deadlines[u] ==> u !in r.deadlines && u in gone)
      && (u in t.deadlines && u !in verified && now <= t.deadlines[u] ==>
            u in r.deadlines && r.deadlines[u] == t.deadlines[u] && u !in gone)
      && (u !in t.deadlines ==> u !in r.deadlines && u !in gone)
      && Distinct(gone)
      && IsSubsequence(r.order, t.order)
  {
    FilterMembers(t.order, TimedOutTest(t, now, verified), u);
    FilterDistinct(t.order, TimedOutTest(t, now, verified));
    FilterIsSubsequence(t.order, WaitingTest(t, now, verified));
  }

  /** A link that is not verified is kept by every tick up to thirty minutes after it
      was made and deleted by the first tick after that. */
  lemma {:induction false} StartThenTick(t: Timers, user: string, start: int, now: int, verified: set<string>)
    requires WellFormed(t) && user !in verified
    ensures var s := Started(t, user, start);
      && (now <= start + VerificationWindow ==>
            user in TickedTimers(s, now, verified).deadlines && user !in TimedOutUsers(s, now, verified))
      && (now > start + VerificationWindow ==>
            user !in TickedTimers(s, now, verified).deadlines && user in TimedOutUsers(s, now, verified))
  {
    TickOutcome(Started(t, user, start), now, verified, user);
  }

  /** The key order after `pop(u)`: `xs` without `u`. */
  function Remove(xs: seq<string>, u: string): (r: seq<string>)
    ensures u !in r
    ensures forall v :: v != u ==> (v in r <==> v in xs)
  {
    if xs == [] then [] else (if xs[0] == u then [] else [xs[0]]) + Remove(xs[1..], u)
  }

  lemma {:induction false} RemoveAbsent(xs: seq<string>, u: string)
    requires u !in xs
    ensures Remove(xs, u) == xs
  {
    if xs != [] {
      RemoveAbsent(xs[1..], u);
      assert xs == [xs[0]] + xs[1..];
    }
  }

  lemma {:induction false} RemoveAppend(a: seq<string>, b: seq<string>, u: string)
    ensures Remove(a + b, u) == Remove(a, u) + Remove(b, u)
  {
    if a == [] {
      assert a + b == b;
    } else {
      assert (a + b)[1..] == a[1..] + b;
      RemoveAppend(a[1..], b, u);
    }
  }

  /** What the loop of `check_verification_status` has done after visiting the first `i`
      users of the snapshot `t0.order`: the dict `s` and the deleted users. */
  ghost predicate TickedUpTo(t0: Timers, now: int, verified: set<string>, i: nat, s: Timers, deleted: seq<string>) {
    && i <= |t0.order|
    && s.order == Filter(t0.order[..i], WaitingTest(t0, now, verified)) + t0.order[i..]
    && (forall u :: u in s.deadlines <==> u in t0.deadlines && (u in t0.order[i..] || Waiting(t0, now, verified, u)))
    && (forall u :: u in s.deadlines ==> s.deadlines[u] == t0.deadlines[u])
    && deleted == Filter(t0.order[..i], TimedOutTest(t0, now, verified))
  }

  lemma {:induction false} TickedUpToStart(t0: Timers, now: int, verified: set<string>)
    requires WellFormed(t0)
    ensures TickedUpTo(t0, now, verified, 0, t0, [])
  {
    assert t0.order[..0] == [];
    assert t0.order[0..] == t0.order;
  }

  lemma {:induction false} TickedUpToEnd(t0: Timers, now: int, verified: set<string>, s: Timers, deleted: seq<string>)
    requires WellFormed(t0) && TickedUpTo(t0, now, verified, |t0.order|, s, deleted)
    ensures s == TickedTimers(t0, now, verified)
    ensures deleted == TimedOutUsers(t0, now, verified)
  {
    assert t0.order[..|t0.order|] == t0.order;
    assert t0.order[|t0.order|..] == [];
    assert s.deadlines == WaitingDeadlines(t0, now, verified);
  }

  /** The `i`-th user of a list without repetitions is not in the rest. */
  lemma {:induction false} DistinctSplit(items: seq<string>, i: nat)
    requires i < |items| && Distinct(items)
    ensures items[i] !in items[..i] && items[i] !in items[i + 1..]
    ensures items[i..] == [items[i]] + items[i + 1..]
  {
    var u := items[i];
    forall k | 0 <= k < i ensures items[..i][k] != u {
      assert items[..i][k] == items[k];
    }
    var rest := items[i + 1..];
    forall k | 0 <= k < |rest| ensures rest[k] != u {
      assert rest[k] == items[i + 1 + k];
    }
  }

  /** Removing the first element of a list where it does not recur. */
  lemma {:induction false} RemoveFirst(rest: seq<string>, u: string)
    requires u !in rest
    ensures Remove([u] + rest, u) == rest
  {
    assert ([u] + rest)[1..] == rest;
    RemoveAbsent(rest, u);
  }

  /** Dropping the current key from the order: the kept prefix and the unvisited rest. */
  lemma {:induction false} DroppedFromOrder(items: seq<string>, i: nat, kept: seq<string>)
    requires i < |items| && items[i] !in kept && items[i] !in items[i + 1..]
    ensures Remove(kept + items[i..], items[i]) == kept + items[i + 1..]
  {
    var u := items[i];
    assert items[i..] == [u] + items[i + 1..];
    RemoveAppend(kept, items[i..], u);
    RemoveAbsent(kept, u);
    RemoveFirst(items[i + 1..], u);
  }

  /** The user visited at step `i`: in the dict, and nowhere else in the snapshot. */
  ghost predicate VisitFacts(t0: Timers, i: nat) {
    var items := t0.order;
    && i < |items| && items[i] in t0.deadlines
    && items[i] !in items[..i] && items[i] !in items[i + 1..]
    && items[i..] == [items[i]] + items[i + 1..]
    && items[..i + 1] == items[..i] + [items[i]]
  }

  lemma {:induction false} Visited(t0: Timers, i: nat)
    requires WellFormed(t0) && i < |t0.order|
    ensures VisitFacts(t0, i)
  {
    DistinctSplit(t0.order, i);
    assert t0.order[..i + 1] == t0.order[..i] + [t0.order[i]];
  }

  /** Which users the loop still holds after a visit, whether or not it dropped the
      visited one. */
  lemma {:induction false} VisitedDeadlines(t0: Timers, now: int, verified: set<string>, i: nat, s: Timers, keys: set<string>)
    requires VisitFacts(t0, i)
    requires forall v :: v in s.deadlines <==> v in t0.deadlines && (v in t0.order[i..] || Waiting(t0, now, verified, v))
    requires keys == if Waiting(t0, now, verified, t0.order[i]) then s.deadlines.Keys else s.deadlines.Keys - {t0.order[i]}
    ensures forall v :: v in keys <==> v in t0.deadlines && (v in t0.order[i + 1..] || Waiting(t0, now, verified, v))
  {
    var u := t0.order[i];
    forall v ensures v in t0.order[i..] <==> v == u || v in t0.order[i + 1..] {
    }
  }

  /** One visit of the loop, in the three cases the source distinguishes: a verified user
      is popped; an unverified user past the deadline is deleted and popped; any other
      user stays. Each gives the state after `i + 1` visits. */
  lemma {:induction false} TickedUpToStep(t0: Timers, now: int, verified: set<string>, i: nat, s: Timers, deleted: seq<string>)
    requires WellFormed(t0) && TickedUpTo(t0, now, verified, i, s, deleted) && i < |t0.order|
    ensures var u := t0.order[i];
      && u in s.deadlines && s.deadlines[u] == t0.deadlines[u]
      && (u in verified ==>
            TickedUpTo(t0, now, verified, i + 1, Timers(Remove(s.order, u), s.deadlines - {u}), deleted))
      && (u !in verified && now > s.deadlines[u] ==>
            TickedUpTo(t0, now, verified, i + 1, Timers(Remove(s.order, u), s.deadlines - {u}), deleted + [u]))
      && (u !in verified && now <= s.deadlines[u] ==> TickedUpTo(t0, now, verified, i + 1, s, deleted))
  {
    var u := t0.order[i];
    Visited(t0, i);
    assert u in t0.order[i..];
    if Waiting(t0, now, verified, u) {
      KeptStep(t0, now, verified, i, s, deleted);
    } else {
      DroppedStep(t0, now, verified, i, s, deleted);
    }
  }

  lemma {:induction false} KeptStep(t0: Timers, now: int, verified: set<string>, i: nat, s: Timers, deleted: seq<string>)
    requires VisitFacts(t0, i) && TickedUpTo(t0, now, verified, i, s, deleted)
    requires Waiting(t0, now, verified, t0.order[i])
    ensures TickedUpTo(t0, now, verified, i + 1, s, deleted)
  {
    var items, u := t0.order, t0.order[i];
    FilterSnoc(items[..i], u, WaitingTest(t0, now, verified));
    FilterSnoc(items[..i], u, TimedOutTest(t0, now, verified));
    VisitedDeadlines(t0, now, verified, i, s, s.deadlines.Keys);
  }

  lemma {:induction false} DroppedStep(t0: Timers, now: int, verified: set<string>, i: nat, s: Timers, deleted: seq<string>)
    requires VisitFacts(t0, i) && TickedUpTo(t0, now, verified, i, s, deleted)
    requires !Waiting(t0, now, verified, t0.order[i])
    ensures TickedUpTo(t0, now, verified, i + 1, Timers(Remove(s.order, t0.order[i]), s.deadlines - {t0.order[i]}),
                       deleted + if TimedOut(t0, now, verified, t0.order[i]) then [t0.order[i]] else [])
  {
    var u := t0.order[i];
    var d := s.deadlines - {u};
    DroppedOrder(t0, now, verified, i, s.order);
    DroppedDeleted(t0, now, verified, i, deleted);
    assert d.Keys == s.deadlines.Keys - {u};
    VisitedDeadlines(t0, now, verified, i, s, d.Keys);
    assert forall v :: v in d ==> d[v] == t0.deadlines[v];
  }

  lemma {:induction false} DroppedOrder(t0: Timers, now: int, verified: set<string>, i: nat, order: seq<string>)
    requires VisitFacts(t0, i) && !Waiting(t0, now, verified, t0.order[i])
    requires order == Filter(t0.order[..i], WaitingTest(t0, now, verified)) + t0.order[i..]
    ensures Remove(order, t0.order[i]) == Filter(t0.order[..i + 1], WaitingTest(t0, now, verified)) + t0.order[i + 1..]
  {
    var items, u, wait := t0.order, t0.order[i], WaitingTest(t0, now, verified);
    FilterSnoc(items[..i], u, wait);
    FilterMembers(items[..i], wait, u);
    DroppedFromOrder(items, i, Filter(items[..i], wait));
  }

  lemma {:induction false} DroppedDeleted(t0: Timers, now: int, verified: set<string>, i: nat, deleted: seq<string>)
    requires VisitFacts(t0, i)
    requires deleted == Filter(t0.order[..i], TimedOutTest(t0, now, verified))
    ensures deleted + (if TimedOut(t0, now, verified, t0.order[i]) then [t0.order[i]] else [])
      == Filter(t0.order[..i + 1], TimedOutTest(t0, now, verified))
  {
    FilterSnoc(t0.order[..i], t0.order[i], TimedOutTest(t0, now, verified));
  }

  /** The order is empty exactly when the dict is, and a tick leaves an empty dict as
      it is and deletes nobody. */
  lemma {:induction false} EmptyTimers(t: Timers, now: int, verified: set<string>)
    requires WellFormed(t)
    ensures t.order == [] <==> t.deadlines == map[]
    ensures t.order == [] ==> TickedTimers(t, now, verified) == t && TimedOutUsers(t, now, verified) == []
  {
    if t.order != [] {
      assert t.order[0] in t.deadlines;
    } else {
      assert WaitingDeadlines(t, now, verified) == map[];
    }
  }

  /** Adding a key gives a single key exactly when no other key was there. */
  lemma {:induction false} SingleKey(keys: set<string>, u: string)
    ensures |keys + {u}| == 1 <==> keys <= {u}
  {
    if keys <= {u} {
      assert keys + {u} == {u};
    } else {
      var v :| v in keys && v != u;
      var rest := keys - {u};
      assert v in rest;
      assert keys + {u} == rest + {u};
      assert |rest + {u}| == |rest| + 1;
    }
  }

  /** The module-level `verification_timers` dict. */
  class VerificationTimers {
    var order: seq<string>
    var deadlines: map<string, int>

    function State(): Timers
      reads this
    {
      Timers(order, deadlines)
    }

    ghost predicate Valid()
      reads this
    {
      WellFormed(State())
    }

    /** Line 15: the empty dict. */
    constructor ()
      ensures Valid() && State() == Timers([], map[])
    {
      order := [];
      deadlines := map[];
    }

    /** `start_verification_timer`; the result says whether the dict then holds one
        entry, which is when the source starts the loop: when no other user was
        waiting (the user may already have been there). */
    method Start(user: string, now: int) returns (startLoop: bool)
      requires Valid()
      modifies this
      ensures Valid() && State() == Started(old(State()), user, now)
      ensures startLoop <==> old(deadlines).Keys <= {user}
    {
      if user !in deadlines {
        order := order + [user];
      }
      SingleKey(deadlines.Keys, user);
      deadlines := deadlines[user := now + VerificationWindow];
      assert deadlines.Keys == old(deadlines).Keys + {user};
      startLoop := |deadlines| == 1;
    }

    /** `link` after its database write: a PID that fails the check changes nothing;
        otherwise the timer starts when the write succeeded (`linked`). */
    method Link(user: string, pid: string, now: int, linked: bool) returns (accepted: bool, startLoop: bool)
      requires Valid()
      modifies this
      ensures Valid()
      ensures accepted == PidAccepted(pid)
      ensures State() == if accepted && linked then Started(old(State()), user, now) else old(State())
      ensures startLoop <==> accepted && linked && old(deadlines).Keys <= {user}
    {
      var cleaned := Strip(Upper(pid));
      accepted := |cleaned| == 9 && StartsWith(cleaned, "A") && AllDigits(cleaned[1..]);
      startLoop := false;
      if accepted && linked {
        startLoop := Start(user, now);
      }
    }

    /** `verification_timers.pop(u, None)`. */
    method Pop(u: string)
      modifies this
      ensures deadlines == old(deadlines) - {u}
      ensures order == Remove(old(order), u)
    {
      deadlines := deadlines - {u};
      order := Remove(order, u);
    }

    /** The body of the loop of `check_verification_status` for the `i`-th user of the
        snapshot `t0`: pop a verified user; delete and pop an unverified user past the
        deadline; leave any other user. */
    method Visit(ghost t0: Timers, now: int, verified: set<string>, ghost i: nat, u: string, deleted: seq<string>)
      returns (deleted': seq<string>)
      requires WellFormed(t0) && i < |t0.order| && u == t0.order[i]
      requires TickedUpTo(t0, now, verified, i, State(), deleted)
      modifies this
      ensures TickedUpTo(t0, now, verified, i + 1, State(), deleted')
    {
      ghost var s := State();
      TickedUpToStep(t0, now, verified, i, s, deleted);
      deleted' := deleted;
      if u in verified {
        Pop(u);
      } else if now > deadlines[u] {
        deleted' := deleted + [u];
        Pop(u);
      }
    }

    /** One run of `check_verification_status` at time `now`, with `verified` the users
        the database reports verified. It stops the loop when the dict is empty, and
        otherwise returns the users it deleted, in order. */
    method Tick(now: int, verified: set<string>) returns (stop: bool, deleted: seq<string>)
      requires Valid()
      modifies this
      ensures Valid()
      ensures stop <==> old(order) == []
      ensures State() == TickedTimers(old(State()), now, verified)
      ensures deleted == TimedOutUsers(old(State()), now, verified)
    {
      ghost var t0 := State();
      deleted := [];
      EmptyTimers(t0, now, verified);
      if deadlines == map[] {
        return true, [];
      }
      stop := false;
      var items := order;
      var i := 0;
      TickedUpToStart(t0, now, verified);
      while i < |items|
        invariant items == t0.order && i <= |items|
        invariant TickedUpTo(t0, now, verified, i, State(), deleted)
      {
        deleted := Visit(t0, now, verified, i, items[i], deleted);
        i := i + 1;
      }
      TickedUpToEnd(t0, now, verified, State(), deleted);
    }
  }
}
