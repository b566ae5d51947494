/**
 * The division filters `SEARCH_FILTERS` (src/const.py:41-47).
 *
 * Each of the five entries is a regular expression applied with Python's
 * `re.match`, which anchors a match at the start of the code only. Each
 * pattern is stated twice here: once as what the regular expression accepts
 * (a choice of how many characters each part consumes, as a backtracking
 * matcher would try them: the `...Regex` ghost predicates) and once as a
 * deterministic scan over maximal runs of characters (the predicates the
 * search uses). Lemmas prove the two agree, and then prove the classifier's
 * promised properties on the scan.
 */
module Divisions {
  import opened Wrappers
  import opened Text

  /** The five labels of the table, as a closed type. */
  datatype Division = LowerDivision | UpperDivision | Graduate | Undergraduate | AllCourses

  /** The dictionary key of each division. */
  function Label(d: Division): string {
    match d
    case LowerDivision => "Lower Division"
    case UpperDivision => "Upper Division"
    case Graduate => "Graduate"
    case Undergraduate => "Undergraduate"
    case AllCourses => "All Courses"
  }

  /** `SEARCH_FILTERS[key]`: the division a key names; None where Python raises KeyError. */
  function FromLabel(key: string): (d: Option<Division>)
    ensures d.Some? ==> Label(d.value) == key
    ensures forall e :: Label(e) == key ==> d == Some(e)
  {
    if key == "Lower Division" then Some(LowerDivision)
    else if key == "Upper Division" then Some(UpperDivision)
    else if key == "Graduate" then Some(Graduate)
    else if key == "Undergraduate" then Some(Undergraduate)
    else if key == "All Courses" then Some(AllCourses)
    else None
  }

  // ---------------------------------------------------------------- character runs

  /** The character classes the patterns use: `[A-Z]`, `[0-9]` and `[A-Za-z]`. */
  datatype CharClass = Capital | Numeral | Alpha

  predicate InClass(cls: CharClass, c: char) {
    match cls
    case Capital => IsUpper(c)
    case Numeral => IsDigit(c)
    case Alpha => IsLetter(c)
  }

  /** Every character of `s[i..j]` is in `cls`. */
  predicate AllIn(cls: CharClass, s: string, i: nat, j: nat)
    requires i <= j <= |s|
  {
    forall k | i <= k < j :: InClass(cls, s[k])
  }

  /** Where the run of `cls` characters starting at `i` ends. */
  function RunEnd(cls: CharClass, s: string, i: nat): (j: nat)
    requires i <= |s|
    ensures i <= j <= |s|
    ensures AllIn(cls, s, i, j)
    ensures j < |s| ==> !InClass(cls, s[j])
    decreases |s| - i
  {
    if i == |s| || !InClass(cls, s[i]) then i else RunEnd(cls, s, i + 1)
  }

  /** A run is as long as any stretch of its class that starts where it starts. */
  lemma {:induction false} RunEndCovers(cls: CharClass, s: string, i: nat, j: nat)
    requires i <= j <= |s| && AllIn(cls, s, i, j)
    ensures j <= RunEnd(cls, s, i)
    ensures j < |s| && !InClass(cls, s[j]) ==> RunEnd(cls, s, i) == j
    ensures j == |s| ==> RunEnd(cls, s, i) == j
  {
  }

  // ---------------------------------------------------------------- the scanner

  /** Length of the run of capital letters that opens `code`. */
  function DeptLength(code: string): nat {
    RunEnd(Capital, code, 0)
  }

  /** `[A-Z]{2,4} ` matches the start of `code`. */
  predicate HasDeptPrefix(code: string) {
    var n := DeptLength(code);
    2 <= n <= 4 && n < |code| && code[n] == ' '
  }

  /** Where the course number starts: just after the space. */
  function NumberStart(code: string): (p: nat)
    requires HasDeptPrefix(code)
    ensures p <= |code|
  {
    DeptLength(code) + 1
  }

  /** Where the run of digits of the course number ends. */
  function NumberEnd(code: string): (d: nat)
    requires HasDeptPrefix(code)
    ensures NumberStart(code) <= d <= |code|
  {
    RunEnd(Numeral, code, NumberStart(code))
  }

  /** `[A-Za-z]*\b` matches from `d` on: the letters after position `d` are followed by the
      end of the code or by a character that is not a word character. */
  predicate SuffixEndsWord(code: string, d: nat)
    requires d <= |code|
  {
    var r := RunEnd(Alpha, code, d);
    r == |code| || !IsWordChar(code[r])
  }

  /** `[A-Z]{2,4} ([0-9]{1,2}[A-Za-z]*)\b` (src/const.py:42). */
  predicate IsLowerDivision(code: string)
    ensures IsLowerDivision(code) ==> !IsUpperDivision(code) && !IsGraduate(code)
  {
    HasDeptPrefix(code) &&
    var p, d := NumberStart(code), NumberEnd(code);
    1 <= d - p <= 2 && SuffixEndsWord(code, d)
  }

  /** `[A-Z]{2,4} (1[0-9]{2}[A-Za-z]*)\b` (src/const.py:43). */
  predicate IsUpperDivision(code: string)
    ensures IsUpperDivision(code) ==> !IsGraduate(code)
  {
    HasDeptPrefix(code) &&
    var p, d := NumberStart(code), NumberEnd(code);
    d - p == 3 && code[p] == '1' && SuffixEndsWord(code, d)
  }

  /** `[A-Z]{2,4} ([2-9][0-9]{2,}[A-Za-z]*)\b` (src/const.py:44). */
  predicate IsGraduate(code: string) {
    HasDeptPrefix(code) &&
    var p, d := NumberStart(code), NumberEnd(code);
    d - p >= 3 && '2' <= code[p] <= '9' && SuffixEndsWord(code, d)
  }

  /** `([A-Z]{2,4} ([0-9]{1,2}[A-Za-z]*)\b)|([A-Z]{2,4} (1[0-9]{2}[A-Za-z]*)\b)`
      (src/const.py:45), scanned once. */
  predicate IsUndergraduate(code: string)
    ensures IsUndergraduate(code) <==> IsLowerDivision(code) || IsUpperDivision(code)
  {
    HasDeptPrefix(code) &&
    var p, d := NumberStart(code), NumberEnd(code);
    (1 <= d - p <= 2 || (d - p == 3 && code[p] == '1')) && SuffixEndsWord(code, d)
  }

  /** `SEARCH_FILTERS[Label(d)].match(code)` is truthy. `.*` (src/const.py:46) matches the
      empty prefix of every string. */
  predicate Matches(d: Division, code: string)
    ensures d == AllCourses ==> Matches(d, code)
    ensures Matches(d, code) && d != AllCourses ==> HasDeptPrefix(code)
  {
    match d
    case LowerDivision => IsLowerDivision(code)
    case UpperDivision => IsUpperDivision(code)
    case Graduate => IsGraduate(code)
    case Undergraduate => IsUndergraduate(code)
    case AllCourses => true
  }

  // ---------------------------------------------------------------- the patterns as regular expressions

  /** `\b` at position `r`, with ASCII word characters. */
  ghost predicate Boundary(s: string, r: nat)
    requires r <= |s|
  {
    (0 < r && IsWordChar(s[r - 1])) != (r < |s| && IsWordChar(s[r]))
  }

  /** `[A-Z]{2,4} ` matches `s[..p]`. */
  ghost predicate DeptThen(s: string, p: nat) {
    3 <= p <= 5 && p <= |s| && AllIn(Capital, s, 0, p - 1) && s[p - 1] == ' '
  }

  /** `[A-Za-z]*\b` matches `s[q..r]` for some `r`. */
  ghost predicate LettersToBoundary(s: string, q: nat)
    requires q <= |s|
  {
    exists r | q <= r <= |s| :: AllIn(Alpha, s, q, r) && Boundary(s, r)
  }

  /** Some way of matching `[A-Z]{2,4} ([0-9]{1,2}[A-Za-z]*)\b` at the start of `s`. */
  ghost predicate LowerRegex(s: string) {
    exists p, q | 0 <= p < q <= |s| && q <= p + 2 ::
      DeptThen(s, p) && AllIn(Numeral, s, p, q) && LettersToBoundary(s, q)
  }

  /** Some way of matching `[A-Z]{2,4} (1[0-9]{2}[A-Za-z]*)\b` at the start of `s`. */
  ghost predicate UpperRegex(s: string) {
    exists p | 0 <= p && p + 3 <= |s| ::
      DeptThen(s, p) && s[p] == '1' && AllIn(Numeral, s, p, p + 3) && LettersToBoundary(s, p + 3)
  }

  /** Some way of matching `[A-Z]{2,4} ([2-9][0-9]{2,}[A-Za-z]*)\b` at the start of `s`. */
  ghost predicate GraduateRegex(s: string) {
    exists p, q | 0 <= p && p + 3 <= q <= |s| ::
      DeptThen(s, p) && '2' <= s[p] <= '9' && AllIn(Numeral, s, p, q) && LettersToBoundary(s, q)
  }

  /** The alternation matches when either alternative does. */
  ghost predicate UndergraduateRegex(s: string) {
    LowerRegex(s) || UpperRegex(s)
  }

  /** The department part of a match is unique: it is the scanner's. */
  lemma {:induction false} DeptThenUnique(s: string, p: nat)
    requires DeptThen(s, p)
    ensures HasDeptPrefix(s) && NumberStart(s) == p
  {
    RunEndCovers(Capital, s, 0, p - 1);
  }

  /** `[A-Za-z]*\b` from a position that follows a word character matches exactly when the
      scanner's suffix test passes. */
  lemma {:induction false} LettersToBoundaryIff(s: string, q: nat)
    requires 0 < q <= |s| && IsWordChar(s[q - 1])
    ensures LettersToBoundary(s, q) <==> SuffixEndsWord(s, q)
  {
    var e := RunEnd(Alpha, s, q);
    if SuffixEndsWord(s, q) {
      assert e > q ==> InClass(Alpha, s[e - 1]);
      assert Boundary(s, e);
    }
    if LettersToBoundary(s, q) {
      var r :| q <= r <= |s| && AllIn(Alpha, s, q, r) && Boundary(s, r);
      RunEndCovers(Alpha, s, q, r);
      assert r > q ==> InClass(Alpha, s[r - 1]);
      if r < e {
        assert InClass(Alpha, s[r]);
        assert IsWordChar(s[r]);
      }
      assert r == e;
    }
  }

  /** After a course number's digits, `[A-Za-z]*\b` cannot match while a digit follows. */
  lemma {:induction false} NoBoundaryBeforeDigit(s: string, q: nat)
    requires 0 < q < |s| && IsWordChar(s[q - 1]) && IsDigit(s[q])
    ensures !LettersToBoundary(s, q)
  {
    LettersToBoundaryIff(s, q);
    assert RunEnd(Alpha, s, q) == q;
  }

  /** The scanner for Lower Division accepts exactly what the regular expression matches. */
  lemma {:induction false} LowerDivisionIsRegex(s: string)
    ensures IsLowerDivision(s) <==> LowerRegex(s)
  {
    if IsLowerDivision(s) {
      var p, d := NumberStart(s), NumberEnd(s);
      assert DeptThen(s, p);
      LettersToBoundaryIff(s, d);
      assert AllIn(Numeral, s, p, d);
    }
    if LowerRegex(s) {
      var p, q :| 0 <= p < q <= |s| && q <= p + 2 &&
        DeptThen(s, p) && AllIn(Numeral, s, p, q) && LettersToBoundary(s, q);
      DeptThenUnique(s, p);
      RunEndCovers(Numeral, s, p, q);
      if q < NumberEnd(s) {
        NoBoundaryBeforeDigit(s, q);
      }
      LettersToBoundaryIff(s, q);
    }
  }

  /** The scanner for Upper Division accepts exactly what the regular expression matches. */
  lemma {:induction false} UpperDivisionIsRegex(s: string)
    ensures IsUpperDivision(s) <==> UpperRegex(s)
  {
    if IsUpperDivision(s) {
      var p, d := NumberStart(s), NumberEnd(s);
      assert DeptThen(s, p);
      LettersToBoundaryIff(s, d);
      assert AllIn(Numeral, s, p, p + 3);
    }
    if UpperRegex(s) {
      var p :| 0 <= p && p + 3 <= |s| &&
        DeptThen(s, p) && s[p] == '1' && AllIn(Numeral, s, p, p + 3) && LettersToBoundary(s, p + 3);
      DeptThenUnique(s, p);
      RunEndCovers(Numeral, s, p, p + 3);
      if p + 3 < NumberEnd(s) {
        NoBoundaryBeforeDigit(s, p + 3);
      }
      LettersToBoundaryIff(s, p + 3);
    }
  }

  /** The scanner for Graduate accepts exactly what the regular expression matches. */
  lemma {:induction false} GraduateIsRegex(s: string)
    ensures IsGraduate(s) <==> GraduateRegex(s)
  {
    if IsGraduate(s) {
      var p, d := NumberStart(s), NumberEnd(s);
      assert DeptThen(s, p);
      LettersToBoundaryIff(s, d);
    }
    if GraduateRegex(s) {
      var p, q :| 0 <= p && p + 3 <= q <= |s| &&
        DeptThen(s, p) && '2' <= s[p] <= '9' && AllIn(Numeral, s, p, q) && LettersToBoundary(s, q);
      DeptThenUnique(s, p);
      RunEndCovers(Numeral, s, p, q);
      if q < NumberEnd(s) {
        NoBoundaryBeforeDigit(s, q);
      }
      LettersToBoundaryIff(s, q);
    }
  }

  /** The one-pass Undergraduate scanner accepts exactly what the alternation matches. */
  lemma {:induction false} UndergraduateIsRegex(s: string)
    ensures IsUndergraduate(s) <==> UndergraduateRegex(s)
  {
    LowerDivisionIsRegex(s);
    UpperDivisionIsRegex(s);
  }

  // ---------------------------------------------------------------- properties of the table

  /** The division of each key is the division the key names, and no other key names one. */
  lemma {:induction false} LabelRoundTrip(d: Division, key: string)
    ensures FromLabel(Label(d)) == Some(d)
    ensures FromLabel(key).Some? <==> key in {"Lower Division", "Upper Division", "Graduate", "Undergraduate", "All Courses"}
  {
  }

  /** Undergraduate matches a code exactly when Lower Division or Upper Division does. */
  lemma {:induction false} UndergraduateIsUnion(code: string)
    ensures Matches(Undergraduate, code) <==> Matches(LowerDivision, code) || Matches(UpperDivision, code)
  {
  }

  /** All Courses keeps every code. */
  lemma {:induction false} AllCoursesMatchesEverything(code: string)
    ensures Matches(AllCourses, code)
  {
  }

  /** Lower Division, Upper Division and Graduate never match the same code. */
  lemma {:induction false} DivisionsDisjoint(code: string)
    ensures !(IsLowerDivision(code) && IsUpperDivision(code))
    ensures !(IsLowerDivision(code) && IsGraduate(code))
    ensures !(IsUpperDivision(code) && IsGraduate(code))
  {
  }

  /** A four-or-more digit number starting with 1 (such as "CSE 1000") falls in no division
      but All Courses. */
  lemma {:induction false} ThousandsOnlyInAllCourses(code: string)
    requires HasDeptPrefix(code)
    requires NumberEnd(code) - NumberStart(code) >= 4 && code[NumberStart(code)] == '1'
    ensures forall d :: Matches(d, code) <==> d == AllCourses
  {
  }

  /** A department of five or more capitals falls in no division but All Courses. */
  lemma {:induction false} LongDepartmentOnlyInAllCourses(code: string)
    requires |code| >= 5 && AllIn(Capital, code, 0, 5)
    ensures forall d :: Matches(d, code) <==> d == AllCourses
  {
    RunEndCovers(Capital, code, 0, 5);
  }

  /** A code that does not open with a capital letter (a lower-case department, say) falls in
      no division but All Courses. */
  lemma {:induction false} LowerCaseDepartmentOnlyInAllCourses(code: string)
    requires code == [] || !IsUpper(code[0])
    ensures forall d :: Matches(d, code) <==> d == AllCourses
  {
  }

  /** A letter run or digit run that stops inside `s` stops there in `s + t` too, and one that
      reaches the end of `s` stops there when `t` starts with a non-word character. */
  lemma {:induction false} RunEndExtends(cls: CharClass, s: string, t: string, i: nat)
    requires i <= |s|
    requires t == [] || !IsWordChar(t[0])
    ensures RunEnd(cls, s + t, i) == RunEnd(cls, s, i)
  {
    var e := RunEnd(cls, s, i);
    assert AllIn(cls, s + t, i, e) by {
      forall k | i <= k < e ensures InClass(cls, (s + t)[k]) {
        assert (s + t)[k] == s[k];
      }
    }
    if e < |s| {
      assert (s + t)[e] == s[e];
    } else if t != [] {
      assert (s + t)[e] == t[0];
    }
    RunEndCovers(cls, s + t, i, e);
  }

  /** Matching is anchored at the start only: text after a word boundary does not stop a
      match, so "CSE 10 X" is Lower Division. */
  lemma {:induction false} TrailingTextStillMatches(d: Division, code: string, t: string)
    requires Matches(d, code)
    requires t == [] || !IsWordChar(t[0])
    ensures Matches(d, code + t)
  {
    if d != AllCourses {
      var s := code + t;
      RunEndExtends(Capital, code, t, 0);
      assert s[DeptLength(code)] == code[DeptLength(code)];
      var p := NumberStart(code);
      RunEndExtends(Numeral, code, t, p);
      var dd := NumberEnd(code);
      RunEndExtends(Alpha, code, t, dd);
      var r := RunEnd(Alpha, code, dd);
      if r < |code| {
        assert s[r] == code[r];
      } else if t != [] {
        assert s[r] == t[0];
      }
      if p < |code| {
        assert s[p] == code[p];
      }
    }
  }

  /** Upper Division takes "CSE 100" and "MATH 103B" and not "CSE 8", "CSE 200" or "MATH 20A". */
  lemma {:induction false} UpperDivisionExamples()
    ensures Matches(UpperDivision, "CSE 100") && Matches(UpperDivision, "MATH 103B")
    ensures !Matches(UpperDivision, "CSE 8") && !Matches(UpperDivision, "CSE 200")
    ensures !Matches(UpperDivision, "MATH 20A")
  {
    ScanExample("MATH 20A", 4, 7, 8);
    ScanExample("CSE 100", 3, 7, 7);
    ScanExample("MATH 103B", 4, 8, 9);
    ScanExample("CSE 8", 3, 5, 5);
    ScanExample("CSE 200", 3, 7, 7);
  }

  /** Lower Division takes "CSE 8", "MATH 20A" and "CSE 10 X" and not "CSE 100". */
  lemma {:induction false} LowerDivisionExamples()
    ensures Matches(LowerDivision, "CSE 8") && Matches(LowerDivision, "MATH 20A")
    ensures Matches(LowerDivision, "CSE 10 X") && !Matches(LowerDivision, "CSE 100")
  {
    ScanExample("CSE 8", 3, 5, 5);
    ScanExample("MATH 20A", 4, 7, 8);
    ScanExample("CSE 10 X", 3, 6, 6);
    ScanExample("CSE 100", 3, 7, 7);
  }

  /** Graduate takes "CSE 200"; only All Courses takes "CSE 1000". */
  lemma {:induction false} GraduateExamples()
    ensures Matches(Graduate, "CSE 200") && !Matches(Graduate, "CSE 100")
    ensures forall d :: Matches(d, "CSE 1000") <==> d == AllCourses
  {
    ScanExample("CSE 200", 3, 7, 7);
    ScanExample("CSE 100", 3, 7, 7);
    ScanExample("CSE 1000", 3, 8, 8);
  }

  /** Pins the three runs of a concrete code. */
  lemma {:induction false} ScanExample(code: string, n: nat, d: nat, r: nat)
    requires n < d <= r <= |code| && code[n] == ' '
    requires AllIn(Capital, code, 0, n)
    requires AllIn(Numeral, code, n + 1, d) && (d < |code| ==> !IsDigit(code[d]))
    requires AllIn(Alpha, code, d, r) && (r < |code| ==> !IsLetter(code[r]))
    ensures DeptLength(code) == n && RunEnd(Numeral, code, n + 1) == d && RunEnd(Alpha, code, d) == r
  {
    RunEndCovers(Capital, code, 0, n);
    RunEndCovers(Numeral, code, n + 1, d);
    RunEndCovers(Alpha, code, d, r);
  }
}
