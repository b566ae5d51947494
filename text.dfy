/**
 * The parts of Python's `str` that the bot relies on, over `seq<char>`:
 * character classes, `strip`, `upper`, `split`, `join`, `startswith`, `in`,
 * `split()` on white space, `int(...)` on decimal text and `str(int)`.
 * Character classes are the ASCII ones (white space also covers the
 * Latin-1 separators that `str.isspace` accepts).
 */
module Text {
  import opened Wrappers

  // ---------------------------------------------------------------- classes

  predicate IsDigit(c: char) { '0' <= c <= '9' }
  predicate IsUpper(c: char) { 'A' <= c <= 'Z' }
  predicate IsLower(c: char) { 'a' <= c <= 'z' }
  predicate IsLetter(c: char) { IsUpper(c) || IsLower(c) }
  /** The characters `\w` matches, restricted to ASCII. */
  predicate IsWordChar(c: char) { IsLetter(c) || IsDigit(c) || c == '_' }
  /** The characters `str.strip()` and `str.split()` remove, restricted to Latin-1. */
  predicate IsSpace(c: char) {
    c == ' ' || ('\t' <= c <= '\r') || ('\U{1c}' <= c <= '\U{1f}') || c == '\U{85}' || c == '\U{a0}'
  }

  predicate AllDigits(s: string) { forall k | 0 <= k < |s| :: IsDigit(s[k]) }
  predicate AllSpaces(s: string) { forall k | 0 <= k < |s| :: IsSpace(s[k]) }
  predicate NoSpace(s: string) { forall k | 0 <= k < |s| :: !IsSpace(s[k]) }

  // ---------------------------------------------------------------- upper

  function UpperChar(c: char): (u: char)
    ensures IsLower(c) ==> IsUpper(u)
    ensures !IsLower(c) ==> u == c
  {
    if IsLower(c) then (c as int - 32) as char else c
  }

  /** Python's `s.upper()` on ASCII letters. */
  function Upper(s: string): (r: string)
    ensures |r| == |s|
    ensures forall k :: 0 <= k < |s| ==> r[k] == UpperChar(s[k])
  {
    seq(|s|, k requires 0 <= k < |s| => UpperChar(s[k]))
  }

  /** Text with no lower-case letter is its own upper-casing. */
  lemma {:induction false} UpperKeeps(s: string)
    requires forall k :: 0 <= k < |s| ==> !IsLower(s[k])
    ensures Upper(s) == s
  {
  }

  /** Upper-casing twice is upper-casing once. */
  lemma {:induction false} UpperIdempotent(s: string)
    ensures Upper(Upper(s)) == Upper(s)
  {
    assert forall k :: 0 <= k < |s| ==> Upper(Upper(s))[k] == Upper(s)[k];
  }

  /** Upper-casing keeps white space where it is. */
  lemma {:induction false} UpperKeepsSpaces(s: string)
    ensures forall k :: 0 <= k < |s| ==> (IsSpace(Upper(s)[k]) <==> IsSpace(s[k]))
  {
  }

  // ---------------------------------------------------------------- strip

  /** Number of white-space characters at the start of `s`. */
  function LeadingSpaces(s: string): (n: nat)
    ensures n <= |s|
    ensures forall k :: 0 <= k < n ==> IsSpace(s[k])
    ensures n < |s| ==> !IsSpace(s[n])
  {
    if s == [] || !IsSpace(s[0]) then 0 else 1 + LeadingSpaces(s[1..])
  }

  /** Number of white-space characters at the end of `s`. */
  function TrailingSpaces(s: string): (n: nat)
    ensures n <= |s|
    ensures forall k :: |s| - n <= k < |s| ==> IsSpace(s[k])
    ensures n < |s| ==> !IsSpace(s[|s| - 1 - n])
  {
    if s == [] || !IsSpace(s[|s| - 1]) then 0 else 1 + TrailingSpaces(s[..|s| - 1])
  }

  /** Neither starts nor ends with white space. */
  predicate IsStripped(s: string) {
    s == [] || (!IsSpace(s[0]) && !IsSpace(s[|s| - 1]))
  }

  /** Python's `s.strip()`: `s` without its leading and trailing white space. */
  function Strip(s: string): (r: string)
    ensures IsStripped(r)
    ensures LeadingSpaces(s) + |r| <= |s|
    ensures r == s[LeadingSpaces(s)..LeadingSpaces(s) + |r|]
    ensures forall k :: LeadingSpaces(s) + |r| <= k < |s| ==> IsSpace(s[k])
  {
    var t := s[LeadingSpaces(s)..];
    t[..|t| - TrailingSpaces(t)]
  }

  /** A string with no white space at either end is its own strip. */
  lemma {:induction false} StripStripped(s: string)
    requires IsStripped(s)
    ensures Strip(s) == s
  {
    var r := Strip(s);
    if s != [] {
      assert LeadingSpaces(s) == 0;
      assert !IsSpace(s[|s| - 1]);
      assert |r| == |s|;
    }
  }

  lemma {:induction false} StripIdempotent(s: string)
    ensures Strip(Strip(s)) == Strip(s)
  {
    StripStripped(Strip(s));
  }

  /** Stripping a stripped text followed by white space gives the text back. */
  lemma {:induction false} StripSpacesAfter(x: string, t: string)
    requires IsStripped(x) && AllSpaces(t)
    ensures Strip(x + t) == x
  {
    var s := x + t;
    var r := Strip(s);
    if x == [] {
      assert s == t;
      assert LeadingSpaces(s) == |s|;
    } else {
      assert s[0] == x[0];
      assert LeadingSpaces(s) == 0;
      assert !IsSpace(s[|x| - 1]);
      assert |r| >= |x|;
      assert forall k :: |x| <= k < |s| ==> IsSpace(s[k]);
      assert !IsSpace(s[|r| - 1]);
      assert |r| <= |x|;
      assert r == s[..|x|] == x;
    }
  }

  /** A space in front makes no difference to the strip. */
  lemma {:induction false} StripSpaceBefore(s: string)
    ensures Strip(" " + s) == Strip(s)
  {
    var s' := " " + s;
    assert s'[1..] == s;
    assert LeadingSpaces(s') == 1 + LeadingSpaces(s);
    assert s'[LeadingSpaces(s')..] == s[LeadingSpaces(s)..];
  }

  /** A space before a stripped text is stripped away. */
  lemma {:induction false} StripLeadingSpace(x: string)
    requires IsStripped(x)
    ensures Strip(" " + x) == x
  {
    var s := " " + x;
    assert s[1..] == x;
    if x == [] {
      assert LeadingSpaces(s) == 1;
    } else {
      assert LeadingSpaces(x) == 0;
      assert LeadingSpaces(s) == 1;
      assert TrailingSpaces(x) == 0;
    }
  }

  /** A string that starts with a non-space keeps that first character when stripped. */
  lemma {:induction false} StripKeepsFirst(s: string)
    requires s != [] && !IsSpace(s[0])
    ensures Strip(s) != [] && Strip(s)[0] == s[0]
  {
    assert LeadingSpaces(s) == 0;
    assert |Strip(s)| > 0;
  }

  // ---------------------------------------------------------------- search

  predicate StartsWith(s: string, prefix: string) {
    |prefix| <= |s| && s[..|prefix|] == prefix
  }

  predicate EndsWith(s: string, suffix: string) {
    |suffix| <= |s| && s[|s| - |suffix|..] == suffix
  }

  /** `sub` occurs in `s` at position `k`. */
  predicate OccursAt(s: string, sub: string, k: nat) {
    k + |sub| <= |s| && s[k..k + |sub|] == sub
  }

  /** The first position of `sub` in `s` (Python's `s.find(sub)`, with None for -1). */
  function Find(s: string, sub: string): (r: Option<nat>)
    ensures r.Some? ==> OccursAt(s, sub, r.value)
    ensures r.Some? ==> forall k :: 0 <= k < r.value ==> !OccursAt(s, sub, k)
    ensures r.None? ==> forall k: nat :: !OccursAt(s, sub, k)
    decreases |s|
  {
    if |sub| > |s| then None
    else if s[..|sub|] == sub then Some(0)
    else
      var rest := Find(s[1..], sub);
      assert !OccursAt(s, sub, 0);
      forall k: nat | 1 <= k ensures OccursAt(s, sub, k) <==> OccursAt(s[1..], sub, k - 1) {
        OccursAtShift(s, sub, k);
      }
      match rest
      case None => None
      case Some(k) => Some(k + 1)
  }

  /** A one-character separator is found at its first occurrence. */
  lemma {:induction false} FindChar(s: string, c: char, k: nat)
    requires k < |s| && s[k] == c && c !in s[..k]
    ensures Find(s, [c]) == Some(k)
  {
    NoOccurrenceIn(s, s[..k], c);
    assert OccursAt(s, [c], k) by { assert s[k..k + 1] == [c]; }
  }

  /** A character that does not occur is not found. */
  lemma {:induction false} FindCharNone(s: string, c: char)
    requires c !in s
    ensures Find(s, [c]) == None
  {
    NoOccurrenceIn(s, s, c);
  }

  /** An occurrence past the first character is an occurrence in the rest. */
  lemma {:induction false} OccursAtShift(s: string, sub: string, k: nat)
    requires s != [] && 1 <= k
    ensures OccursAt(s, sub, k) <==> OccursAt(s[1..], sub, k - 1)
  {
    if k + |sub| <= |s| {
      var a, b := s[k..k + |sub|], s[1..][k - 1..k - 1 + |sub|];
      assert |a| == |b|;
      forall j | 0 <= j < |a| ensures a[j] == b[j] {
        assert a[j] == s[k + j];
      }
      assert a == b;
    }
  }

  /** Python's `sub in s`. */
  predicate Contains(s: string, sub: string) {
    Find(s, sub).Some?
  }

  // ---------------------------------------------------------------- split and join

  /** Python's `s.split(sep)` for a non-empty separator. */
  function Split(s: string, sep: string): (r: seq<string>)
    requires sep != []
    ensures |r| >= 1
    decreases |s|
  {
    match Find(s, sep)
    case None => [s]
    case Some(i) => [s[..i]] + Split(s[i + |sep|..], sep)
  }

  /** Python's `sep.join(xs)`. */
  function Join(xs: seq<string>, sep: string): string
  {
    if |xs| == 0 then [] else if |xs| == 1 then xs[0] else xs[0] + sep + Join(xs[1..], sep)
  }

  /** Joining the pieces of a split with the separator gives the text back. */
  lemma {:induction false} JoinSplit(s: string, sep: string)
    requires sep != []
    ensures Join(Split(s, sep), sep) == s
    decreases |s|
  {
    var f := Find(s, sep);
    if f.Some? {
      var i := f.value;
      var rest := s[i + |sep|..];
      var pieces := Split(rest, sep);
      JoinSplit(rest, sep);
      var xs := [s[..i]] + pieces;
      assert Split(s, sep) == xs;
      assert xs[0] == s[..i] && xs[1..] == pieces;
      assert Join(xs, sep) == s[..i] + sep + rest;
      assert OccursAt(s, sep, i);
      assert s == s[..i] + s[i..i + |sep|] + rest;
    }
  }

  /** A one-character separator splits a join back into its pieces when no piece holds it. */
  lemma {:induction false} SplitJoin(xs: seq<string>, c: char)
    requires |xs| >= 1
    requires forall k :: 0 <= k < |xs| ==> c !in xs[k]
    ensures Split(Join(xs, [c]), [c]) == xs
  {
    var x := xs[0];
    var s := Join(xs, [c]);
    assert StartsWith(s, x);
    NoOccurrenceIn(s, x, c);
    if |xs| == 1 {
      assert s == x;
      assert Find(s, [c]).None?;
    } else {
      assert s == x + [c] + Join(xs[1..], [c]);
      assert OccursAt(s, [c], |x|) by {
        assert s[|x|..|x| + 1] == [c];
      }
      assert Find(s, [c]) == Some(|x|);
      assert s[|x| + 1..] == Join(xs[1..], [c]);
      SplitJoin(xs[1..], c);
      assert xs == [x] + xs[1..];
    }
  }

  /** A character absent from a prefix does not occur inside that prefix. */
  lemma {:induction false} NoOccurrenceIn(s: string, x: string, c: char)
    requires StartsWith(s, x) && c !in x
    ensures forall k: nat :: k < |x| ==> !OccursAt(s, [c], k)
  {
    forall k: nat | k < |x| ensures !OccursAt(s, [c], k) {
      assert s[k] == x[k] && x[k] != c;
      if k + 1 <= |s| {
        assert s[k..k + 1] != [c] by { assert s[k..k + 1][0] == s[k]; }
      }
    }
  }

  /** A one-character occurrence is that character at that position. */
  lemma {:induction false} OccursAtChar(s: string, c: char, k: nat)
    ensures OccursAt(s, [c], k) <==> k < |s| && s[k] == c
  {
    if k < |s| {
      assert s[k..k + 1] == [s[k]];
    }
  }

  /** A character that occurs is found, so splitting on it gives at least two pieces. */
  lemma {:induction false} SplitCharFound(s: string, c: char)
    requires c in s
    ensures |Split(s, [c])| >= 2
  {
    var k :| 0 <= k < |s| && s[k] == c;
    OccursAtChar(s, c, k);
  }

  /** Splitting on a character that does not occur gives the text back as the only piece. */
  lemma {:induction false} SplitCharNone(s: string, c: char)
    requires c !in s
    ensures Split(s, [c]) == [s]
  {
    FindCharNone(s, c);
  }

  /** The first piece of a split on `c` is everything before the first `c`. */
  lemma {:induction false} SplitCharCons(a: string, c: char, rest: string)
    requires c !in a
    ensures Split(a + [c] + rest, [c]) == [a] + Split(rest, [c])
  {
    var s := a + [c] + rest;
    assert s[..|a|] == a;
    FindChar(s, c, |a|);
    assert s[|a| + 1..] == rest;
  }

  /** The first piece of a split is a prefix that holds no separator and stops at one. */
  lemma {:induction false} SplitHeadShape(s: string, c: char)
    ensures StartsWith(s, Split(s, [c])[0]) && c !in Split(s, [c])[0]
    ensures |Split(s, [c])[0]| < |s| ==> s[|Split(s, [c])[0]|] == c
  {
    match Find(s, [c])
    case None =>
      forall k | 0 <= k < |s| ensures s[k] != c { OccursAtChar(s, c, k); }
    case Some(i) =>
      assert Split(s, [c])[0] == s[..i];
      forall k | 0 <= k < i ensures s[k] != c { OccursAtChar(s, c, k); }
      OccursAtChar(s, c, i);
  }

  /** No piece of a split on `c` holds `c`. */
  lemma {:induction false} SplitPiecesFree(s: string, c: char)
    ensures forall k :: 0 <= k < |Split(s, [c])| ==> c !in Split(s, [c])[k]
    decreases |s|
  {
    match Find(s, [c])
    case None =>
      forall k | 0 <= k < |s| ensures s[k] != c { OccursAtChar(s, c, k); }
    case Some(i) =>
      forall k | 0 <= k < i ensures s[k] != c { OccursAtChar(s, c, k); }
      SplitPiecesFree(s[i + 1..], c);
      assert Split(s, [c]) == [s[..i]] + Split(s[i + 1..], [c]);
  }

  /** Joining one more piece appends the separator and the piece. */
  lemma {:induction false} JoinSnoc(xs: seq<string>, v: string, sep: string)
    requires |xs| >= 1
    ensures Join(xs + [v], sep) == Join(xs, sep) + sep + v
  {
    if |xs| > 1 {
      assert (xs + [v])[1..] == xs[1..] + [v];
      JoinSnoc(xs[1..], v, sep);
    }
  }

  /** Text after the last `c` is the last piece; the pieces before are those of the text before it. */
  lemma {:induction false} SplitCharSnoc(t: string, c: char, v: string)
    requires c !in v
    ensures Split(t + [c] + v, [c]) == Split(t, [c]) + [v]
  {
    var xs := Split(t, [c]);
    JoinSplit(t, [c]);
    SplitPiecesFree(t, c);
    JoinSnoc(xs, v, [c]);
    SplitJoin(xs + [v], c);
  }

  // ---------------------------------------------------------------- white-space words

  /** Length of the run of non-white-space characters at the start of `s`. */
  function WordLength(s: string): (n: nat)
    ensures n <= |s|
    ensures forall k :: 0 <= k < n ==> !IsSpace(s[k])
    ensures n < |s| ==> IsSpace(s[n])
  {
    if s == [] || IsSpace(s[0]) then 0 else 1 + WordLength(s[1..])
  }

  /** Python's `s.split()`: the maximal runs of non-white-space characters, in order. */
  function Words(s: string): (ws: seq<string>)
    ensures forall k :: 0 <= k < |ws| ==> ws[k] != [] && NoSpace(ws[k])
    decreases |s|
  {
    var t := s[LeadingSpaces(s)..];
    if t == [] then []
    else
      var n := WordLength(t);
      [t[..n]] + Words(t[n..])
  }

  /** Python's `' '.join(s.strip().split())`. */
  function CollapseSpaces(s: string): string {
    Join(Words(Strip(s)), " ")
  }

  /** The non-white-space characters of `s`, in order. */
  function NonSpace(s: string): string {
    if s == [] then [] else (if IsSpace(s[0]) then [] else [s[0]]) + NonSpace(s[1..])
  }

  lemma {:induction false} NonSpaceAppend(a: string, b: string)
    ensures NonSpace(a + b) == NonSpace(a) + NonSpace(b)
  {
    if a != [] {
      assert (a + b)[1..] == a[1..] + b;
      NonSpaceAppend(a[1..], b);
    } else {
      assert a + b == b;
    }
  }

  lemma {:induction false} NonSpaceOfSpaces(s: string)
    requires AllSpaces(s)
    ensures NonSpace(s) == []
  {
    if s != [] {
      NonSpaceOfSpaces(s[1..]);
    }
  }

  lemma {:induction false} NonSpaceOfWord(s: string)
    requires NoSpace(s)
    ensures NonSpace(s) == s
  {
    if s != [] {
      NonSpaceOfWord(s[1..]);
    }
  }

  /** Splitting on white space and joining with single spaces keeps every other character. */
  lemma {:induction false} NonSpaceOfWords(s: string)
    ensures NonSpace(Join(Words(s), " ")) == NonSpace(s)
    decreases |s|
  {
    var a := LeadingSpaces(s);
    var t := s[a..];
    NonSpaceAfterSpaces(s, a);
    if t != [] {
      var n := WordLength(t);
      var rest := t[n..];
      assert Words(s) == [t[..n]] + Words(rest);
      NonSpaceOfWords(rest);
      NonSpaceAfterWord(t, n);
      NonSpaceJoinCons(t[..n], Words(rest));
    }
  }

  lemma {:induction false} NonSpaceAfterSpaces(s: string, a: nat)
    requires a <= |s| && AllSpaces(s[..a])
    ensures NonSpace(s) == NonSpace(s[a..])
  {
    assert s == s[..a] + s[a..];
    NonSpaceAppend(s[..a], s[a..]);
    NonSpaceOfSpaces(s[..a]);
  }

  lemma {:induction false} NonSpaceAfterWord(t: string, n: nat)
    requires n <= |t| && NoSpace(t[..n])
    ensures NonSpace(t) == t[..n] + NonSpace(t[n..])
  {
    assert t == t[..n] + t[n..];
    NonSpaceAppend(t[..n], t[n..]);
    NonSpaceOfWord(t[..n]);
  }

  lemma {:induction false} NonSpaceJoinCons(w: string, ws: seq<string>)
    requires NoSpace(w)
    ensures NonSpace(Join([w] + ws, " ")) == w + NonSpace(Join(ws, " "))
  {
    NonSpaceOfWord(w);
    if ws != [] {
      assert ([w] + ws)[1..] == ws;
      assert Join([w] + ws, " ") == w + " " + Join(ws, " ");
      NonSpaceAppend(w + " ", Join(ws, " "));
      NonSpaceAppend(w, " ");
    } else {
      assert Join([w] + ws, " ") == w;
    }
  }

  /** Joining non-empty words without white space by single spaces gives a stripped text
      whose only white space is single spaces between words. */
  lemma {:induction false} JoinWordsShape(ws: seq<string>)
    requires forall k :: 0 <= k < |ws| ==> ws[k] != [] && NoSpace(ws[k])
    ensures IsStripped(Join(ws, " "))
    ensures SingleSpaced(Join(ws, " "))
  {
    if |ws| > 1 {
      JoinWordsShape(ws[1..]);
      var w, j := ws[0], Join(ws[1..], " ");
      var s := w + " " + j;
      assert Join(ws, " ") == s;
      forall k | 0 <= k < |s| && IsSpace(s[k])
        ensures s[k] == ' ' && 0 < k < |s| - 1 && !IsSpace(s[k - 1]) && !IsSpace(s[k + 1])
      {
        if k > |w| {
          assert s[k] == j[k - |w| - 1];
          if k - |w| - 1 > 0 {
            assert s[k - 1] == j[k - |w| - 2];
          }
          assert s[k + 1] == j[k - |w|];
        }
      }
    }
  }

  /** Every white-space character is a single ' ' between two non-space characters. */
  predicate SingleSpaced(s: string) {
    forall k | 0 <= k < |s| && IsSpace(s[k]) ::
      s[k] == ' ' && 0 < k < |s| - 1 && !IsSpace(s[k - 1]) && !IsSpace(s[k + 1])
  }

  /** Splitting a single-spaced join of words on white space gives the words back. */
  lemma {:induction false} WordsOfJoin(ws: seq<string>)
    requires forall k :: 0 <= k < |ws| ==> ws[k] != [] && NoSpace(ws[k])
    ensures Words(Join(ws, " ")) == ws
  {
    if |ws| == 1 {
      WordsStartWord(ws[0], ws[0], []);
      assert Words([]) == [];
    } else if |ws| > 1 {
      WordsOfJoinStep(ws);
      WordsOfJoin(ws[1..]);
      assert ws == [ws[0]] + ws[1..];
    }
  }

  /** The first word of a join of at least two words, and the words after it. */
  lemma {:induction false} WordsOfJoinStep(ws: seq<string>)
    requires |ws| > 1
    requires forall k :: 0 <= k < |ws| ==> ws[k] != [] && NoSpace(ws[k])
    ensures Words(Join(ws, " ")) == [ws[0]] + Words(Join(ws[1..], " "))
  {
    var w, j := ws[0], Join(ws[1..], " ");
    assert Join(ws, " ") == w + (" " + j);
    WordsStartWord(w + (" " + j), w, " " + j);
    JoinStartsWith(ws[1..], " ");
    assert j[0] == ws[1][0];
    WordsSkipSpace(j);
  }

  lemma {:induction false} JoinStartsWith(xs: seq<string>, sep: string)
    requires |xs| >= 1
    ensures StartsWith(Join(xs, sep), xs[0])
  {
    if |xs| > 1 {
      assert Join(xs, sep) == xs[0] + (sep + Join(xs[1..], sep));
    }
  }

  /** A word followed by white space (or nothing) is the first word. */
  lemma {:induction false} WordsStartWord(s: string, w: string, rest: string)
    requires s == w + rest && w != [] && NoSpace(w)
    requires rest == [] || IsSpace(rest[0])
    ensures Words(s) == [w] + Words(rest)
  {
    assert s[0] == w[0];
    assert LeadingSpaces(s) == 0;
    assert s[0..] == s;
    var n := WordLength(s);
    assert forall k :: 0 <= k < |w| ==> s[k] == w[k];
    if rest != [] {
      assert s[|w|] == rest[0];
    }
    assert n == |w|;
    assert s[..n] == w && s[n..] == rest;
  }

  /** A single space before a word does not change the words. */
  lemma {:induction false} WordsSkipSpace(j: string)
    requires j != [] && !IsSpace(j[0])
    ensures Words(" " + j) == Words(j)
  {
    var s := " " + j;
    assert s[1..] == j;
    assert LeadingSpaces(j) == 0;
    assert LeadingSpaces(s) == 1;
    assert j[0..] == j;
  }

  /** Collapsing white space keeps the words of the text, and so every other character in
      order, leaves no white space at either end and only single spaces between words, and
      is idempotent. */
  lemma {:induction false} CollapseSpacesShape(s: string)
    ensures Words(CollapseSpaces(s)) == Words(Strip(s))
    ensures IsStripped(CollapseSpaces(s)) && SingleSpaced(CollapseSpaces(s))
    ensures NonSpace(CollapseSpaces(s)) == NonSpace(s)
    ensures CollapseSpaces(CollapseSpaces(s)) == CollapseSpaces(s)
  {
    var ws := Words(Strip(s));
    var c := Join(ws, " ");
    JoinWordsShape(ws);
    NonSpaceOfWords(Strip(s));
    NonSpaceOfStrip(s);
    StripStripped(c);
    WordsOfJoin(ws);
  }

  lemma {:induction false} NonSpaceOfStrip(s: string)
    ensures NonSpace(Strip(s)) == NonSpace(s)
  {
    var a := LeadingSpaces(s);
    NonSpaceOfMiddle(s, a, a + |Strip(s)|);
  }

  /** Dropping white space from both ends keeps the non-white-space characters. */
  lemma {:induction false} NonSpaceOfMiddle(s: string, a: nat, b: nat)
    requires a <= b <= |s|
    requires forall k :: 0 <= k < a ==> IsSpace(s[k])
    requires forall k :: b <= k < |s| ==> IsSpace(s[k])
    ensures NonSpace(s[a..b]) == NonSpace(s)
  {
    SplitThree(s, a, b);
    NonSpaceAppend(s[..a], s[a..b] + s[b..]);
    NonSpaceAppend(s[a..b], s[b..]);
    assert AllSpaces(s[..a]) by {
      assert forall k :: 0 <= k < a ==> s[..a][k] == s[k];
    }
    assert AllSpaces(s[b..]) by {
      assert forall k :: 0 <= k < |s| - b ==> s[b..][k] == s[b + k];
    }
    NonSpaceOfSpaces(s[..a]);
    NonSpaceOfSpaces(s[b..]);
  }

  /** A string is its three slices at two cut points laid end to end. */
  lemma {:induction false} SplitThree(s: string, a: nat, b: nat)
    requires a <= b <= |s|
    ensures s == s[..a] + (s[a..b] + s[b..])
  {
  }

  // ---------------------------------------------------------------- other helpers

  /** Python's `s[i:]` for a non-negative `i`. */
  function Drop(s: string, i: nat): (r: string)
    ensures i <= |s| ==> r == s[i..]
    ensures i >= |s| ==> r == []
  {
    if i >= |s| then [] else s[i..]
  }

  /** `s` with every occurrence of `c` removed. */
  function Without(s: string, c: char): (r: string)
    ensures c !in r
    ensures |r| <= |s|
  {
    if s == [] then [] else (if s[0] == c then [] else [s[0]]) + Without(s[1..], c)
  }

  lemma {:induction false} WithoutAppend(a: string, b: string, c: char)
    ensures Without(a + b, c) == Without(a, c) + Without(b, c)
  {
    if a != [] {
      assert (a + b)[1..] == a[1..] + b;
      WithoutAppend(a[1..], b, c);
    } else {
      assert a + b == b;
    }
  }

  // ---------------------------------------------------------------- numbers

  function DigitChar(d: nat): (c: char)
    requires d < 10
    ensures IsDigit(c)
  {
    ('0' as int + d) as char
  }

  function DigitValue(c: char): (d: nat)
    requires IsDigit(c)
    ensures d < 10 && DigitChar(d) == c
  {
    c as int - '0' as int
  }

  /** The number a string of decimal digits denotes (leading zeros allowed). */
  function DecimalValue(ds: string): nat
    requires AllDigits(ds)
  {
    if ds == [] then 0 else 10 * DecimalValue(ds[..|ds| - 1]) + DigitValue(ds[|ds| - 1])
  }

  /** Python's `str(n)` for a natural number: decimal digits without leading zeros. */
  function NatToString(n: nat): (r: string)
    ensures r != [] && AllDigits(r)
  {
    if n < 10 then [DigitChar(n)] else NatToString(n / 10) + [DigitChar(n % 10)]
  }

  /** Python's `str(i)`. */
  function IntToString(i: int): string {
    if i < 0 then "-" + NatToString(-i) else NatToString(i)
  }

  lemma {:induction false} DecimalOfNatToString(n: nat)
    ensures DecimalValue(NatToString(n)) == n
  {
    if n >= 10 {
      DecimalOfNatToString(n / 10);
      var r := NatToString(n);
      assert r[..|r| - 1] == NatToString(n / 10);
    }
  }

  /** A run of `n` zeros. */
  function Zeros(n: nat): (r: string)
    ensures |r| == n && AllDigits(r)
    ensures forall k :: 0 <= k < n ==> r[k] == '0'
  {
    seq(n, k => '0')
  }

  /** The digits of `n`, padded on the left with zeros to at least `width` characters
      (the `%Y`, `%m`, `%d`, `%H`, `%M` and `%S` directives of `strftime`). */
  function ZeroPad(n: nat, width: nat): (r: string)
    ensures AllDigits(r) && r != [] && |r| >= width
  {
    var ds := NatToString(n);
    Zeros(if |ds| < width then width - |ds| else 0) + ds
  }

  lemma {:induction false} DecimalLeadingZeros(z: nat, ds: string)
    requires AllDigits(ds)
    ensures DecimalValue(Zeros(z) + ds) == DecimalValue(ds)
    decreases |ds|
  {
    var s := Zeros(z) + ds;
    if ds == [] {
      assert s == Zeros(z);
      DecimalOfZeros(z);
    } else {
      assert s[..|s| - 1] == Zeros(z) + ds[..|ds| - 1];
      DecimalLeadingZeros(z, ds[..|ds| - 1]);
    }
  }

  lemma {:induction false} DecimalOfZeros(z: nat)
    ensures DecimalValue(Zeros(z)) == 0
  {
    if z > 0 {
      assert Zeros(z)[..z - 1] == Zeros(z - 1);
      DecimalOfZeros(z - 1);
    }
  }

  lemma {:induction false} DecimalOfZeroPad(n: nat, width: nat)
    ensures DecimalValue(ZeroPad(n, width)) == n
  {
    var ds := NatToString(n);
    DecimalLeadingZeros(if |ds| < width then width - |ds| else 0, ds);
    DecimalOfNatToString(n);
  }

  /** Python's `int(s)` on decimal text: optional surrounding white space, an optional
      sign, then at least one digit; anything else raises ValueError (None here). A text
      of digits alone is its decimal value. */
  function ParseInt(s: string): (r: Option<int>)
    ensures r.Some? <==> IntText(Strip(s))
    ensures r.Some? ==> r.value == SignedValue(Strip(s))
    ensures s != [] && AllDigits(s) ==> r == Some(DecimalValue(s))
  {
    DigitsStripped(s);
    var t := Strip(s);
    if t != [] && (t[0] == '-' || t[0] == '+') then
      if |t| > 1 && AllDigits(t[1..]) then
        var v: int := DecimalValue(t[1..]);
        Some(if t[0] == '-' then -v else v)
      else None
    else if t != [] && AllDigits(t) then Some(DecimalValue(t))
    else None
  }

  /** Digits, or a sign and at least one digit. */
  predicate IntText(t: string) {
    (t != [] && AllDigits(t)) || (|t| > 1 && (t[0] == '-' || t[0] == '+') && AllDigits(t[1..]))
  }

  /** The value of such a text: its digits in decimal, negated after '-'. */
  function SignedValue(t: string): int
    requires IntText(t)
  {
    if t[0] == '-' then -(DecimalValue(t[1..]) as int)
    else if t[0] == '+' then DecimalValue(t[1..])
    else DecimalValue(t)
  }

  /** A text of digits has no white space to strip. */
  lemma {:induction false} DigitsStripped(s: string)
    ensures s != [] && AllDigits(s) ==> Strip(s) == s
  {
    if s != [] && AllDigits(s) {
      assert IsDigit(s[0]) && IsDigit(s[|s| - 1]);
      StripStripped(s);
    }
  }

  /** `int` reads back every zero-padded rendering of a natural number. */
  lemma {:induction false} ParseZeroPad(n: nat, width: nat)
    ensures ParseInt(ZeroPad(n, width)) == Some(n)
  {
    var p := ZeroPad(n, width);
    assert IsDigit(p[0]) && IsDigit(p[|p| - 1]);
    assert IsStripped(p);
    StripStripped(p);
    assert p[0] != '-' && p[0] != '+';
    DecimalOfZeroPad(n, width);
  }
}
