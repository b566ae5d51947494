/** The semantic ranking of src/courses/embed.py. The sentence encoder and the vector
    index are outside the model: `embed` is kept for the order in which it lays out the
    index, and `query` for the way it maps the positions the index returns back to
    catalog records. */
module Embed {
  import opened Wrappers
  import opened Catalog
  import opened Lists

  /** `embed` (src/courses/embed.py:10-14): one vector per course, encoded from its
      description, added to the index in catalog order. */
  function BuildIndex<V>(courses: seq<Course>, encode: string -> V): (index: seq<V>)
    ensures |index| == |courses|
    ensures forall i :: 0 <= i < |courses| ==> index[i] == encode(courses[i].desc)
  {
    Map(courses, (c: Course) => encode(c.desc))
  }

  /** Python's `xs[i]`: a negative position counts from the end; anything else out of
      range raises IndexError (None here). */
  function PyIndex<T>(xs: seq<T>, i: int): (r: Option<T>)
    ensures r.Some? <==> -|xs| <= i < |xs|
    ensures 0 <= i < |xs| ==> r == Some(xs[i])
    ensures -|xs| <= i < 0 ==> r == Some(xs[|xs| + i])
  {
    if 0 <= i < |xs| then Some(xs[i])
    else if -|xs| <= i < 0 then Some(xs[|xs| + i])
    else None
  }

  /** Every position can be looked up in a list of length `n`. */
  predicate InRange(n: nat, ids: seq<int>) {
    forall j :: 0 <= j < |ids| ==> -(n as int) <= ids[j] < n
  }

  /** The elements of `xs` at the (non-negative) positions `ids`, in the order of `ids`. */
  function Pick<T>(xs: seq<T>, ids: seq<int>): (r: seq<T>)
    requires forall j :: 0 <= j < |ids| ==> 0 <= ids[j] < |xs|
    ensures |r| == |ids| && forall j :: 0 <= j < |ids| ==> r[j] == xs[ids[j]]
  {
    seq(|ids|, j requires 0 <= j < |ids| => xs[ids[j]])
  }

  /** Negative positions made non-negative, as Python's indexing does. */
  function Wrap(n: nat, ids: seq<int>): (r: seq<int>)
    requires InRange(n, ids)
    ensures |r| == |ids| && forall j :: 0 <= j < |ids| ==> 0 <= r[j] < n
    ensures forall j :: 0 <= j < |ids| ==> r[j] == if ids[j] < 0 then ids[j] + n else ids[j]
  {
    Map(ids, (i: int) => if i < 0 then i + n else i)
  }

  /** `[COURSES[i] for i in I[0]]`: the records at the returned positions, or IndexError
      when a position is out of range. */
  function Resolve(courses: seq<Course>, ids: seq<int>): (r: Option<seq<Course>>)
    ensures r.Some? <==> InRange(|courses|, ids)
    ensures r.Some? ==> |r.value| == |ids|
    ensures r.Some? ==> forall j :: 0 <= j < |ids| ==> PyIndex(courses, ids[j]) == Some(r.value[j])
  {
    if InRange(|courses|, ids) then Some(Pick(courses, Wrap(|courses|, ids))) else None
  }

  /** The index search: given the query text and `k`, the first row of positions it
      returns, best match first. */
  type Ranker = (string, nat) -> seq<int>

  /** `query` (src/courses/embed.py:17-24): rank the whole catalog, `k = len(COURSES)`. */
  function Query(courses: seq<Course>, rank: Ranker, text: string): (r: Option<seq<Course>>)
    ensures r.Some? <==> InRange(|courses|, rank(text, |courses|))
    ensures r.Some? ==> |r.value| == |rank(text, |courses|)|
  {
    Resolve(courses, rank(text, |courses|))
  }

  /** The positions 0, 1, ..., n - 1. */
  function Range(n: nat): (r: seq<int>)
    ensures |r| == n && forall j :: 0 <= j < n ==> r[j] == j
  {
    seq(n, j => j)
  }

  /** With no top-k cutoff the answer lists as many courses as the catalog holds,
      provided the index answers all `k` positions. */
  lemma {:induction false} QueryCoversCatalog(courses: seq<Course>, rank: Ranker, text: string)
    requires InRange(|courses|, rank(text, |courses|))
    requires |rank(text, |courses|)| == |courses|
    ensures Query(courses, rank, text).Some?
    ensures |Query(courses, rank, text).value| == |courses|
  {
  }

  /** Position `j` of the answer is the course whose description was encoded at the index
      position the search returned at `j`. */
  lemma {:induction false} QueryMatchesIndex<V>(courses: seq<Course>, encode: string -> V, rank: Ranker, text: string, j: nat)
    requires Query(courses, rank, text).Some?
    requires j < |rank(text, |courses|)|
    ensures PyIndex(BuildIndex(courses, encode), rank(text, |courses|)[j])
         == Some(encode(Query(courses, rank, text).value[j].desc))
  {
  }

  /** When the index returns every position exactly once, the answer is a reordering of
      the catalog: each record occurs as often as in the catalog. */
  lemma {:induction false} QueryPermutes(courses: seq<Course>, rank: Ranker, text: string)
    requires multiset(rank(text, |courses|)) == multiset(Range(|courses|))
    ensures Query(courses, rank, text).Some?
    ensures multiset(Query(courses, rank, text).value) == multiset(courses)
  {
    var n := |courses|;
    var ids := rank(text, n);
    forall j | 0 <= j < |ids| ensures 0 <= ids[j] < n {
      assert ids[j] in multiset(Range(n));
    }
    assert Wrap(n, ids) == ids;
    MultisetPick(courses, ids, Range(n));
    assert Pick(courses, Range(n)) == courses;
  }

  /** Picking along two orderings of the same positions gives the same multiset. */
  lemma {:induction false} MultisetPick<T>(xs: seq<T>, a: seq<int>, b: seq<int>)
    requires forall j :: 0 <= j < |a| ==> 0 <= a[j] < |xs|
    requires forall j :: 0 <= j < |b| ==> 0 <= b[j] < |xs|
    requires multiset(a) == multiset(b)
    ensures multiset(Pick(xs, a)) == multiset(Pick(xs, b))
    decreases |a|
  {
    if a == [] {
      assert |b| == |multiset(b)| == 0;
    } else {
      assert a[0] in multiset(b);
      var p :| 0 <= p < |b| && b[p] == a[0];
      var a', b' := RemoveAt(a, 0), RemoveAt(b, p);
      RemoveAtMultiset(a, 0);
      RemoveAtMultiset(b, p);
      MultisetPick(xs, a', b');
      PickRemoveAt(xs, a, 0);
      PickRemoveAt(xs, b, p);
      var e := xs[a[0]];
      assert e in multiset(Pick(xs, a)) by { assert Pick(xs, a)[0] == e; }
      assert e in multiset(Pick(xs, b)) by { assert Pick(xs, b)[p] == e; }
      MultisetCancel(multiset(Pick(xs, a)), multiset(Pick(xs, b)), e);
    }
  }

  lemma {:induction false} MultisetCancel<T>(x: multiset<T>, y: multiset<T>, e: T)
    requires e in x && e in y && x - multiset{e} == y - multiset{e}
    ensures x == y
  {
    assert x == (x - multiset{e}) + multiset{e};
    assert y == (y - multiset{e}) + multiset{e};
  }

  /** `xs` without its element at `p`. */
  function RemoveAt<T>(xs: seq<T>, p: nat): (r: seq<T>)
    requires p < |xs|
    ensures |r| == |xs| - 1
    ensures forall j :: 0 <= j < p ==> r[j] == xs[j]
    ensures forall j :: p <= j < |r| ==> r[j] == xs[j + 1]
  {
    xs[..p] + xs[p + 1..]
  }

  lemma {:induction false} RemoveAtMultiset<T>(xs: seq<T>, p: nat)
    requires p < |xs|
    ensures multiset(RemoveAt(xs, p)) == multiset(xs) - multiset{xs[p]}
  {
    assert xs == xs[..p] + [xs[p]] + xs[p + 1..];
  }

  /** Removing a position from the list removes its element from the picked multiset. */
  lemma {:induction false} PickRemoveAt<T>(xs: seq<T>, ids: seq<int>, p: nat)
    requires p < |ids| && forall j :: 0 <= j < |ids| ==> 0 <= ids[j] < |xs|
    ensures multiset(Pick(xs, RemoveAt(ids, p))) == multiset(Pick(xs, ids)) - multiset{xs[ids[p]]}
  {
    var r := Pick(xs, ids);
    assert Pick(xs, RemoveAt(ids, p)) == RemoveAt(r, p);
    RemoveAtMultiset(r, p);
  }
}
