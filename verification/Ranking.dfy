/** Retrieved chunks and the stable sort of the Go library the retrieval code relies on. */
module Ranking {

  datatype Source = Vector | Keyword | Hybrid

  datatype Hit = Hit(id: string, document: string, index: int, section: string, content: string,
                     score: real, rawScore: real, source: Source)

  type Before = (Hit, Hit) -> bool

  /** Scores descending. */
  predicate ByScore(a: Hit, b: Hit) {
    a.score > b.score
  }

  /** Scores descending, then chunk indexes ascending. */
  predicate ByScoreThenIndex(a: Hit, b: Hit) {
    if a.score == b.score then a.index < b.index else a.score > b.score
  }

  /** Behind every element it does not come before: later equals stay later. */
  function Insert(before: Before, sorted: seq<Hit>, x: Hit): seq<Hit> {
    if sorted == [] || before(x, sorted[|sorted| - 1])
    then (if sorted == [] then [x] else Insert(before, sorted[..|sorted| - 1], x) + [sorted[|sorted| - 1]])
    else sorted + [x]
  }

  /** sort.SliceStable. */
  function StableSort(before: Before, hits: seq<Hit>): seq<Hit> {
    if hits == [] then [] else Insert(before, StableSort(before, hits[..|hits| - 1]), hits[|hits| - 1])
  }

  /** Moves the last of the first `n + 1` hits forward past those it comes before. */
  method MoveForward(before: Before, hits: array<Hit>, n: nat) returns (ghost j: nat)
    requires n < hits.Length
    modifies hits
    ensures j <= n && hits[j] == old(hits[n])
    ensures forall k :: 0 <= k < j || n < k < hits.Length ==> hits[k] == old(hits[k])
    ensures forall k :: j < k <= n ==> hits[k] == old(hits[k - 1]) && before(hits[j], hits[k])
    ensures j > 0 ==> !before(hits[j], hits[j - 1])
  {
    var i := n;
    while i > 0 && before(hits[i], hits[i - 1])
      invariant 0 <= i <= n && hits[i] == old(hits[n])
      invariant forall k :: 0 <= k < i || n < k < hits.Length ==> hits[k] == old(hits[k])
      invariant forall k :: i < k <= n ==> hits[k] == old(hits[k - 1]) && before(hits[i], hits[k])
    {
      hits[i], hits[i - 1] := hits[i - 1], hits[i];
      i := i - 1;
    }
    j := i;
  }

  /** The place an insertion finds. */
  lemma {:induction false} InsertAt(before: Before, sorted: seq<Hit>, x: Hit, j: nat)
    requires j <= |sorted| && (j > 0 ==> !before(x, sorted[j - 1]))
    requires forall k :: j <= k < |sorted| ==> before(x, sorted[k])
    ensures Insert(before, sorted, x) == sorted[..j] + [x] + sorted[j..]
  {
    if j < |sorted| {
      var front, last := sorted[..|sorted| - 1], sorted[|sorted| - 1];
      assert sorted == front + [last];
      InsertAt(before, front, x, j);
      WithLast(front, last, x, j);
    } else {
      assert sorted[..j] == sorted && sorted[j..] == [];
    }
  }

  lemma WithLast(front: seq<Hit>, last: Hit, x: Hit, j: nat)
    requires j <= |front|
    ensures front[..j] + [x] + front[j..] + [last] == (front + [last])[..j] + [x] + (front + [last])[j..]
  {
    assert (front + [last])[..j] == front[..j] && (front + [last])[j..] == front[j..] + [last];
  }

  lemma SameAsInserted(moved: seq<Hit>, sorted: seq<Hit>, x: Hit, j: nat)
    requires j <= |sorted| && |moved| == |sorted| + 1 && moved[j] == x
    requires forall k :: 0 <= k < j ==> moved[k] == sorted[k]
    requires forall k :: j < k < |moved| ==> moved[k] == sorted[k - 1]
    ensures moved == sorted[..j] + [x] + sorted[j..]
  {
    assert moved[..j] == sorted[..j];
    assert moved[j..j + 1] == [x];
    assert moved[j + 1..] == sorted[j..];
    assert moved == moved[..j] + moved[j..j + 1] + moved[j + 1..];
  }

  method InsertLast(before: Before, hits: array<Hit>, n: nat)
    requires n < hits.Length
    modifies hits
    ensures hits[..n + 1] == Insert(before, old(hits[..n]), old(hits[n]))
    ensures forall k :: n < k < hits.Length ==> hits[k] == old(hits[k])
  {
    ghost var sorted, x := hits[..n], hits[n];
    ghost var j := MoveForward(before, hits, n);
    assert forall k :: j <= k < n ==> sorted[k] == hits[k + 1];
    InsertAt(before, sorted, x, j);
    SameAsInserted(hits[..n + 1], sorted, x, j);
  }

  /** sort.SliceStable, in place: an insertion sort, which is stable. */
  method SortStable(before: Before, hits: array<Hit>)
    modifies hits
    ensures hits[..] == StableSort(before, old(hits[..]))
  {
    ghost var given := hits[..];
    for i := 0 to hits.Length
      invariant hits[..i] == StableSort(before, given[..i])
      invariant forall k :: i <= k < hits.Length ==> hits[k] == given[k]
    {
      assert given[..i + 1][..i] == given[..i];
      InsertLast(before, hits, i);
    }
    assert given[..hits.Length] == given && hits[..hits.Length] == hits[..];
  }

  ghost predicate IsSorted(before: Before, hits: seq<Hit>) {
    forall i, j :: 0 <= i < j < |hits| ==> !before(hits[j], hits[i])
  }

  /** "Not before" is transitive and nothing comes before itself both ways. */
  ghost predicate WeakOrder(before: Before) {
    && (forall x, y :: before(x, y) ==> !before(y, x))
    && (forall x, y, z :: !before(y, x) && !before(z, y) ==> !before(z, x))
  }

  lemma {:induction false} InsertKeepsAll(before: Before, sorted: seq<Hit>, x: Hit)
    ensures multiset(Insert(before, sorted, x)) == multiset(sorted) + multiset{x}
    ensures |Insert(before, sorted, x)| == |sorted| + 1
  {
    if sorted != [] {
      var n := |sorted| - 1;
      assert sorted == sorted[..n] + [sorted[n]];
      if before(x, sorted[n]) {
        InsertKeepsAll(before, sorted[..n], x);
      }
    }
  }

  lemma LastStaysLast(before: Before, front: seq<Hit>, inserted: seq<Hit>, x: Hit, last: Hit)
    requires multiset(inserted) == multiset(front) + multiset{x}
    requires IsSorted(before, inserted) && !before(last, x)
    requires forall i :: 0 <= i < |front| ==> !before(last, front[i])
    ensures IsSorted(before, inserted + [last])
  {
    forall i | 0 <= i < |inserted|
      ensures !before(last, inserted[i])
    {
      assert inserted[i] in multiset(front) + multiset{x};
      assert inserted[i] == x || inserted[i] in front;
    }
  }

  lemma {:induction false} InsertSorts(before: Before, sorted: seq<Hit>, x: Hit)
    requires WeakOrder(before) && IsSorted(before, sorted)
    ensures IsSorted(before, Insert(before, sorted, x))
  {
    if sorted != [] && before(x, sorted[|sorted| - 1]) {
      var front, last := sorted[..|sorted| - 1], sorted[|sorted| - 1];
      InsertSorts(before, front, x);
      InsertKeepsAll(before, front, x);
      LastStaysLast(before, front, Insert(before, front, x), x, last);
    } else if sorted != [] {
      var last := sorted[|sorted| - 1];
      forall i | 0 <= i < |sorted|
        ensures !before(x, sorted[i])
      {
        assert !before(last, sorted[i]);
      }
    }
  }

  lemma {:induction false} SortPermutes(before: Before, hits: seq<Hit>)
    ensures multiset(StableSort(before, hits)) == multiset(hits) && |StableSort(before, hits)| == |hits|
  {
    if hits != [] {
      var n := |hits| - 1;
      SortPermutes(before, hits[..n]);
      InsertKeepsAll(before, StableSort(before, hits[..n]), hits[n]);
      assert hits == hits[..n] + [hits[n]];
    }
  }

  lemma {:induction false} SortSorts(before: Before, hits: seq<Hit>)
    requires WeakOrder(before)
    ensures IsSorted(before, StableSort(before, hits))
  {
    if hits != [] {
      SortSorts(before, hits[..|hits| - 1]);
      InsertSorts(before, StableSort(before, hits[..|hits| - 1]), hits[|hits| - 1]);
    }
  }

  /** The hits that rank level with one hit, in list order. */
  function Peers(before: Before, hits: seq<Hit>, level: Hit): seq<Hit> {
    if hits == [] then []
    else
      var last := hits[|hits| - 1];
      Peers(before, hits[..|hits| - 1], level) + (if before(last, level) || before(level, last) then [] else [last])
  }

  lemma PeersStep(before: Before, hits: seq<Hit>, x: Hit, level: Hit)
    ensures Peers(before, hits + [x], level) == Peers(before, hits, level) + Peers(before, [x], level)
  {
    assert (hits + [x])[..|hits|] == hits && [x][..0] == [];
  }

  lemma {:induction false} InsertIsStable(before: Before, sorted: seq<Hit>, x: Hit, level: Hit)
    requires WeakOrder(before)
    ensures Peers(before, Insert(before, sorted, x), level)
         == Peers(before, sorted, level) + Peers(before, [x], level)
  {
    if sorted != [] && before(x, sorted[|sorted| - 1]) {
      var front, last := sorted[..|sorted| - 1], sorted[|sorted| - 1];
      InsertIsStable(before, front, x, level);
      PeersStep(before, Insert(before, front, x), last, level);
      assert Peers(before, [x], level) == [] || Peers(before, [last], level) == [] by {
        assert [x][..0] == [] && [last][..0] == [];
      }
      assert sorted == front + [last];
      PeersStep(before, front, last, level);
    } else {
      PeersStep(before, sorted, x, level);
    }
  }

  /** Sorting keeps hits that rank level in their order. */
  lemma {:induction false} SortIsStable(before: Before, hits: seq<Hit>, level: Hit)
    requires WeakOrder(before)
    ensures Peers(before, StableSort(before, hits), level) == Peers(before, hits, level)
  {
    if hits != [] {
      var n := |hits| - 1;
      SortIsStable(before, hits[..n], level);
      InsertIsStable(before, StableSort(before, hits[..n]), hits[n], level);
      assert hits == hits[..n] + [hits[n]];
      PeersStep(before, hits[..n], hits[n], level);
    }
  }

  lemma ScoreOrders()
    ensures WeakOrder(ByScore) && WeakOrder(ByScoreThenIndex)
  {
  }

  function MaxReal(a: real, b: real): real { if a > b then a else b }

  function MinReal(a: real, b: real): real { if a < b then a else b }
}
