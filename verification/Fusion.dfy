/** Score fusion (retrieval/scoring.go): min-max normalisation of two result lists, merging by chunk id,
    and the candidate limit.  Scores are reals. */
module Fusion {
  import opened Ranking

  // ----- Normalisation -----

  function MaxRaw(hits: seq<Hit>): real
    requires hits != []
  {
    if |hits| == 1 then hits[0].rawScore else MaxReal(MaxRaw(hits[..|hits| - 1]), hits[|hits| - 1].rawScore)
  }

  function MinRaw(hits: seq<Hit>): real
    requires hits != []
  {
    if |hits| == 1 then hits[0].rawScore else MinReal(MinRaw(hits[..|hits| - 1]), hits[|hits| - 1].rawScore)
  }

  function Scaled(raw: real, low: real, high: real): real {
    if high == low then 1.0 else (raw - low) / (high - low)
  }

  function Rescored(hit: Hit, low: real, high: real): Hit {
    hit.(score := Scaled(hit.rawScore, low, high))
  }

  function Normalized(hits: seq<Hit>): (r: seq<Hit>)
    ensures |r| == |hits|
  {
    if hits == [] then []
    else seq(|hits|, i requires 0 <= i < |hits| => Rescored(hits[i], MinRaw(hits), MaxRaw(hits)))
  }

  method Extremes(hits: array<Hit>) returns (high: real, low: real)
    requires hits.Length > 0
    ensures high == MaxRaw(hits[..]) && low == MinRaw(hits[..])
  {
    high, low := hits[0].rawScore, hits[0].rawScore;
    for i := 1 to hits.Length
      invariant high == MaxRaw(hits[..i]) && low == MinRaw(hits[..i])
    {
      assert hits[..i + 1][..i] == hits[..i];
      high, low := MaxReal(high, hits[i].rawScore), MinReal(low, hits[i].rawScore);
    }
    assert hits[..hits.Length] == hits[..];
  }

  method NormalizeGroup(hits: array<Hit>)
    modifies hits
    ensures hits[..] == Normalized(old(hits[..]))
  {
    if hits.Length == 0 {
      return;
    }
    var high, low := Extremes(hits);
    for i := 0 to hits.Length
      invariant forall k :: 0 <= k < i ==> hits[k] == Rescored(old(hits[k]), low, high)
      invariant forall k :: i <= k < hits.Length ==> hits[k] == old(hits[k])
    {
      if high == low {
        hits[i] := hits[i].(score := 1.0);
      } else {
        hits[i] := hits[i].(score := (hits[i].rawScore - low) / (high - low));
      }
    }
  }

  method NormalizeScores(vectors: array<Hit>, keywords: array<Hit>)
    requires vectors != keywords
    modifies vectors, keywords
    ensures vectors[..] == Normalized(old(vectors[..])) && keywords[..] == Normalized(old(keywords[..]))
  {
    NormalizeGroup(vectors);
    NormalizeGroup(keywords);
  }

  lemma {:induction false} RawExtremes(hits: seq<Hit>)
    requires hits != []
    ensures forall i :: 0 <= i < |hits| ==> MinRaw(hits) <= hits[i].rawScore <= MaxRaw(hits)
    ensures exists i :: 0 <= i < |hits| && hits[i].rawScore == MaxRaw(hits)
    ensures exists i :: 0 <= i < |hits| && hits[i].rawScore == MinRaw(hits)
  {
    var n := |hits| - 1;
    assert |hits| == 1 ==> hits[n].rawScore == MaxRaw(hits) == MinRaw(hits);
    if |hits| > 1 {
      var front := hits[..n];
      RawExtremes(front);
      var top :| 0 <= top < |front| && front[top].rawScore == MaxRaw(front);
      var bottom :| 0 <= bottom < |front| && front[bottom].rawScore == MinRaw(front);
      assert hits[top] == front[top] && hits[bottom] == front[bottom];
      assert MaxRaw(hits) == hits[top].rawScore || MaxRaw(hits) == hits[n].rawScore;
      assert MinRaw(hits) == hits[bottom].rawScore || MinRaw(hits) == hits[n].rawScore;
      assert forall i :: 0 <= i < |front| ==> hits[i] == front[i];
    }
  }

  lemma ScalingKeepsOrder(x: real, y: real, d: real)
    requires 0.0 < d
    ensures x < y <==> x * d < y * d
  {
  }

  lemma DivideKeepsOrder(a: real, b: real, d: real)
    requires 0.0 < d
    ensures a < b <==> a / d < b / d
  {
    var x, y := a / d, b / d;
    assert x * d == a && y * d == b;
    ScalingKeepsOrder(x, y, d);
  }

  lemma ScaledBounds(raw: real, low: real, high: real)
    requires low <= raw <= high
    ensures 0.0 <= Scaled(raw, low, high) <= 1.0
  {
    if low < high {
      DivideKeepsOrder(raw - low, 0.0, high - low);
      DivideKeepsOrder(high - low, raw - low, high - low);
    }
  }

  lemma ScaledKeepsOrder(a: real, b: real, low: real, high: real)
    requires low <= a <= high && low <= b <= high
    ensures a < b <==> Scaled(a, low, high) < Scaled(b, low, high)
  {
    if low < high {
      DivideKeepsOrder(a - low, b - low, high - low);
    }
  }

  lemma DivideBySelf(d: real)
    requires 0.0 < d
    ensures d / d == 1.0
  {
    var x := d / d;
    assert x * d == d;
    ScalingKeepsOrder(x, 1.0, d);
    ScalingKeepsOrder(1.0, x, d);
  }

  lemma ScaledTop(low: real, high: real)
    requires low <= high
    ensures Scaled(high, low, high) == 1.0
  {
    if low < high {
      DivideBySelf(high - low);
    }
  }

  /** After normalising, scores lie in [0, 1], raw-score order is kept (strictly, both ways), a best hit
      scores 1, and nothing but the score has changed. */
  lemma NormalizedKeepsOrder(hits: seq<Hit>, i: nat, j: nat)
    requires i < |hits| && j < |hits|
    ensures var r := Normalized(hits);
            && 0.0 <= r[i].score <= 1.0
            && (hits[i].rawScore < hits[j].rawScore <==> r[i].score < r[j].score)
            && (hits[i].rawScore == MaxRaw(hits) ==> r[i].score == 1.0)
            && r[i] == hits[i].(score := r[i].score)
  {
    RawExtremes(hits);
    ScaledBounds(hits[i].rawScore, MinRaw(hits), MaxRaw(hits));
    ScaledKeepsOrder(hits[i].rawScore, hits[j].rawScore, MinRaw(hits), MaxRaw(hits));
    ScaledTop(MinRaw(hits), MaxRaw(hits));
  }

  lemma ScaledTimesRange(raw: real, low: real, high: real)
    requires low < high
    ensures Scaled(raw, low, high) * (high - low) == raw - low
  {
  }

  /** Normalising is the linear map that takes the worst raw score to 0 and the best one to 1; when they
      are level every hit scores 1. */
  lemma NormalizedIsLinear(hits: seq<Hit>, worst: nat, best: nat, i: nat)
    requires worst < |hits| && best < |hits| && i < |hits|
    requires forall k :: 0 <= k < |hits| ==> hits[worst].rawScore <= hits[k].rawScore <= hits[best].rawScore
    ensures var r, low, high := Normalized(hits), hits[worst].rawScore, hits[best].rawScore;
            if low == high then r[i].score == 1.0
            else r[i].score * (high - low) == hits[i].rawScore - low && r[worst].score == 0.0 && r[best].score == 1.0
  {
    var low, high := hits[worst].rawScore, hits[best].rawScore;
    ExtremesAre(hits, worst, best);
    ScaledIsLinear(hits[i].rawScore, low, high);
  }

  lemma ExtremesAre(hits: seq<Hit>, worst: nat, best: nat)
    requires worst < |hits| && best < |hits|
    requires forall k :: 0 <= k < |hits| ==> hits[worst].rawScore <= hits[k].rawScore <= hits[best].rawScore
    ensures MinRaw(hits) == hits[worst].rawScore && MaxRaw(hits) == hits[best].rawScore
  {
    RawExtremes(hits);
  }

  lemma ScaledIsLinear(raw: real, low: real, high: real)
    requires low <= raw <= high
    ensures if low == high then Scaled(raw, low, high) == 1.0
            else Scaled(raw, low, high) * (high - low) == raw - low && Scaled(low, low, high) == 0.0
                 && Scaled(high, low, high) == 1.0
  {
    if low < high {
      ScaledTimesRange(raw, low, high);
      ScaledTop(low, high);
    }
  }

  // ----- Merging -----

  function Clamp01(value: real): real {
    MaxReal(0.0, MinReal(1.0, value))
  }

  /** Position of the hit with this id, or the length when there is none. */
  function IndexOf(hits: seq<Hit>, id: string): (i: nat)
    ensures i <= |hits| && (i < |hits| ==> hits[i].id == id) && forall k :: 0 <= k < i ==> hits[k].id != id
  {
    if hits == [] then 0 else if hits[0].id == id then 0 else 1 + IndexOf(hits[1..], id)
  }

  function Fused(a: Hit, b: Hit): Hit {
    a.(score := Clamp01(MaxReal(a.score, b.score) + 0.10), rawScore := MaxReal(a.rawScore, b.rawScore),
       source := Hybrid)
  }

  function FoldIn(merged: seq<Hit>, hit: Hit): seq<Hit> {
    var i := IndexOf(merged, hit.id);
    if i < |merged| then merged[i := Fused(merged[i], hit)] else merged + [hit]
  }

  function MergeAll(hits: seq<Hit>): seq<Hit> {
    if hits == [] then [] else FoldIn(MergeAll(hits[..|hits| - 1]), hits[|hits| - 1])
  }

  ghost predicate DistinctIds(hits: seq<Hit>) {
    forall i, j :: 0 <= i < j < |hits| ==> hits[i].id != hits[j].id
  }

  /** The index map of the source: exactly the ids merged so far, each with its position. */
  ghost predicate Indexes(positions: map<string, nat>, merged: seq<Hit>) {
    && (forall id :: id in positions ==> positions[id] < |merged| && merged[positions[id]].id == id)
    && (forall i :: 0 <= i < |merged| ==> merged[i].id in positions)
    && DistinctIds(merged)
  }

  lemma MergeAllStep(hits: seq<Hit>, hit: Hit)
    ensures MergeAll(hits + [hit]) == FoldIn(MergeAll(hits), hit)
  {
    assert (hits + [hit])[..|hits|] == hits;
  }

  /** Looking an id up in the index map finds its position. */
  lemma IndexFinds(positions: map<string, nat>, merged: seq<Hit>, id: string)
    requires Indexes(positions, merged)
    ensures if id in positions then positions[id] == IndexOf(merged, id) < |merged| else IndexOf(merged, id) == |merged|
  {
  }

  lemma IndexesAppend(positions: map<string, nat>, merged: seq<Hit>, hit: Hit)
    requires Indexes(positions, merged) && hit.id !in positions
    ensures Indexes(positions[hit.id := |merged|], merged + [hit])
  {
  }

  lemma IndexesUpdate(positions: map<string, nat>, merged: seq<Hit>, i: nat, hit: Hit)
    requires Indexes(positions, merged) && i < |merged| && hit.id == merged[i].id
    ensures Indexes(positions, merged[i := hit])
  {
  }

  /** One turn of the merging loop. */
  method MergeHit(hit: Hit, indexById: map<string, nat>, merged: seq<Hit>)
    returns (indexById': map<string, nat>, merged': seq<Hit>)
    requires Indexes(indexById, merged)
    ensures merged' == FoldIn(merged, hit) && Indexes(indexById', merged')
  {
    IndexFinds(indexById, merged, hit.id);
    if hit.id in indexById {
      var index := indexById[hit.id];
      var found := merged[index];
      found := found.(
        score := Clamp01(MaxReal(found.score, hit.score) + 0.10),
        rawScore := MaxReal(found.rawScore, hit.rawScore),
        source := Hybrid);
      IndexesUpdate(indexById, merged, index, found);
      merged' := merged[index := found];
      indexById' := indexById;
    } else {
      IndexesAppend(indexById, merged, hit);
      indexById' := indexById[hit.id := |merged|];
      merged' := merged + [hit];
    }
  }

  lemma OneMore<T>(done: seq<T>, rest: seq<T>, k: nat)
    requires k < |rest|
    ensures done + rest[..k + 1] == done + rest[..k] + [rest[k]]
  {
  }

  method MergeList(hits: seq<Hit>, ghost done: seq<Hit>, indexById: map<string, nat>, merged: seq<Hit>)
    returns (indexById': map<string, nat>, merged': seq<Hit>)
    requires merged == MergeAll(done) && Indexes(indexById, merged)
    ensures merged' == MergeAll(done + hits) && Indexes(indexById', merged')
  {
    indexById', merged' := indexById, merged;
    ghost var seen := done;
    for k := 0 to |hits|
      invariant seen == done + hits[..k]
      invariant merged' == MergeAll(seen) && Indexes(indexById', merged')
    {
      MergeAllStep(seen, hits[k]);
      OneMore(done, hits, k);
      indexById', merged' := MergeHit(hits[k], indexById', merged');
      seen := seen + [hits[k]];
    }
    assert hits[..|hits|] == hits;
  }

  method MergeHits(primary: seq<Hit>, secondary: seq<Hit>) returns (merged: seq<Hit>)
    ensures merged == MergeAll(primary + secondary)
  {
    var indexById: map<string, nat> := map[];
    merged := [];
    indexById, merged := MergeList(primary, [], indexById, merged);
    assert [] + primary == primary;
    indexById, merged := MergeList(secondary, primary, indexById, merged);
  }

  ghost predicate ScoresInUnit(hits: seq<Hit>) {
    forall i :: 0 <= i < |hits| ==> 0.0 <= hits[i].score <= 1.0
  }

  function Ids(hits: seq<Hit>): set<string> {
    set i | 0 <= i < |hits| :: hits[i].id
  }

  /** The merged hit of an input has its id and scores at least as high. */
  ghost predicate CoveredBy(hit: Hit, merged: seq<Hit>) {
    var k := IndexOf(merged, hit.id);
    k < |merged| && hit.score <= merged[k].score && hit.rawScore <= merged[k].rawScore
  }

  lemma FoldedIds(merged: seq<Hit>, hit: Hit)
    requires DistinctIds(merged)
    ensures DistinctIds(FoldIn(merged, hit)) && Ids(FoldIn(merged, hit)) == Ids(merged) + {hit.id}
  {
    var r := FoldIn(merged, hit);
    var at := IndexOf(merged, hit.id);
    forall id | id in Ids(merged) + {hit.id}
      ensures id in Ids(r)
    {
      if id == hit.id {
        assert r[at].id == id;
      } else {
        var i :| 0 <= i < |merged| && merged[i].id == id;
        assert r[i].id == id;
      }
    }
    forall id | id in Ids(r)
      ensures id in Ids(merged) + {hit.id}
    {
      var i :| 0 <= i < |r| && r[i].id == id;
      assert i < |merged| ==> merged[i].id == id;
    }
  }

  lemma {:induction false} MergedIds(hits: seq<Hit>)
    ensures DistinctIds(MergeAll(hits)) && Ids(MergeAll(hits)) == Ids(hits)
  {
    if hits != [] {
      var n := |hits| - 1;
      MergedIds(hits[..n]);
      FoldedIds(MergeAll(hits[..n]), hits[n]);
      assert Ids(hits) == Ids(hits[..n]) + {hits[n].id};
    }
  }

  /** Merging one more hit keeps every earlier one covered where it was. */
  lemma CoveredStays(merged: seq<Hit>, hit: Hit, earlier: Hit)
    requires ScoresInUnit(merged) && CoveredBy(earlier, merged)
    ensures CoveredBy(earlier, FoldIn(merged, hit))
  {
    var k, at := IndexOf(merged, earlier.id), IndexOf(merged, hit.id);
    var r := FoldIn(merged, hit);
    assert r[k].id == earlier.id;
    assert forall i :: 0 <= i < k ==> r[i].id == merged[i].id;
    assert IndexOf(r, earlier.id) == k;
  }

  lemma NewlyCovered(merged: seq<Hit>, hit: Hit)
    requires ScoresInUnit(merged) && 0.0 <= hit.score <= 1.0
    ensures CoveredBy(hit, FoldIn(merged, hit)) && ScoresInUnit(FoldIn(merged, hit))
  {
    var at := IndexOf(merged, hit.id);
    var r := FoldIn(merged, hit);
    assert r[at].id == hit.id;
    assert forall i :: 0 <= i < at ==> r[i].id == merged[i].id;
    assert IndexOf(r, hit.id) == at;
  }

  ghost predicate AllCovered(hits: seq<Hit>, merged: seq<Hit>) {
    forall i :: 0 <= i < |hits| ==> CoveredBy(hits[i], merged)
  }

  lemma OneMoreCovered(hits: seq<Hit>, merged: seq<Hit>, hit: Hit)
    requires ScoresInUnit(merged) && AllCovered(hits, merged) && 0.0 <= hit.score <= 1.0
    ensures ScoresInUnit(FoldIn(merged, hit)) && AllCovered(hits + [hit], FoldIn(merged, hit))
  {
    NewlyCovered(merged, hit);
    forall i | 0 <= i < |hits|
      ensures CoveredBy(hits[i], FoldIn(merged, hit))
    {
      CoveredStays(merged, hit, hits[i]);
    }
  }

  lemma {:induction false} MergedScores(hits: seq<Hit>)
    requires ScoresInUnit(hits)
    ensures ScoresInUnit(MergeAll(hits))
    ensures forall i :: 0 <= i < |hits| ==> CoveredBy(hits[i], MergeAll(hits))
  {
    if hits != [] {
      var front, last := hits[..|hits| - 1], hits[|hits| - 1];
      MergedScores(front);
      OneMoreCovered(front, MergeAll(front), last);
      assert hits == front + [last];
    }
  }

  /** A hit whose id appears once among the inputs is passed on as it is. */
  lemma {:induction false} LoneHitUnchanged(hits: seq<Hit>, i: nat)
    requires i < |hits| && forall j :: 0 <= j < |hits| && j != i ==> hits[j].id != hits[i].id
    ensures hits[i] in MergeAll(hits)
  {
    var n := |hits| - 1;
    var earlier := MergeAll(hits[..n]);
    MergedIds(hits[..n]);
    if i < n {
      LoneHitUnchanged(hits[..n], i);
      LoneStays(earlier, hits[n], hits[i]);
    } else {
      assert hits[n].id !in Ids(hits[..n]);
      LoneArrives(earlier, hits[n]);
    }
  }

  lemma LoneStays(merged: seq<Hit>, hit: Hit, lone: Hit)
    requires lone in merged && lone.id != hit.id
    ensures lone in FoldIn(merged, hit)
  {
    var k :| 0 <= k < |merged| && merged[k] == lone;
    assert FoldIn(merged, hit)[k] == lone;
  }

  lemma LoneArrives(merged: seq<Hit>, hit: Hit)
    requires hit.id !in Ids(merged)
    ensures hit in FoldIn(merged, hit)
  {
    assert forall k :: 0 <= k < |merged| ==> merged[k].id in Ids(merged);
  }

  /** The earlier hit with the better raw score, a score 0.1 above the better one within [0, 1], and both
      lists as its source. */
  ghost predicate Boosted(earlier: Hit, later: Hit, m: Hit) {
    var best := if earlier.score < later.score then later.score else earlier.score;
    && m == earlier.(score := m.score, rawScore := m.rawScore, source := m.source)
    && m.source == Hybrid
    && earlier.rawScore <= m.rawScore && later.rawScore <= m.rawScore
    && (m.rawScore == earlier.rawScore || m.rawScore == later.rawScore)
    && (0.0 <= best <= 0.9 ==> m.score == best + 0.1)
    && (0.9 < best ==> m.score == 1.0)
  }

  /** A chunk found twice and no more is passed on once, boosted. */
  lemma {:induction false} FoundTwice(hits: seq<Hit>, i: nat, j: nat)
    requires i < j < |hits| && hits[i].id == hits[j].id
    requires forall k :: 0 <= k < |hits| && k != i && k != j ==> hits[k].id != hits[i].id
    ensures Fused(hits[i], hits[j]) in MergeAll(hits) && Boosted(hits[i], hits[j], Fused(hits[i], hits[j]))
  {
    var n := |hits| - 1;
    var earlier := MergeAll(hits[..n]);
    if j < n {
      FoundTwice(hits[..n], i, j);
      LoneStays(earlier, hits[n], Fused(hits[i], hits[j]));
    } else {
      MergedIds(hits[..n]);
      LoneHitUnchanged(hits[..n], i);
      LoneMeets(earlier, hits[i], hits[n]);
    }
  }

  lemma LoneMeets(merged: seq<Hit>, lone: Hit, hit: Hit)
    requires DistinctIds(merged) && lone in merged && lone.id == hit.id
    ensures Fused(lone, hit) in FoldIn(merged, hit)
  {
    var at := IndexOf(merged, hit.id);
    var k :| 0 <= k < |merged| && merged[k] == lone;
    assert at == k;
    assert FoldIn(merged, hit)[k] == Fused(lone, hit);
  }

  // ----- Candidate limit -----

  function LimitCandidates(hits: seq<Hit>, limit: int): seq<Hit> {
    if limit <= 0 || |hits| <= limit then hits
    else
      SortPermutes(ByScore, hits);
      StableSort(ByScore, hits)[..limit]
  }

  method LimitInPlace(chunks: array<Hit>, limit: int) returns (kept: seq<Hit>)
    modifies chunks
    ensures kept == LimitCandidates(old(chunks[..]), limit)
    ensures multiset(chunks[..]) == multiset(old(chunks[..]))
  {
    if limit <= 0 || chunks.Length <= limit {
      return chunks[..];
    }
    SortStable(ByScore, chunks);
    SortPermutes(ByScore, old(chunks[..]));
    kept := chunks[..limit];
  }

  /** The limit drops nothing while there is room; otherwise it keeps exactly `limit` hits, and every
      kept hit scores at least as high as every dropped one. */
  lemma LimitKeepsBest(hits: seq<Hit>, limit: int) returns (dropped: seq<Hit>)
    ensures var kept := LimitCandidates(hits, limit);
            && multiset(hits) == multiset(kept) + multiset(dropped)
            && |kept| == (if limit <= 0 || |hits| <= limit then |hits| else limit)
            && (forall k, d :: k in kept && d in dropped ==> d.score <= k.score)
  {
    if limit <= 0 || |hits| <= limit {
      dropped := [];
    } else {
      var sorted := StableSort(ByScore, hits);
      SortPermutes(ByScore, hits);
      ScoreOrders();
      SortSorts(ByScore, hits);
      dropped := sorted[limit..];
      assert sorted == sorted[..limit] + sorted[limit..];
      forall k, d | k in sorted[..limit] && d in dropped
        ensures d.score <= k.score
      {
        var i :| 0 <= i < limit && sorted[i] == k;
        var j :| 0 <= j < |dropped| && dropped[j] == d;
        assert !ByScore(sorted[limit + j], sorted[i]);
      }
    }
  }

  // ----- The whole fusion -----

  /** Fusion of a vector and a keyword result list, as the search service runs it. */
  function Candidates(vectors: seq<Hit>, keywords: seq<Hit>): seq<Hit> {
    MergeAll(Normalized(keywords) + Normalized(vectors))
  }

  method Fuse(vectors: array<Hit>, keywords: array<Hit>, limit: int) returns (candidates: seq<Hit>)
    requires vectors != keywords
    modifies vectors, keywords
    ensures candidates == LimitCandidates(Candidates(old(vectors[..]), old(keywords[..])), limit)
  {
    NormalizeScores(vectors, keywords);
    var merged := MergeHits(keywords[..], vectors[..]);
    var chunks := new Hit[|merged|](i requires 0 <= i < |merged| => merged[i]);
    assert chunks[..] == merged;
    candidates := LimitInPlace(chunks, limit);
  }

  /** Before the limit: ids are distinct and exactly those of the two lists, scores lie in [0, 1], and a
      hit scores at least what normalisation gave it in each list it was found in. */
  lemma FusionIsSound(vectors: seq<Hit>, keywords: seq<Hit>)
    ensures var merged := Candidates(vectors, keywords);
            && DistinctIds(merged) && ScoresInUnit(merged)
            && Ids(merged) == Ids(keywords) + Ids(vectors)
            && (forall i :: 0 <= i < |vectors| ==> CoveredBy(Normalized(vectors)[i], merged))
            && (forall i :: 0 <= i < |keywords| ==> CoveredBy(Normalized(keywords)[i], merged))
  {
    var k, v := Normalized(keywords), Normalized(vectors);
    NormalizedInUnit(keywords);
    NormalizedInUnit(vectors);
    MergedIds(k + v);
    MergedScores(k + v);
    IdsOfBoth(k, v);
    BothCovered(k, v, MergeAll(k + v));
  }

  lemma NormalizedIds(hits: seq<Hit>)
    requires DistinctIds(hits)
    ensures DistinctIds(Normalized(hits)) && forall i :: 0 <= i < |hits| ==> Normalized(hits)[i].id == hits[i].id
  {
  }

  /** A chunk found in both lists is passed on once, boosted, as the keyword hit; one found in one list only
      is passed on with its normalised score. */
  lemma FusionBoosts(vectors: seq<Hit>, keywords: seq<Hit>, i: nat)
    requires DistinctIds(vectors) && DistinctIds(keywords) && i < |keywords|
    ensures var k, v := Normalized(keywords), Normalized(vectors);
            var j := IndexOf(v, keywords[i].id);
            if j < |vectors| then exists m :: m in Candidates(vectors, keywords) && Boosted(k[i], v[j], m)
            else k[i] in Candidates(vectors, keywords)
  {
    var k, v := Normalized(keywords), Normalized(vectors);
    NormalizedIds(keywords);
    NormalizedIds(vectors);
    var j := IndexOf(v, keywords[i].id);
    var all := k + v;
    if j < |vectors| {
      OnlyTwo(k, v, i, j);
      FoundTwice(all, i, |k| + j);
      assert all[|k| + j] == v[j];
    } else {
      assert forall x :: 0 <= x < |v| ==> v[x].id != keywords[i].id;
      LoneHitUnchanged(all, i);
    }
  }

  lemma OnlyTwo(k: seq<Hit>, v: seq<Hit>, i: nat, j: nat)
    requires DistinctIds(k) && DistinctIds(v) && i < |k| && j < |v| && k[i].id == v[j].id
    ensures forall x :: 0 <= x < |k + v| && x != i && x != |k| + j ==> (k + v)[x].id != k[i].id
  {
    forall x | 0 <= x < |k + v| && x != i && x != |k| + j
      ensures (k + v)[x].id != k[i].id
    {
      if x < |k| {
        assert x < i || i < x;
      } else {
        assert x - |k| < j || j < x - |k|;
      }
    }
  }

  /** And a vector hit that is no keyword hit is passed on with its normalised score. */
  lemma FusionKeepsLone(vectors: seq<Hit>, keywords: seq<Hit>, j: nat)
    requires DistinctIds(vectors) && j < |vectors|
    requires forall i :: 0 <= i < |keywords| ==> keywords[i].id != vectors[j].id
    ensures Normalized(vectors)[j] in Candidates(vectors, keywords)
  {
    var k, v := Normalized(keywords), Normalized(vectors);
    NormalizedIds(vectors);
    assert forall i :: 0 <= i < |k| ==> k[i].id == keywords[i].id;
    assert (k + v)[|k| + j] == v[j];
    forall x | 0 <= x < |k + v| && x != |k| + j
      ensures (k + v)[x].id != v[j].id
    {
      assert x >= |k| ==> x - |k| < j || j < x - |k|;
    }
    LoneHitUnchanged(k + v, |k| + j);
  }

  lemma BothCovered(a: seq<Hit>, b: seq<Hit>, merged: seq<Hit>)
    requires forall i :: 0 <= i < |a + b| ==> CoveredBy((a + b)[i], merged)
    ensures forall i :: 0 <= i < |a| ==> CoveredBy(a[i], merged)
    ensures forall i :: 0 <= i < |b| ==> CoveredBy(b[i], merged)
  {
    forall i | 0 <= i < |b|
      ensures CoveredBy(b[i], merged)
    {
      assert (a + b)[|a| + i] == b[i];
    }
    forall i | 0 <= i < |a|
      ensures CoveredBy(a[i], merged)
    {
      assert (a + b)[i] == a[i];
    }
  }

  lemma NormalizedInUnit(hits: seq<Hit>)
    ensures ScoresInUnit(Normalized(hits)) && Ids(Normalized(hits)) == Ids(hits)
  {
    forall i | 0 <= i < |hits|
      ensures 0.0 <= Normalized(hits)[i].score <= 1.0 && Normalized(hits)[i].id == hits[i].id
    {
      NormalizedKeepsOrder(hits, i, i);
    }
    assert forall id :: id in Ids(hits) <==> id in Ids(Normalized(hits));
  }

  lemma IdsOfBoth(a: seq<Hit>, b: seq<Hit>)
    ensures Ids(a + b) == Ids(a) + Ids(b)
  {
    forall id | id in Ids(a) + Ids(b)
      ensures id in Ids(a + b)
    {
      if i :| 0 <= i < |a| && a[i].id == id {
        assert (a + b)[i].id == id;
      } else {
        var i :| 0 <= i < |b| && b[i].id == id;
        assert (a + b)[|a| + i].id == id;
      }
    }
  }
}
