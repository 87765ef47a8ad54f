/** Citation trimming (retrieval/citations.go): threshold, caps and duplicates first, then merging of
    neighbouring chunks. */
module Trimming {
  import opened Ranking
  import opened Text

  // ----- Policy -----

  datatype Policy = Policy(limit: int, absolute: real, relative: real, perDocument: int)

  ghost predicate Usable(policy: Policy) {
    policy.limit >= 1 && policy.absolute > 0.0 && 0.0 < policy.relative <= 1.0 && policy.perDocument >= 1
  }

  /** Keeps every field that can be used; the others get their defaults. */
  function NormalizePolicy(policy: Policy): (r: Policy)
    ensures Usable(r)
    ensures Usable(policy) ==> r == policy
    ensures r.limit == policy.limit || (policy.limit <= 0 && r.limit == 5)
    ensures r.absolute == policy.absolute || (policy.absolute <= 0.0 && r.absolute == 0.35)
    ensures r.relative == policy.relative || (!(0.0 < policy.relative <= 1.0) && r.relative == 0.72)
    ensures r.perDocument == policy.perDocument || (policy.perDocument < 1 && r.perDocument == 3)
  {
    Policy(
      if policy.limit <= 0 then 5 else policy.limit,
      if policy.absolute <= 0.0 then 0.35 else policy.absolute,
      if policy.relative <= 0.0 || policy.relative > 1.0 then 0.72 else policy.relative,
      if policy.perDocument < 1 then 3 else policy.perDocument)
  }

  // ----- Selection -----

  /** normalizeText of the source: lower case, trimmed, without common punctuation. */
  type Simplify = string -> string

  function Signature(simplify: Simplify, hit: Hit): string {
    var content := simplify(hit.content);
    hit.document + "|" + simplify(hit.section) + "|" + (if |content| > 80 then content[..80] else content)
  }

  function Start80(s: string): string {
    if |s| > 80 then s[..80] else s
  }

  /** Within a document, signatures tell hits apart by simplified section and the first 80 characters of
      simplified content, unless a section holds the separator. */
  lemma SignatureMeans(simplify: Simplify, a: Hit, b: Hit)
    requires a.document == b.document && '|' !in simplify(a.section) && '|' !in simplify(b.section)
    ensures Signature(simplify, a) == Signature(simplify, b) <==>
            simplify(a.section) == simplify(b.section) && Start80(simplify(a.content)) == Start80(simplify(b.content))
  {
    SeparatorSplits(a.document + "|", simplify(a.section), Start80(simplify(a.content)),
                    simplify(b.section), Start80(simplify(b.content)));
  }

  lemma SeparatorSplits(prefix: string, section: string, content: string, section': string, content': string)
    requires '|' !in section && '|' !in section'
    ensures prefix + section + "|" + content == prefix + section' + "|" + content' <==>
            section == section' && content == content'
  {
    var s, s' := prefix + section + "|" + content, prefix + section' + "|" + content';
    if s == s' {
      var n, m := |prefix| + |section|, |prefix| + |section'|;
      assert s[n] == '|' && s'[m] == '|';
      assert forall i :: |prefix| <= i < n ==> s[i] == section[i - |prefix|];
      assert forall i :: |prefix| <= i < m ==> s'[i] == section'[i - |prefix|];
      assert n == m;
      assert section == s[|prefix|..n] && section' == s'[|prefix|..m];
      assert content == s[n + 1..] && content' == s'[m + 1..];
    }
  }

  function Signatures(simplify: Simplify, kept: seq<Hit>): set<string> {
    set i | 0 <= i < |kept| :: Signature(simplify, kept[i])
  }

  function DocumentCount(hits: seq<Hit>, document: string): nat {
    if hits == [] then 0
    else DocumentCount(hits[..|hits| - 1], document) + (if hits[|hits| - 1].document == document then 1 else 0)
  }

  function MinScore(policy: Policy, sorted: seq<Hit>): real
    requires sorted != []
  {
    MaxReal(policy.absolute, sorted[0].score * policy.relative)
  }

  /** Passed over although there is room and its score is good enough. */
  predicate Repetitive(simplify: Simplify, policy: Policy, kept: seq<Hit>, hit: Hit) {
    DocumentCount(kept, hit.document) >= policy.perDocument || Signature(simplify, hit) in Signatures(simplify, kept)
  }

  /** The loop ends here. */
  predicate Stops(policy: Policy, minScore: real, sorted: seq<Hit>, k: nat, kept: seq<Hit>) {
    k >= |sorted| || |kept| >= policy.limit || sorted[k].score < minScore
  }

  function Turn(simplify: Simplify, policy: Policy, kept: seq<Hit>, hit: Hit): seq<Hit> {
    if Repetitive(simplify, policy, kept, hit) then kept else kept + [hit]
  }

  function Walk(simplify: Simplify, policy: Policy, minScore: real, sorted: seq<Hit>, k: nat, kept: seq<Hit>): seq<Hit>
    decreases |sorted| - k
  {
    if Stops(policy, minScore, sorted, k, kept) then kept
    else Walk(simplify, policy, minScore, sorted, k + 1, Turn(simplify, policy, kept, sorted[k]))
  }

  function Select(simplify: Simplify, policy: Policy, sorted: seq<Hit>): seq<Hit>
    requires sorted != []
  {
    Walk(simplify, policy, MinScore(policy, sorted), sorted, 0, [])
  }

  /** The two maps of the source, for what has been kept so far. */
  ghost predicate Tallies(simplify: Simplify, seen: set<string>, counts: map<string, nat>, kept: seq<Hit>) {
    && seen == Signatures(simplify, kept)
    && (forall d :: (if d in counts then counts[d] else 0) == DocumentCount(kept, d))
  }

  lemma TalliesStep(simplify: Simplify, seen: set<string>, counts: map<string, nat>, kept: seq<Hit>, hit: Hit)
    requires Tallies(simplify, seen, counts, kept)
    ensures Tallies(simplify, seen + {Signature(simplify, hit)},
                    counts[hit.document := (if hit.document in counts then counts[hit.document] else 0) + 1],
                    kept + [hit])
  {
    assert (kept + [hit])[..|kept|] == kept;
    SignaturesStep(simplify, kept, hit);
    assert DocumentCount(kept, hit.document) == if hit.document in counts then counts[hit.document] else 0;
  }

  lemma SignaturesStep(simplify: Simplify, kept: seq<Hit>, hit: Hit)
    ensures Signatures(simplify, kept + [hit]) == Signatures(simplify, kept) + {Signature(simplify, hit)}
  {
    var more := kept + [hit];
    forall s | s in Signatures(simplify, kept) + {Signature(simplify, hit)}
      ensures s in Signatures(simplify, more)
    {
      if s == Signature(simplify, hit) {
        assert more[|kept|] == hit;
      } else {
        var i :| 0 <= i < |kept| && Signature(simplify, kept[i]) == s;
        assert more[i] == kept[i];
      }
    }
  }

  method Filter(simplify: Simplify, chunks: array<Hit>, policy: Policy) returns (filtered: seq<Hit>)
    requires chunks.Length > 0
    ensures filtered == Select(simplify, policy, chunks[..])
  {
    var minScore := MaxReal(policy.absolute, chunks[0].score * policy.relative);
    var seenSignature: set<string> := {};
    var seenDocCount: map<string, nat> := map[];
    filtered := [];
    ghost var sorted := chunks[..];
    ghost var all := Select(simplify, policy, sorted);
    assert minScore == MinScore(policy, sorted);
    var k := 0;
    while k < chunks.Length
      invariant k <= chunks.Length
      invariant Tallies(simplify, seenSignature, seenDocCount, filtered)
      invariant Walk(simplify, policy, minScore, sorted, k, filtered) == all
    {
      var chunk := chunks[k];
      assert chunk == sorted[k];
      if |filtered| >= policy.limit || chunk.score < minScore {
        break;
      }
      k := k + 1;
      var count := if chunk.document in seenDocCount then seenDocCount[chunk.document] else 0;
      assert DocumentCount(filtered, chunk.document) == count;
      if count >= policy.perDocument {
        assert Repetitive(simplify, policy, filtered, chunk);
        continue;
      }
      var signature := Signature(simplify, chunk);
      if signature in seenSignature {
        assert Repetitive(simplify, policy, filtered, chunk);
        continue;
      }
      assert !Repetitive(simplify, policy, filtered, chunk);
      TalliesStep(simplify, seenSignature, seenDocCount, filtered, chunk);
      seenSignature := seenSignature + {signature};
      seenDocCount := seenDocCount[chunk.document := count + 1];
      filtered := filtered + [chunk];
    }
  }

  /** A score that passes both thresholds, given the best score of the ranking. */
  ghost predicate GoodEnough(policy: Policy, best: real, score: real) {
    policy.absolute <= score && best * policy.relative <= score
  }

  ghost predicate WithinPolicy(policy: Policy, best: real, kept: seq<Hit>) {
    && |kept| <= policy.limit
    && (forall d :: DocumentCount(kept, d) <= policy.perDocument)
    && (forall i :: 0 <= i < |kept| ==> GoodEnough(policy, best, kept[i].score))
  }

  ghost predicate NoDuplicates(simplify: Simplify, kept: seq<Hit>) {
    forall i, j :: 0 <= i < j < |kept| ==> Signature(simplify, kept[i]) != Signature(simplify, kept[j])
  }

  /** `kept` is what stands at the increasing positions `at` of the ranking. */
  ghost predicate Selection(sorted: seq<Hit>, kept: seq<Hit>, at: seq<nat>) {
    && |at| == |kept|
    && (forall i :: 0 <= i < |at| ==> at[i] < |sorted| && kept[i] == sorted[at[i]])
    && (forall i, j :: 0 <= i < j < |at| ==> at[i] < at[j])
  }

  ghost predicate Excused(simplify: Simplify, policy: Policy, best: real, kept: seq<Hit>, hit: Hit) {
    |kept| >= policy.limit || !GoodEnough(policy, best, hit.score) || Repetitive(simplify, policy, kept, hit)
  }

  /** The hit at position j is left out because of the n hits kept from before it. */
  ghost predicate LeftOutBy(simplify: Simplify, policy: Policy, best: real, sorted: seq<Hit>, kept: seq<Hit>,
                            at: seq<nat>, j: nat, n: nat)
    requires j < |sorted| && |at| == |kept|
  {
    && n <= |at| && (forall i :: 0 <= i < n ==> at[i] < j) && (forall i :: n <= i < |at| ==> j < at[i])
    && Excused(simplify, policy, best, kept[..n], sorted[j])
  }

  ghost predicate LeftOut(simplify: Simplify, policy: Policy, best: real, sorted: seq<Hit>, kept: seq<Hit>,
                          at: seq<nat>, j: nat)
    requires j < |sorted| && |at| == |kept|
  {
    exists n: nat :: LeftOutBy(simplify, policy, best, sorted, kept, at, j, n)
  }

  ghost predicate SelectedSoFar(simplify: Simplify, policy: Policy, best: real, sorted: seq<Hit>, k: nat,
                                kept: seq<Hit>, at: seq<nat>)
  {
    && k <= |sorted|
    && Selection(sorted, kept, at)
    && (forall i :: 0 <= i < |at| ==> at[i] < k)
    && WithinPolicy(policy, best, kept) && NoDuplicates(simplify, kept)
    && (forall j: nat :: j < k && j !in at ==> LeftOut(simplify, policy, best, sorted, kept, at, j))
  }

  /** The greedy selection: every hit is either kept, or left out because of the hits kept before it. */
  ghost predicate SelectedInAll(simplify: Simplify, policy: Policy, best: real, sorted: seq<Hit>,
                                kept: seq<Hit>, at: seq<nat>)
  {
    SelectedSoFar(simplify, policy, best, sorted, |sorted|, kept, at)
  }

  lemma LeftOutStays(simplify: Simplify, policy: Policy, best: real, sorted: seq<Hit>, k: nat, kept: seq<Hit>,
                     at: seq<nat>, j: nat)
    requires |at| == |kept| && j < k < |sorted| && LeftOut(simplify, policy, best, sorted, kept, at, j)
    ensures LeftOut(simplify, policy, best, sorted, kept + [sorted[k]], at + [k], j)
  {
    var n: nat :| LeftOutBy(simplify, policy, best, sorted, kept, at, j, n);
    assert (kept + [sorted[k]])[..n] == kept[..n];
    assert LeftOutBy(simplify, policy, best, sorted, kept + [sorted[k]], at + [k], j, n);
  }

  lemma LeftOutNow(simplify: Simplify, policy: Policy, best: real, sorted: seq<Hit>, kept: seq<Hit>, at: seq<nat>,
                   j: nat)
    requires |at| == |kept| && j < |sorted| && (forall i :: 0 <= i < |at| ==> at[i] < j)
    requires Excused(simplify, policy, best, kept, sorted[j])
    ensures LeftOut(simplify, policy, best, sorted, kept, at, j)
  {
    assert kept[..|at|] == kept;
    assert LeftOutBy(simplify, policy, best, sorted, kept, at, j, |at|);
  }

  lemma KeepOne(simplify: Simplify, policy: Policy, best: real, sorted: seq<Hit>, k: nat, kept: seq<Hit>,
                at: seq<nat>)
    requires SelectedSoFar(simplify, policy, best, sorted, k, kept, at) && k < |sorted|
    requires !Excused(simplify, policy, best, kept, sorted[k])
    ensures SelectedSoFar(simplify, policy, best, sorted, k + 1, kept + [sorted[k]], at + [k])
  {
    var more := kept + [sorted[k]];
    forall d
      ensures DocumentCount(more, d) <= policy.perDocument
    {
      assert more[..|kept|] == kept;
    }
    forall i | 0 <= i < |kept|
      ensures Signature(simplify, kept[i]) != Signature(simplify, sorted[k])
    {
      assert Signature(simplify, kept[i]) in Signatures(simplify, kept);
    }
    forall j: nat | j < k + 1 && j !in at + [k]
      ensures LeftOut(simplify, policy, best, sorted, more, at + [k], j)
    {
      assert (at + [k])[|at|] == k;
      assert j !in at;
      LeftOutStays(simplify, policy, best, sorted, k, kept, at, j);
    }
  }

  lemma SkipOne(simplify: Simplify, policy: Policy, best: real, sorted: seq<Hit>, k: nat, kept: seq<Hit>,
                at: seq<nat>)
    requires SelectedSoFar(simplify, policy, best, sorted, k, kept, at) && k < |sorted|
    requires Repetitive(simplify, policy, kept, sorted[k])
    ensures SelectedSoFar(simplify, policy, best, sorted, k + 1, kept, at)
  {
    LeftOutNow(simplify, policy, best, sorted, kept, at, k);
  }

  /** The one threshold of the loop stands for the two of the policy. */
  ghost predicate Threshold(policy: Policy, best: real, minScore: real) {
    forall score :: score >= minScore <==> GoodEnough(policy, best, score)
  }

  lemma MinScoreMeans(policy: Policy, sorted: seq<Hit>)
    requires sorted != []
    ensures Threshold(policy, sorted[0].score, MinScore(policy, sorted))
  {
  }

  lemma TurnSelects(simplify: Simplify, policy: Policy, best: real, minScore: real, sorted: seq<Hit>, k: nat,
                    kept: seq<Hit>, at: seq<nat>)
    returns (at': seq<nat>)
    requires Threshold(policy, best, minScore)
    requires SelectedSoFar(simplify, policy, best, sorted, k, kept, at) && !Stops(policy, minScore, sorted, k, kept)
    ensures SelectedSoFar(simplify, policy, best, sorted, k + 1, Turn(simplify, policy, kept, sorted[k]), at')
  {
    if Repetitive(simplify, policy, kept, sorted[k]) {
      SkipOne(simplify, policy, best, sorted, k, kept, at);
      at' := at;
    } else {
      KeepOne(simplify, policy, best, sorted, k, kept, at);
      at' := at + [k];
    }
  }

  lemma WalkStops(simplify: Simplify, policy: Policy, best: real, minScore: real, sorted: seq<Hit>, k: nat,
                  kept: seq<Hit>, at: seq<nat>)
    requires IsSorted(ByScoreThenIndex, sorted) && Threshold(policy, best, minScore)
    requires SelectedSoFar(simplify, policy, best, sorted, k, kept, at) && Stops(policy, minScore, sorted, k, kept)
    ensures SelectedInAll(simplify, policy, best, sorted, kept, at)
  {
    forall j: nat | j < |sorted| && j !in at
      ensures LeftOut(simplify, policy, best, sorted, kept, at, j)
    {
      if k <= j {
        assert k < j ==> !ByScoreThenIndex(sorted[j], sorted[k]);
        LeftOutNow(simplify, policy, best, sorted, kept, at, j);
      }
    }
  }

  lemma {:induction false} WalkSelects(simplify: Simplify, policy: Policy, best: real, minScore: real,
                                       sorted: seq<Hit>, k: nat, kept: seq<Hit>, at: seq<nat>)
    returns (all: seq<nat>)
    requires IsSorted(ByScoreThenIndex, sorted) && Threshold(policy, best, minScore)
    requires SelectedSoFar(simplify, policy, best, sorted, k, kept, at)
    ensures SelectedInAll(simplify, policy, best, sorted, Walk(simplify, policy, minScore, sorted, k, kept), all)
    decreases |sorted| - k
  {
    if Stops(policy, minScore, sorted, k, kept) {
      all := at;
      WalkStops(simplify, policy, best, minScore, sorted, k, kept, at);
    } else {
      var at' := TurnSelects(simplify, policy, best, minScore, sorted, k, kept, at);
      all := WalkSelects(simplify, policy, best, minScore, sorted, k + 1, Turn(simplify, policy, kept, sorted[k]),
                         at');
    }
  }

  /** What is selected from a ranking: in ranking order, within every cap, free of duplicates, with no score
      below the absolute threshold or the relative one; and each hit left out is below one of the two, or
      crowded out by the hits kept before it: by a full selection, a full document, or a duplicate. */
  lemma SelectionIsGreedy(simplify: Simplify, policy: Policy, sorted: seq<Hit>) returns (at: seq<nat>)
    requires sorted != [] && IsSorted(ByScoreThenIndex, sorted) && Usable(policy)
    ensures var kept, best := Select(simplify, policy, sorted), sorted[0].score;
            && Selection(sorted, kept, at) && WithinPolicy(policy, best, kept) && NoDuplicates(simplify, kept)
            && (forall j: nat :: j < |sorted| && j !in at ==>
                                   LeftOut(simplify, policy, best, sorted, kept, at, j))
            && SelectedInAll(simplify, policy, best, sorted, kept, at)
  {
    MinScoreMeans(policy, sorted);
    at := WalkSelects(simplify, policy, sorted[0].score, MinScore(policy, sorted), sorted, 0, [], []);
  }

  lemma {:induction false} PrefixCounts(hits: seq<Hit>, n: nat, document: string)
    requires n <= |hits|
    ensures DocumentCount(hits[..n], document) <= DocumentCount(hits, document)
  {
    if n < |hits| {
      assert hits[..|hits| - 1][..n] == hits[..n];
      PrefixCounts(hits[..|hits| - 1], n, document);
    } else {
      assert hits[..n] == hits;
    }
  }

  /** What is kept had room among the hits kept before it. */
  lemma KeptHadRoom(simplify: Simplify, policy: Policy, best: real, kept: seq<Hit>, n: nat)
    requires n < |kept| && WithinPolicy(policy, best, kept) && NoDuplicates(simplify, kept)
    ensures !Excused(simplify, policy, best, kept[..n], kept[n])
  {
    PrefixCounts(kept, n + 1, kept[n].document);
    assert kept[..n + 1][..n] == kept[..n];
    assert DocumentCount(kept, kept[n].document) <= policy.perDocument;
  }

  lemma SamePicks(sorted: seq<Hit>, a: seq<Hit>, at: seq<nat>, b: seq<Hit>, bt: seq<nat>, n: nat)
    requires Selection(sorted, a, at) && Selection(sorted, b, bt)
    requires n <= |at| && n <= |bt| && at[..n] == bt[..n]
    ensures a[..n] == b[..n]
  {
    assert forall i :: 0 <= i < n ==> at[i] == at[..n][i] == bt[..n][i] == bt[i];
  }

  /** A position between the n-th and the next pick, if it is left out, is so because of the first n. */
  lemma LeftOutByFirst(simplify: Simplify, policy: Policy, best: real, sorted: seq<Hit>, b: seq<Hit>, bt: seq<nat>,
                       n: nat, j: nat)
    requires |bt| == |b| && n <= |bt| && j < |sorted| && LeftOut(simplify, policy, best, sorted, b, bt, j)
    requires (forall i :: 0 <= i < n ==> bt[i] < j) && (n < |bt| ==> j < bt[n])
    ensures Excused(simplify, policy, best, b[..n], sorted[j])
  {
    var m: nat :| LeftOutBy(simplify, policy, best, sorted, b, bt, j, m);
    CutsMeet(bt, n, m, j);
  }

  lemma CutsMeet(bt: seq<nat>, n: nat, m: nat, j: nat)
    requires n <= |bt| && (forall i :: 0 <= i < n ==> bt[i] < j) && (n < |bt| ==> j < bt[n])
    requires m <= |bt| && (forall i :: 0 <= i < m ==> bt[i] < j) && (forall i :: m <= i < |bt| ==> j < bt[i])
    ensures m == n
  {
    var least := if m < n then m else n;
    assert least < |bt| ==> bt[least] < j || j < bt[least];
  }

  lemma NotPicked(bt: seq<nat>, n: nat, j: nat)
    requires forall x, y :: 0 <= x < y < |bt| ==> bt[x] < bt[y]
    requires n <= |bt| && (forall i :: 0 <= i < n ==> bt[i] < j) && (n < |bt| ==> j < bt[n])
    ensures j !in bt
  {
  }

  /** Two greedy selections that agree so far: the second does not go past what the first keeps next. */
  lemma NextIsNotPassed(simplify: Simplify, policy: Policy, best: real, sorted: seq<Hit>,
                        a: seq<Hit>, at: seq<nat>, b: seq<Hit>, bt: seq<nat>, n: nat)
    requires SelectedInAll(simplify, policy, best, sorted, a, at)
    requires SelectedInAll(simplify, policy, best, sorted, b, bt)
    requires n < |at| && n <= |bt| && at[..n] == bt[..n]
    ensures n < |bt| && bt[n] <= at[n]
  {
    KeptHadRoom(simplify, policy, best, a, n);
    SamePicks(sorted, a, at, b, bt, n);
    assert forall i :: 0 <= i < n ==> bt[i] == bt[..n][i] == at[..n][i] == at[i] < at[n];
    if n == |bt| || at[n] < bt[n] {
      NotPicked(bt, n, at[n]);
      LeftOutByFirst(simplify, policy, best, sorted, b, bt, n, at[n]);
      assert false;
    }
  }

  /** There is only one greedy selection. */
  lemma {:induction false} GreedyIsUnique(simplify: Simplify, policy: Policy, best: real, sorted: seq<Hit>,
                                          a: seq<Hit>, at: seq<nat>, b: seq<Hit>, bt: seq<nat>, n: nat := 0)
    requires SelectedInAll(simplify, policy, best, sorted, a, at)
    requires SelectedInAll(simplify, policy, best, sorted, b, bt)
    requires n <= |at| && n <= |bt| && at[..n] == bt[..n]
    ensures at == bt && a == b
    decreases |at| - n
  {
    if n < |at| {
      NextIsNotPassed(simplify, policy, best, sorted, a, at, b, bt, n);
      NextIsNotPassed(simplify, policy, best, sorted, b, bt, a, at, n);
      assert at[..n + 1] == at[..n] + [at[n]] && bt[..n + 1] == bt[..n] + [bt[n]];
      GreedyIsUnique(simplify, policy, best, sorted, a, at, b, bt, n + 1);
    } else if n < |bt| {
      NextIsNotPassed(simplify, policy, best, sorted, b, bt, a, at, n);
    } else {
      assert at == at[..n] && bt == bt[..n];
    }
  }

  // ----- Merging neighbours -----

  predicate Adjacent(a: Hit, b: Hit) {
    a.document == b.document && a.section == b.section && (a.index - b.index == 1 || b.index - a.index == 1)
  }

  method AdjacentIndex(chunks: seq<Hit>, target: Hit) returns (index: int)
    ensures -1 <= index < |chunks|
    ensures index == if FirstAdjacent(chunks, target) < |chunks| then FirstAdjacent(chunks, target) else -1
  {
    for i := 0 to |chunks|
      invariant forall k :: 0 <= k < i ==> !Adjacent(chunks[k], target)
    {
      var difference := chunks[i].index - target.index;
      if chunks[i].document == target.document && chunks[i].section == target.section
         && (if difference < 0 then -difference else difference) == 1
      {
        FirstAdjacentUnique(chunks, target, i);
        return i;
      }
    }
    FirstAdjacentUnique(chunks, target, |chunks|);
    return -1;
  }

  function FirstAdjacent(chunks: seq<Hit>, target: Hit): (i: nat)
    ensures i <= |chunks| && (i < |chunks| ==> Adjacent(chunks[i], target))
    ensures forall k :: 0 <= k < i ==> !Adjacent(chunks[k], target)
  {
    if chunks == [] || Adjacent(chunks[0], target) then 0 else 1 + FirstAdjacent(chunks[1..], target)
  }

  lemma FirstAdjacentUnique(chunks: seq<Hit>, target: Hit, i: nat)
    requires i <= |chunks| && (i < |chunks| ==> Adjacent(chunks[i], target))
    requires forall k :: 0 <= k < i ==> !Adjacent(chunks[k], target)
    ensures FirstAdjacent(chunks, target) == i
  {
  }

  function Absorb(into: Hit, chunk: Hit): Hit {
    var score := MaxReal(into.score, chunk.score);
    if chunk.index < into.index
    then into.(content := Trim(GoSpace, chunk.content + "\n" + into.content), index := chunk.index, score := score)
    else into.(content := Trim(GoSpace, into.content + "\n" + chunk.content), score := score)
  }

  function JoinNeighbour(merged: seq<Hit>, chunk: Hit): seq<Hit> {
    var i := FirstAdjacent(merged, chunk);
    if i < |merged| then merged[i := Absorb(merged[i], chunk)] else merged + [chunk]
  }

  function MergeAdjacent(chunks: seq<Hit>): seq<Hit> {
    if chunks == [] then [] else JoinNeighbour(MergeAdjacent(chunks[..|chunks| - 1]), chunks[|chunks| - 1])
  }

  method MergeAdjacentChunks(chunks: seq<Hit>) returns (merged: seq<Hit>)
    ensures merged == MergeAdjacent(chunks)
  {
    merged := [];
    for k := 0 to |chunks|
      invariant merged == MergeAdjacent(chunks[..k])
    {
      var chunk := chunks[k];
      assert chunks[..k + 1][..k] == chunks[..k];
      var mergedIndex := AdjacentIndex(merged, chunk);
      if mergedIndex < 0 {
        merged := merged + [chunk];
        continue;
      }
      var found := merged[mergedIndex];
      if chunk.index < found.index {
        found := found.(content := Trim(GoSpace, chunk.content + "\n" + found.content), index := chunk.index);
      } else {
        found := found.(content := Trim(GoSpace, found.content + "\n" + chunk.content));
      }
      merged := merged[mergedIndex := found.(score := MaxReal(found.score, chunk.score))];
    }
    assert chunks[..|chunks|] == chunks;
  }

  /** The first entry a chunk is a neighbour of takes it in: contents joined in document order, the index of
      the first and the better score; only a chunk without a neighbour opens an entry of its own. */
  lemma JoinsFirstNeighbour(chunks: seq<Hit>, chunk: Hit, i: nat)
    requires var before := MergeAdjacent(chunks);
             i <= |before| && (i < |before| ==> Adjacent(before[i], chunk))
             && forall k :: 0 <= k < i ==> !Adjacent(before[k], chunk)
    ensures var before, after := MergeAdjacent(chunks), MergeAdjacent(chunks + [chunk]);
            if i == |before| then after == before + [chunk]
            else
              var (first, second) := if chunk.index < before[i].index then (chunk, before[i]) else (before[i], chunk);
              && |after| == |before| && (forall k :: 0 <= k < |before| && k != i ==> after[k] == before[k])
              && after[i] == before[i].(content := after[i].content, index := first.index, score := after[i].score)
              && after[i].content == Trim(GoSpace, first.content + "\n" + second.content)
              && after[i].score == (if chunk.score > before[i].score then chunk.score else before[i].score)
  {
    assert (chunks + [chunk])[..|chunks|] == chunks;
    FirstAdjacentUnique(MergeAdjacent(chunks), chunk, i);
  }

  ghost predicate Ranked(hits: seq<Hit>) {
    forall i, j :: 0 <= i < j < |hits| ==> hits[i].score >= hits[j].score
  }

  /** Merging a ranked list: no more entries than before, in all and per document, still ranked, and no
      score lower than the last input. */
  lemma {:induction false} MergingKeepsCaps(chunks: seq<Hit>)
    requires Ranked(chunks)
    ensures var merged := MergeAdjacent(chunks);
            && |merged| <= |chunks| && Ranked(merged)
            && (forall d :: DocumentCount(merged, d) <= DocumentCount(chunks, d))
            && (forall i :: 0 <= i < |merged| ==> merged[i].score >= chunks[|chunks| - 1].score)
  {
    if chunks != [] {
      var n := |chunks| - 1;
      MergingKeepsCaps(chunks[..n]);
      var before := MergeAdjacent(chunks[..n]);
      JoinKeepsRanking(before, chunks[n]);
      forall d
        ensures DocumentCount(MergeAdjacent(chunks), d) <= DocumentCount(chunks, d)
      {
        JoinKeepsCounts(before, chunks[n], d);
      }
    }
  }

  lemma JoinKeepsCounts(merged: seq<Hit>, chunk: Hit, d: string)
    ensures DocumentCount(JoinNeighbour(merged, chunk), d)
         <= DocumentCount(merged, d) + if chunk.document == d then 1 else 0
  {
    var r := JoinNeighbour(merged, chunk);
    if FirstAdjacent(merged, chunk) < |merged| {
      SameDocuments(merged, r, d);
    } else {
      assert r[..|merged|] == merged;
    }
  }

  lemma JoinKeepsRanking(merged: seq<Hit>, chunk: Hit)
    requires Ranked(merged) && forall i :: 0 <= i < |merged| ==> merged[i].score >= chunk.score
    ensures var r := JoinNeighbour(merged, chunk);
            && |r| <= |merged| + 1 && Ranked(r)
            && (forall i :: 0 <= i < |r| ==> r[i].score >= chunk.score)
  {
  }

  lemma {:induction false} SameDocuments(a: seq<Hit>, b: seq<Hit>, d: string)
    requires |a| == |b| && forall i :: 0 <= i < |a| ==> a[i].document == b[i].document
    ensures DocumentCount(a, d) == DocumentCount(b, d)
  {
    if a != [] {
      SameDocuments(a[..|a| - 1], b[..|b| - 1], d);
    }
  }

  // ----- What a merged entry stands for -----

  /** The inputs gathered into one entry: the one it was opened for, and all of them in document order. */
  datatype Run = Run(lead: Hit, parts: seq<Hit>)

  function Joined(parts: seq<Hit>): string
    requires parts != []
  {
    if |parts| == 1 then parts[0].content
    else Joined(parts[..|parts| - 1]) + "\n" + parts[|parts| - 1].content
  }

  function Shown(run: Run): Hit
    requires run.parts != []
  {
    run.lead.(content := Joined(run.parts), index := run.parts[0].index)
  }

  ghost predicate WellFormed(run: Run) {
    && run.parts != [] && run.lead in run.parts
    && (forall k :: 0 <= k < |run.parts| ==>
        && run.parts[k].document == run.lead.document && run.parts[k].section == run.lead.section
        && run.parts[k].index == run.parts[0].index + k
        && run.parts[k].score <= run.lead.score
        && CleanContent(run.parts[k]))
  }

  ghost predicate CleanContent(hit: Hit) {
    hit.content != [] && Trimmed(GoSpace, hit.content)
  }

  function AllParts(runs: seq<Run>): seq<Hit> {
    if runs == [] then [] else AllParts(runs[..|runs| - 1]) + runs[|runs| - 1].parts
  }

  ghost predicate ShownAs(runs: seq<Run>, merged: seq<Hit>) {
    && |runs| == |merged|
    && (forall i :: 0 <= i < |runs| ==> WellFormed(runs[i]) && merged[i] == Shown(runs[i]))
  }

  ghost predicate DistinctPlaces(hits: seq<Hit>) {
    forall i, j :: 0 <= i < j < |hits| ==> hits[i].document != hits[j].document || hits[i].index != hits[j].index
  }

  lemma {:induction false} JoinedIsClean(parts: seq<Hit>)
    requires parts != [] && forall k :: 0 <= k < |parts| ==> CleanContent(parts[k])
    ensures Joined(parts) != [] && Trimmed(GoSpace, Joined(parts))
  {
    if |parts| > 1 {
      JoinedIsClean(parts[..|parts| - 1]);
      var front, last := Joined(parts[..|parts| - 1]), parts[|parts| - 1].content;
      var whole := front + "\n" + last;
      assert whole[0] == front[0] && whole[|whole| - 1] == last[|last| - 1];
    }
  }

  lemma {:induction false} JoinedPrepends(first: Hit, parts: seq<Hit>)
    requires parts != []
    ensures Joined([first] + parts) == first.content + "\n" + Joined(parts)
  {
    var all := [first] + parts;
    var n := |parts| - 1;
    assert all[..|all| - 1] == [first] + parts[..n];
    if n == 0 {
      assert all[..1] == [first];
    } else {
      JoinedPrepends(first, parts[..n]);
      assert first.content + "\n" + (Joined(parts[..n]) + "\n" + parts[n].content)
          == (first.content + "\n" + Joined(parts[..n])) + "\n" + parts[n].content;
    }
  }

  lemma JoinedAppends(parts: seq<Hit>, last: Hit)
    requires parts != []
    ensures Joined(parts + [last]) == Joined(parts) + "\n" + last.content
  {
    assert (parts + [last])[..|parts|] == parts;
  }

  /** The run with one more input. */
  function Grown(run: Run, chunk: Hit): Run
    requires run.parts != []
  {
    if chunk.index < run.parts[0].index then run.(parts := [chunk] + run.parts) else run.(parts := run.parts + [chunk])
  }

  /** A neighbour goes before the run, or behind a run of one: a longer run already holds that place. */
  lemma GrownIsWellFormed(run: Run, chunk: Hit)
    requires WellFormed(run) && CleanContent(chunk) && chunk.score <= run.lead.score
    requires Adjacent(Shown(run), chunk)
    requires forall k :: 0 <= k < |run.parts| ==> run.parts[k].index != chunk.index
    ensures WellFormed(Grown(run, chunk))
  {
    var grown := Grown(run, chunk);
    assert |run.parts| > 1 ==> run.parts[1].index == run.parts[0].index + 1;
    var at :| 0 <= at < |run.parts| && run.parts[at] == run.lead;
    if chunk.index < run.parts[0].index {
      assert grown.parts[at + 1] == run.lead;
    } else {
      assert grown.parts[at] == run.lead;
    }
  }

  lemma GrownIsShown(run: Run, chunk: Hit)
    requires WellFormed(run) && WellFormed(Grown(run, chunk)) && chunk.score <= run.lead.score
    ensures Shown(Grown(run, chunk)) == Absorb(Shown(run), chunk)
  {
    var grown := Grown(run, chunk);
    if chunk.index < run.parts[0].index {
      JoinedPrepends(chunk, run.parts);
    } else {
      JoinedAppends(run.parts, chunk);
    }
    JoinedIsClean(grown.parts);
    TrimKeeps(GoSpace, Joined(grown.parts));
  }

  lemma GrownParts(run: Run, chunk: Hit)
    requires run.parts != []
    ensures multiset(Grown(run, chunk).parts) == multiset(run.parts) + multiset{chunk}
  {
  }

  lemma LastRunApart(front: seq<Run>, last: Run)
    ensures multiset(AllParts(front + [last])) == multiset(AllParts(front)) + multiset(last.parts)
  {
    assert (front + [last])[..|front|] == front;
  }

  lemma UpdateAround<T>(front: seq<T>, last: T, i: nat, x: T)
    requires i <= |front|
    ensures (front + [last])[i := x] == if i < |front| then front[i := x] + [last] else front + [x]
  {
  }

  /** One run in place of another that has one input less. */
  lemma {:induction false} PartsReplaced(runs: seq<Run>, i: nat, grown: Run, chunk: Hit)
    requires i < |runs| && multiset(grown.parts) == multiset(runs[i].parts) + multiset{chunk}
    ensures multiset(AllParts(runs[i := grown])) == multiset(AllParts(runs)) + multiset{chunk}
  {
    var front, last := runs[..|runs| - 1], runs[|runs| - 1];
    assert runs == front + [last];
    UpdateAround(front, last, i, grown);
    LastRunApart(front, last);
    if i < |front| {
      PartsReplaced(front, i, grown, chunk);
      LastRunApart(front[i := grown], last);
    } else {
      LastRunApart(front, grown);
    }
  }

  lemma {:induction false} PartIsPart(runs: seq<Run>, i: nat, part: Hit)
    requires i < |runs| && part in runs[i].parts
    ensures part in AllParts(runs)
  {
    var n := |runs| - 1;
    if i < n {
      PartIsPart(runs[..n], i, part);
    }
  }

  /** The new input comes last in rank and stands at a place of its own. */
  ghost predicate Joins(earlier: seq<Hit>, chunk: Hit) {
    && CleanContent(chunk)
    && (forall k :: 0 <= k < |earlier| ==>
        && chunk.score <= earlier[k].score
        && (earlier[k].document != chunk.document || earlier[k].index != chunk.index))
  }

  lemma GatherInto(runs: seq<Run>, merged: seq<Hit>, earlier: seq<Hit>, chunk: Hit, i: nat)
    requires ShownAs(runs, merged) && multiset(AllParts(runs)) == multiset(earlier)
    requires Joins(earlier, chunk) && i < |merged| && Adjacent(merged[i], chunk)
    ensures WellFormed(runs[i]) && WellFormed(Grown(runs[i], chunk))
    ensures Shown(Grown(runs[i], chunk)) == Absorb(merged[i], chunk)
  {
    var run := runs[i];
    forall k | 0 <= k < |run.parts|
      ensures run.parts[k] in earlier
    {
      PartIsPart(runs, i, run.parts[k]);
      assert run.parts[k] in multiset(AllParts(runs));
    }
    GrownIsWellFormed(run, chunk);
    GrownIsShown(run, chunk);
  }

  lemma ShownAfter(runs: seq<Run>, merged: seq<Hit>, i: nat, run: Run, hit: Hit)
    requires ShownAs(runs, merged) && i < |runs| && WellFormed(run) && hit == Shown(run)
    ensures ShownAs(runs[i := run], merged[i := hit])
  {
  }

  lemma SingleRun(chunk: Hit)
    requires CleanContent(chunk)
    ensures WellFormed(Run(chunk, [chunk])) && Shown(Run(chunk, [chunk])) == chunk
  {
  }

  lemma GatherOne(runs: seq<Run>, merged: seq<Hit>, earlier: seq<Hit>, chunk: Hit) returns (runs': seq<Run>)
    requires ShownAs(runs, merged) && multiset(AllParts(runs)) == multiset(earlier)
    requires Joins(earlier, chunk)
    ensures ShownAs(runs', JoinNeighbour(merged, chunk))
    ensures multiset(AllParts(runs')) == multiset(earlier) + multiset{chunk}
  {
    var i := FirstAdjacent(merged, chunk);
    if i < |merged| {
      GatherInto(runs, merged, earlier, chunk, i);
      runs' := runs[i := Grown(runs[i], chunk)];
      GrownParts(runs[i], chunk);
      PartsReplaced(runs, i, Grown(runs[i], chunk), chunk);
      ShownAfter(runs, merged, i, Grown(runs[i], chunk), Absorb(merged[i], chunk));
    } else {
      SingleRun(chunk);
      runs' := runs + [Run(chunk, [chunk])];
      assert runs'[..|runs|] == runs;
    }
  }

  lemma LastApart<T>(s: seq<T>)
    requires s != []
    ensures multiset(s) == multiset(s[..|s| - 1]) + multiset{s[|s| - 1]}
  {
    assert s == s[..|s| - 1] + [s[|s| - 1]];
  }

  /** Merging neighbours partitions its input: every input is in exactly one run of consecutive chunks of
      one document and section, and the run is shown as their contents joined by newlines, in document
      order, at the place of its first chunk and with its best score. */
  lemma {:induction false} MergingPartitions(chunks: seq<Hit>) returns (runs: seq<Run>)
    requires Ranked(chunks) && DistinctPlaces(chunks)
    requires forall k :: 0 <= k < |chunks| ==> CleanContent(chunks[k])
    ensures ShownAs(runs, MergeAdjacent(chunks))
    ensures multiset(AllParts(runs)) == multiset(chunks)
  {
    if chunks == [] {
      runs := [];
    } else {
      var n := |chunks| - 1;
      runs := MergingPartitions(chunks[..n]);
      runs := GatherOne(runs, MergeAdjacent(chunks[..n]), chunks[..n], chunks[n]);
      LastApart(chunks);
    }
  }

  // ----- The whole trimming -----

  function Effective(simplify: Simplify, hits: seq<Hit>, policy: Policy): seq<Hit> {
    if hits == [] then []
    else
      SortPermutes(ByScoreThenIndex, hits);
      MergeAdjacent(Select(simplify, NormalizePolicy(policy), StableSort(ByScoreThenIndex, hits)))
  }

  method TrimEffectiveChunks(simplify: Simplify, chunks: array<Hit>, policy: Policy) returns (effective: seq<Hit>)
    modifies chunks
    ensures effective == Effective(simplify, old(chunks[..]), policy)
    ensures multiset(chunks[..]) == multiset(old(chunks[..]))
  {
    if chunks.Length == 0 {
      return [];
    }
    SortStable(ByScoreThenIndex, chunks);
    SortPermutes(ByScoreThenIndex, old(chunks[..]));
    var filtered := Filter(simplify, chunks, NormalizePolicy(policy));
    effective := MergeAdjacentChunks(filtered);
  }

  lemma MergedWithinPolicy(policy: Policy, best: real, kept: seq<Hit>)
    requires Ranked(kept) && WithinPolicy(policy, best, kept)
    ensures Ranked(MergeAdjacent(kept)) && WithinPolicy(policy, best, MergeAdjacent(kept))
  {
    MergingKeepsCaps(kept);
    forall d
      ensures DocumentCount(MergeAdjacent(kept), d) <= policy.perDocument
    {
      assert DocumentCount(MergeAdjacent(kept), d) <= DocumentCount(kept, d);
    }
  }

  lemma LowerBest(policy: Policy, best: real, lower: real, kept: seq<Hit>)
    requires Usable(policy) && lower <= best && WithinPolicy(policy, best, kept)
    ensures WithinPolicy(policy, lower, kept)
  {
    LowerShare(policy.relative, lower, best);
  }

  lemma FirstIsBest(hits: seq<Hit>, sorted: seq<Hit>, hit: Hit)
    requires multiset(sorted) == multiset(hits) && IsSorted(ByScoreThenIndex, sorted) && hit in hits
    ensures sorted != [] && hit.score <= sorted[0].score
  {
    assert hit in multiset(sorted);
    var j :| 0 <= j < |sorted| && sorted[j] == hit;
    assert j > 0 ==> !ByScoreThenIndex(sorted[j], sorted[0]);
  }

  /** The final list respects the limit and the cap per document, is ranked, and no entry scores below the
      absolute threshold or below the relative share of any retrieved hit's score. */
  lemma EffectiveRespectsPolicy(simplify: Simplify, hits: seq<Hit>, policy: Policy)
    requires hits != []
    ensures var p, r := NormalizePolicy(policy), Effective(simplify, hits, policy);
            && Ranked(r)
            && (forall h :: h in hits ==> WithinPolicy(p, h.score, r))
  {
    var sorted := StableSort(ByScoreThenIndex, hits);
    SortPermutes(ByScoreThenIndex, hits);
    ScoreOrders();
    SortSorts(ByScoreThenIndex, hits);
    var p := NormalizePolicy(policy);
    var at := SelectionIsGreedy(simplify, p, sorted);
    var kept := Select(simplify, p, sorted);
    SelectionIsRanked(sorted, kept, at);
    MergedWithinPolicy(p, sorted[0].score, kept);
    forall h | h in hits
      ensures WithinPolicy(p, h.score, MergeAdjacent(kept))
    {
      FirstIsBest(hits, sorted, h);
      LowerBest(p, sorted[0].score, h.score, MergeAdjacent(kept));
    }
  }

  lemma LowerShare(relative: real, low: real, high: real)
    requires relative > 0.0 && low <= high
    ensures low * relative <= high * relative
  {
  }

  /** The ranking the selection goes by: better scores first, and of equal scores the earlier chunk. */
  lemma RankingIs(hits: seq<Hit>, i: nat, j: nat)
    requires i < j < |StableSort(ByScoreThenIndex, hits)|
    ensures var sorted := StableSort(ByScoreThenIndex, hits);
            && multiset(sorted) == multiset(hits)
            && (sorted[i].score > sorted[j].score
                || (sorted[i].score == sorted[j].score && sorted[i].index <= sorted[j].index))
  {
    SortPermutes(ByScoreThenIndex, hits);
    ScoreOrders();
    SortSorts(ByScoreThenIndex, hits);
    var sorted := StableSort(ByScoreThenIndex, hits);
    assert !ByScoreThenIndex(sorted[j], sorted[i]);
  }

  lemma SelectionIsRanked(sorted: seq<Hit>, kept: seq<Hit>, at: seq<nat>)
    requires IsSorted(ByScoreThenIndex, sorted) && Selection(sorted, kept, at)
    ensures Ranked(kept)
  {
    forall i, j | 0 <= i < j < |kept|
      ensures kept[i].score >= kept[j].score
    {
      assert !ByScoreThenIndex(sorted[at[j]], sorted[at[i]]);
    }
  }

  lemma {:induction false} DistinctMeansOnce(hits: seq<Hit>, hit: Hit)
    requires DistinctPlaces(hits)
    ensures multiset(hits)[hit] <= 1
  {
    if hits != [] {
      var n := |hits| - 1;
      DistinctMeansOnce(hits[..n], hit);
      LastApart(hits);
    }
  }

  lemma TwiceMeansTwo(hits: seq<Hit>, i: nat, j: nat)
    requires i < j < |hits| && hits[i] == hits[j]
    ensures multiset(hits)[hits[i]] >= 2
  {
    assert hits == hits[..j] + ([hits[j]] + hits[j + 1..]);
    assert hits[..j][i] == hits[i];
    assert multiset(hits[..j])[hits[i]] >= 1;
  }

  lemma DistinctWhenReordered(hits: seq<Hit>, sorted: seq<Hit>)
    requires DistinctPlaces(hits) && multiset(sorted) == multiset(hits)
    ensures DistinctPlaces(sorted)
  {
    forall i, j | 0 <= i < j < |sorted|
      ensures sorted[i].document != sorted[j].document || sorted[i].index != sorted[j].index
    {
      assert sorted[i] in multiset(hits) && sorted[j] in multiset(hits);
      var a :| 0 <= a < |hits| && hits[a] == sorted[i];
      var b :| 0 <= b < |hits| && hits[b] == sorted[j];
      if sorted[i] == sorted[j] {
        TwiceMeansTwo(sorted, i, j);
        DistinctMeansOnce(hits, sorted[i]);
      }
    }
  }

  /** Retrieved chunks of distinct places with clean contents: the final list shows a partition, into runs
      of consecutive chunks, of exactly the hits that were selected. */
  lemma EffectivePartitions(simplify: Simplify, hits: seq<Hit>, policy: Policy)
    returns (sorted: seq<Hit>, runs: seq<Run>)
    requires hits != [] && DistinctPlaces(hits) && forall h :: h in hits ==> CleanContent(h)
    ensures sorted == StableSort(ByScoreThenIndex, hits) && |sorted| > 0
    ensures ShownAs(runs, Effective(simplify, hits, policy))
    ensures multiset(AllParts(runs)) == multiset(Select(simplify, NormalizePolicy(policy), sorted))
  {
    sorted := StableSort(ByScoreThenIndex, hits);
    SortPermutes(ByScoreThenIndex, hits);
    ScoreOrders();
    SortSorts(ByScoreThenIndex, hits);
    DistinctWhenReordered(hits, sorted);
    var p := NormalizePolicy(policy);
    var at := SelectionIsGreedy(simplify, p, sorted);
    var kept := Select(simplify, p, sorted);
    SelectionIsRanked(sorted, kept, at);
    forall k | 0 <= k < |kept|
      ensures CleanContent(kept[k])
    {
      assert sorted[at[k]] in multiset(hits);
    }
    SelectionIsDistinct(sorted, kept, at);
    runs := MergingPartitions(kept);
  }

  lemma SelectionIsDistinct(sorted: seq<Hit>, kept: seq<Hit>, at: seq<nat>)
    requires DistinctPlaces(sorted) && Selection(sorted, kept, at)
    ensures DistinctPlaces(kept)
  {
  }
}
