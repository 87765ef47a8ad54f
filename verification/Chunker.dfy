/** The document chunker: sliding windows over the runes of a segment, each cut back to a sentence
    boundary when one is near, with a configured overlap (documentchunk/chunker.go). */
module Chunker {
  import opened Arithmetic
  import opened Options
  import opened Text

  /** Sizes in runes.  Values come from configuration and may be out of range. */
  datatype Config = Config(size: int, overlap: int, minSize: int, lookback: int) {
    /** What NormalizeConfig guarantees and the splitting loop relies on. */
    ghost predicate Normal() {
      200 <= size && 0 <= overlap < size && 1 <= minSize < size && 0 <= lookback < size
    }
  }

  /** The normal configuration that keeps every field of `value` it can and has the default elsewhere. */
  ghost predicate Normalizes(value: Config, config: Config) {
    && config.Normal()
    && (if value.size >= 200 then config.size == value.size else config.size == 800)
    && (if 0 <= value.overlap < config.size then config.overlap == value.overlap else config.overlap == 120)
    && (if 1 <= value.minSize < config.size then config.minSize == value.minSize else config.minSize == 120)
    && (if 0 <= value.lookback < config.size then config.lookback == value.lookback else config.lookback == 160)
  }

  function EffectiveConfig(value: Config): (config: Config)
    ensures Normalizes(value, config)
    ensures value.Normal() ==> config == value
  {
    var size := if value.size < 200 then 800 else value.size;
    Config(
      size,
      if value.overlap < 0 || value.overlap >= size then 120 else value.overlap,
      if value.minSize < 1 || value.minSize >= size then 120 else value.minSize,
      if value.lookback < 0 || value.lookback >= size then 160 else value.lookback)
  }

  method NormalizeConfig(value: Config) returns (config: Config)
    ensures config == EffectiveConfig(value) && Normalizes(value, config)
  {
    var size := value.size;
    if size < 200 {
      size := 800;
    }
    var overlap := value.overlap;
    if overlap < 0 || overlap >= size {
      overlap := 120;
    }
    var minSize := value.minSize;
    if minSize < 1 || minSize >= size {
      minSize := 120;
    }
    var lookback := value.lookback;
    if lookback < 0 || lookback >= size {
      lookback := 160;
    }
    config := Config(size, overlap, minSize, lookback);
  }

  predicate IsStop(c: char) {
    || c == '\n' || c == '。' || c == '！' || c == '？' || c == '.'
    || c == '!' || c == '?' || c == ';' || c == '；'
  }

  // ----- Window ends -----

  /** `r` is the boundary nearest below `end` and above `lower`, or `end` when there is none. */
  ghost predicate IsBoundary(runes: string, lower: int, end: int, r: int)
    requires 0 <= lower <= end <= |runes|
  {
    || (r == end && forall k :: lower <= k < end ==> !IsStop(runes[k]))
    || (lower < r <= end && IsStop(runes[r - 1]) && forall k :: r <= k < end ==> !IsStop(runes[k]))
  }

  function Boundary(runes: string, lower: int, index: int, end: int): (r: int)
    requires 0 <= lower <= index <= end <= |runes|
    requires forall k :: index <= k < end ==> !IsStop(runes[k])
    ensures IsBoundary(runes, lower, end, r)
    decreases index
  {
    if index <= lower then end
    else if IsStop(runes[index - 1]) then index
    else Boundary(runes, lower, index - 1, end)
  }

  method FindBoundary(runes: string, start: int, end: int, lookback: int, minSize: int) returns (r: int)
    requires 0 <= start <= end <= |runes| && 0 <= lookback && 0 <= minSize <= end - start
    ensures IsBoundary(runes, Max(start + minSize, end - lookback), end, r)
  {
    var lower := Max(start + minSize, end - lookback);
    var index := end;
    while index > lower
      invariant lower <= index <= end
      invariant forall k :: index <= k < end ==> !IsStop(runes[k])
    {
      if IsStop(runes[index - 1]) {
        return index;
      }
      index := index - 1;
    }
    return end;
  }

  /** At most one position meets the boundary specification, so the method and the function agree. */
  lemma BoundaryUnique(runes: string, lower: int, end: int, r: int, q: int)
    requires 0 <= lower <= end <= |runes|
    requires IsBoundary(runes, lower, end, r) && IsBoundary(runes, lower, end, q)
    ensures r == q
  {
    if lower < end {
      var atR, atQ := IsStop(runes[Max(r, 1) - 1]), IsStop(runes[Max(q, 1) - 1]);
    }
  }

  // ----- Windows -----

  datatype Window = Window(start: int, end: int)

  function Lower(config: Config, start: int, end: int): int {
    Max(start + config.minSize, end - config.lookback)
  }

  function WindowAt(runes: string, config: Config, start: int): (w: Window)
    requires config.Normal() && 0 <= start < |runes|
    ensures w.start == start < w.end <= |runes| && w.end - w.start <= config.size
  {
    var end := Min(start + config.size, |runes|);
    Window(start, if end < |runes| then Boundary(runes, Lower(config, start, end), end, end) else end)
  }

  function NextStart(config: Config, w: Window): int {
    if w.end - config.overlap <= w.start then w.end else w.end - config.overlap
  }

  /** The windows the loop visits from `start` on. */
  function Windows(runes: string, config: Config, start: int): (ws: seq<Window>)
    requires config.Normal() && 0 <= start <= |runes|
    ensures forall w :: w in ws ==> 0 <= w.start <= w.end <= |runes|
    decreases |runes| - start
  {
    if start == |runes| then []
    else
      var w := WindowAt(runes, config, start);
      if w.end == |runes| then [w] else [w] + Windows(runes, config, NextStart(config, w))
  }

  function WindowText(runes: string, w: Window): string
    requires 0 <= w.start <= w.end <= |runes|
  {
    runes[w.start..w.end]
  }

  /** The contents emitted for a list of windows: trimmed, blank ones left out. */
  function Emitted(runes: string, ws: seq<Window>): seq<string>
    requires forall w :: w in ws ==> 0 <= w.start <= w.end <= |runes|
  {
    if ws == [] then []
    else
      var content := Trim(GoSpace, WindowText(runes, ws[0]));
      (if content != [] then [content] else []) + Emitted(runes, ws[1..])
  }

  /** Every link of the chain the loop builds, stated position by position. */
  ghost predicate Chain(runes: string, config: Config, start: int, ws: seq<Window>)
    requires config.Normal()
  {
    && 0 <= start < |runes| && 0 < |ws| && ws[0].start == start
    && ws[|ws| - 1].end == |runes|
    && (forall i :: 0 <= i < |ws| ==> 0 <= ws[i].start < |runes| && ws[i] == WindowAt(runes, config, ws[i].start))
    && (forall i :: 0 <= i < |ws| - 1 ==> ws[i].end < |runes| && ws[i + 1].start == NextStart(config, ws[i]))
  }

  lemma ChainGrows(runes: string, config: Config, w: Window, rest: seq<Window>)
    requires config.Normal() && 0 <= w.start < |runes| && w == WindowAt(runes, config, w.start) && w.end < |runes|
    requires Chain(runes, config, NextStart(config, w), rest)
    ensures Chain(runes, config, w.start, [w] + rest)
  {
    var ws := [w] + rest;
    forall i | 0 <= i < |ws| - 1
      ensures ws[i].end < |runes| && ws[i + 1].start == NextStart(config, ws[i])
    {
      if i > 0 {
        assert ws[i] == rest[i - 1] && ws[i + 1] == rest[i];
      }
    }
  }

  lemma {:induction false} WindowsFormChain(runes: string, config: Config, start: int)
    requires config.Normal() && 0 <= start < |runes|
    ensures Chain(runes, config, start, Windows(runes, config, start))
    decreases |runes| - start
  {
    var w := WindowAt(runes, config, start);
    if w.end < |runes| {
      var next := NextStart(config, w);
      WindowsFormChain(runes, config, next);
      ChainGrows(runes, config, w, Windows(runes, config, next));
    }
  }

  /** The end of a window never lies before the end of the window that led to it, and when it is the
      same the two windows overlap, so it cannot happen twice running. */
  lemma NextEndNotBefore(runes: string, config: Config, w: Window)
    requires config.Normal() && 0 <= w.start < |runes| && w == WindowAt(runes, config, w.start) && w.end < |runes|
    ensures var v := WindowAt(runes, config, NextStart(config, w));
            w.start < v.start && w.end <= v.end && (v.end == w.end ==> NextStart(config, v) == v.end)
  {
    var raw := w.start + config.size;
    var lower := Lower(config, w.start, raw);
    var v := WindowAt(runes, config, NextStart(config, w));
    var raw' := Min(v.start + config.size, |runes|);
    if raw' < |runes| {
      var lower' := Lower(config, v.start, raw');
      assert lower <= lower';
      var atV, atW := IsStop(runes[v.end - 1]), IsStop(runes[w.end - 1]);
    }
  }

  /** Window ends never go backwards, starts strictly increase, and no three windows in a row end at
      the same place. */
  lemma EndsNeverGoBack(runes: string, config: Config, i: nat)
    requires config.Normal() && 0 < |runes|
    requires i + 1 < |Windows(runes, config, 0)|
    ensures var ws := Windows(runes, config, 0);
            && ws[i].start < ws[i + 1].start
            && ws[i].end <= ws[i + 1].end
            && (i + 2 < |ws| && ws[i].end == ws[i + 1].end ==> ws[i + 1].end < ws[i + 2].end)
  {
    var ws := Windows(runes, config, 0);
    WindowsFormChain(runes, config, 0);
    NextEndNotBefore(runes, config, ws[i]);
    if i + 2 < |ws| {
      assert ws[i + 1].end < |runes|;
      NextEndNotBefore(runes, config, ws[i + 1]);
    }
  }

  /** Each window holds 1 to `size` runes; neighbours share exactly `overlap` runes, or none when the
      overlap would not let the loop advance. */
  lemma WindowsShareOverlap(runes: string, config: Config, i: nat)
    requires config.Normal() && 0 < |runes| && i < |Windows(runes, config, 0)|
    ensures var ws := Windows(runes, config, 0);
            && 1 <= ws[i].end - ws[i].start <= config.size
            && (i + 1 < |ws| ==>
                  ws[i].end - ws[i + 1].start == if ws[i].end - ws[i].start > config.overlap then config.overlap else 0)
  {
    WindowsFormChain(runes, config, 0);
  }

  lemma OneMoreStride(i: nat, stride: int)
    ensures i * stride == (i - 1) * stride + stride
  {
  }

  lemma OneStride(runes: string, config: Config, w: Window)
    requires config.Normal() && 0 <= w.start < |runes| && w == WindowAt(runes, config, w.start) && w.end < |runes|
    ensures w.start + config.size - config.lookback - config.overlap <= NextStart(config, w)
  {
  }

  lemma ChainStride(runes: string, config: Config, ws: seq<Window>, i: nat)
    requires config.Normal() && Chain(runes, config, 0, ws) && i + 1 < |ws|
    ensures ws[i].start + config.size - config.lookback - config.overlap <= ws[i + 1].start
  {
    OneStride(runes, config, ws[i]);
  }

  lemma {:induction false} StridesAddUp(runes: string, config: Config, ws: seq<Window>, i: nat, stride: int)
    requires config.Normal() && Chain(runes, config, 0, ws) && i < |ws|
    requires stride == config.size - config.lookback - config.overlap
    ensures i * stride <= ws[i].start
  {
    if i > 0 {
      StridesAddUp(runes, config, ws, i - 1, stride);
      ChainStride(runes, config, ws, i - 1);
      OneMoreStride(i, stride);
    }
  }

  /** With size > lookback + overlap, starts are at least size - lookback - overlap apart. */
  lemma StartsAdvance(runes: string, config: Config, i: nat)
    requires config.Normal() && 0 < |runes| && config.size > config.lookback + config.overlap
    requires i < |Windows(runes, config, 0)|
    ensures i * (config.size - config.lookback - config.overlap) <= Windows(runes, config, 0)[i].start
  {
    WindowsFormChain(runes, config, 0);
    StridesAddUp(runes, config, Windows(runes, config, 0), i, config.size - config.lookback - config.overlap);
  }

  /** The number of windows is at most 1 + (n - 1) / (size - lookback - overlap). */
  lemma WindowCountBound(runes: string, config: Config)
    requires config.Normal() && 0 < |runes| && config.size > config.lookback + config.overlap
    ensures |Windows(runes, config, 0)| <= 1 + (|runes| - 1) / (config.size - config.lookback - config.overlap)
  {
    var ws := Windows(runes, config, 0);
    WindowsFormChain(runes, config, 0);
    StartsAdvance(runes, config, |ws| - 1);
    var stride := config.size - config.lookback - config.overlap;
    QuotientBound(|ws| - 1, stride, |runes| - 1);
  }

  lemma MultiplyKeepsOrder(a: int, b: int, d: int)
    requires a <= b && 0 <= d
    ensures a * d <= b * d
  {
  }

  lemma QuotientBound(q: nat, d: int, n: int)
    requires 0 < d && q * d <= n
    ensures q <= n / d
  {
    var quotient := n / d;
    assert n < (quotient + 1) * d;
    if quotient < q {
      MultiplyKeepsOrder(quotient + 1, q, d);
    }
  }

  // ----- Reconstruction -----

  /** Put windows back together, dropping from each the runes it shares with the one before. */
  ghost function Stitch(runes: string, ws: seq<Window>, covered: int): string
    requires forall w :: w in ws ==> 0 <= w.start <= w.end <= |runes|
  {
    if ws == [] then ""
    else
      var text := WindowText(runes, ws[0]);
      var shared := Max(0, Min(covered - ws[0].start, |text|));
      text[shared..] + Stitch(runes, ws[1..], ws[0].end)
  }

  lemma WindowTail(runes: string, w: Window, covered: int)
    requires 0 <= w.start <= covered <= w.end <= |runes|
    ensures WindowText(runes, w)[covered - w.start..] == runes[covered..w.end]
    ensures runes[covered..w.end] + runes[w.end..] == runes[covered..]
  {
  }

  lemma {:induction false} StitchRestores(runes: string, config: Config, start: int, covered: int)
    requires config.Normal() && 0 <= start <= covered <= |runes|
    requires start < |runes| && covered <= WindowAt(runes, config, start).end
    ensures Stitch(runes, Windows(runes, config, start), covered) == runes[covered..]
    decreases |runes| - start
  {
    var ws := Windows(runes, config, start);
    var w := WindowAt(runes, config, start);
    WindowTail(runes, w, covered);
    if w.end < |runes| {
      var next := NextStart(config, w);
      NextEndNotBefore(runes, config, w);
      StitchRestores(runes, config, next, w.end);
      assert ws == [w] + Windows(runes, config, next);
      assert ws[1..] == Windows(runes, config, next);
    } else {
      assert ws[1..] == [];
    }
  }

  /** Concatenating the windows minus their overlaps gives back the whole text. */
  lemma WindowsRestoreText(runes: string, config: Config)
    requires config.Normal()
    ensures Stitch(runes, Windows(runes, config, 0), 0) == runes
  {
    if runes != [] {
      StitchRestores(runes, config, 0, 0);
    }
  }

  // ----- Segments -----

  function Split(text: string, config: Config): seq<string>
    requires config.Normal()
  {
    var runes := Trim(GoSpace, text);
    Emitted(runes, Windows(runes, config, 0))
  }

  /** What one turn of the loop at `start` appends, and what the later turns append. */
  function PieceAt(runes: string, config: Config, start: int): seq<string>
    requires config.Normal() && 0 <= start < |runes|
  {
    var content := Trim(GoSpace, WindowText(runes, WindowAt(runes, config, start)));
    if content != [] then [content] else []
  }

  function TailAfter(runes: string, config: Config, w: Window): seq<string>
    requires config.Normal() && 0 <= w.start < w.end <= |runes|
  {
    if w.end == |runes| then [] else Emitted(runes, Windows(runes, config, NextStart(config, w)))
  }

  lemma SplitStep(runes: string, config: Config, start: int)
    requires config.Normal() && 0 <= start < |runes|
    ensures var w := WindowAt(runes, config, start);
            Emitted(runes, Windows(runes, config, start))
            == PieceAt(runes, config, start)
               + TailAfter(runes, config, w)
  {
    var w := WindowAt(runes, config, start);
    var ws := Windows(runes, config, start);
    assert ws[0] == w;
    assert ws[1..] == if w.end == |runes| then [] else Windows(runes, config, NextStart(config, w));
  }

  method WindowEnd(runes: string, config: Config, start: int) returns (end: int)
    requires config.Normal() && 0 <= start < |runes|
    ensures Window(start, end) == WindowAt(runes, config, start)
  {
    end := Min(start + config.size, |runes|);
    if end < |runes| {
      var raw := end;
      end := FindBoundary(runes, start, raw, config.lookback, config.minSize);
      var lower := Lower(config, start, raw);
      BoundaryUnique(runes, lower, raw, end, Boundary(runes, lower, raw, raw));
    }
  }

  /** `result` is what the loop has emitted before `start`. */
  ghost predicate Progress(text: string, config: Config, start: int, result: seq<string>)
    requires config.Normal() && 0 <= start <= |Trim(GoSpace, text)|
  {
    var runes := Trim(GoSpace, text);
    result + Emitted(runes, Windows(runes, config, start)) == Split(text, config)
  }

  lemma TurnKeepsProgress(text: string, config: Config, start: int, result: seq<string>)
    requires config.Normal() && 0 <= start < |Trim(GoSpace, text)| && Progress(text, config, start, result)
    ensures var runes := Trim(GoSpace, text);
            var w := WindowAt(runes, config, start);
            var result' := result + PieceAt(runes, config, start);
            if w.end == |runes| then result' == Split(text, config)
            else Progress(text, config, NextStart(config, w), result')
  {
    var runes := Trim(GoSpace, text);
    var piece, tail := PieceAt(runes, config, start), TailAfter(runes, config, WindowAt(runes, config, start));
    SplitStep(runes, config, start);
    assert result + (piece + tail) == (result + piece) + tail;
  }

  method SplitSegment(text: string, config: Config) returns (result: seq<string>)
    requires config.Normal()
    ensures result == Split(text, config)
  {
    var runes := Trim(GoSpace, text);
    result := [];
    if |runes| == 0 {
      return;
    }
    var start := 0;
    while start < |runes|
      invariant 0 <= start < |runes| && Progress(text, config, start, result)
    {
      var end := WindowEnd(runes, config, start);
      TurnKeepsProgress(text, config, start, result);
      ghost var grown := result + PieceAt(runes, config, start);
      var content := Trim(GoSpace, runes[start..end]);
      if content != [] {
        result := result + [content];
      }
      assert result == grown;
      if end >= |runes| {
        break;
      }
      var next := end - config.overlap;
      if next <= start {
        next := end;
      }
      assert next == NextStart(config, WindowAt(runes, config, start));
      start := next;
    }
  }

  lemma {:induction false} EmittedHolds(runes: string, ws: seq<Window>, w: Window)
    requires forall v :: v in ws ==> 0 <= v.start <= v.end <= |runes|
    requires w in ws && Trim(GoSpace, WindowText(runes, w)) != []
    ensures Trim(GoSpace, WindowText(runes, w)) in Emitted(runes, ws)
  {
    if w != ws[0] {
      EmittedHolds(runes, ws[1..], w);
    }
  }

  lemma {:induction false} SomeWindowCovers(runes: string, config: Config, start: int, p: int) returns (w: Window)
    requires config.Normal() && 0 <= start <= p < |runes|
    ensures w in Windows(runes, config, start) && 0 <= w.start <= p < w.end <= |runes|
    decreases |runes| - start
  {
    w := WindowAt(runes, config, start);
    if p >= w.end {
      w := SomeWindowCovers(runes, config, NextStart(config, w), p);
    }
  }

  lemma WindowKeepsRune(runes: string, w: Window, p: int) returns (lo: int, hi: int)
    requires 0 <= w.start <= p < w.end <= |runes| && !GoSpace(runes[p])
    ensures w.start <= lo <= p < hi <= w.end && Trim(GoSpace, WindowText(runes, w)) == runes[lo..hi]
  {
    var piece := WindowText(runes, w);
    var from, to := TrimCovers(GoSpace, piece, p - w.start);
    lo, hi := w.start + from, w.start + to;
    SliceOfSlice(runes, w.start, w.end, from, to);
  }

  lemma SliceOfSlice(s: string, a: int, b: int, from: int, to: int)
    requires 0 <= a <= b <= |s| && 0 <= from <= to <= b - a
    ensures s[a..b][from..to] == s[a + from..a + to]
  {
    var inner, outer := s[a..b][from..to], s[a + from..a + to];
    assert |inner| == |outer|;
    assert forall i :: 0 <= i < |inner| ==> inner[i] == outer[i];
  }

  /** Every rune of the trimmed text that is not white space lies inside some emitted chunk. */
  lemma NoRuneIsLost(text: string, config: Config, p: nat) returns (lo: int, hi: int)
    requires config.Normal()
    requires p < |Trim(GoSpace, text)| && !GoSpace(Trim(GoSpace, text)[p])
    ensures 0 <= lo <= p < hi <= |Trim(GoSpace, text)|
    ensures Trim(GoSpace, text)[lo..hi] in Split(text, config)
  {
    var runes := Trim(GoSpace, text);
    var w := SomeWindowCovers(runes, config, 0, p);
    lo, hi := WindowKeepsRune(runes, w, p);
    EmittedHolds(runes, Windows(runes, config, 0), w);
  }

  lemma {:induction false} EmittedContentsSound(runes: string, ws: seq<Window>, size: int)
    requires forall v :: v in ws ==> 0 <= v.start <= v.end <= |runes| && v.end - v.start <= size
    ensures forall c :: c in Emitted(runes, ws) ==> c != [] && |c| <= size && Trimmed(GoSpace, c)
  {
    if ws != [] {
      TrimIsTrimmed(GoSpace, WindowText(runes, ws[0]));
      EmittedContentsSound(runes, ws[1..], size);
    }
  }

  /** Every emitted chunk is non-empty, trimmed and at most `size` runes long. */
  lemma ChunksWellFormed(text: string, config: Config)
    requires config.Normal()
    ensures forall c :: c in Split(text, config) ==> c != [] && |c| <= config.size && Trimmed(GoSpace, c)
  {
    var runes := Trim(GoSpace, text);
    if runes != [] {
      WindowsFormChain(runes, config, 0);
    }
    EmittedContentsSound(runes, Windows(runes, config, 0), config.size);
  }

  // ----- Chunk rows -----

  datatype Segment = Segment(content: string, section: string, page: int)

  /** The metadata column: JSON that does not decode, or the segments it lists. */
  datatype Metadata = Malformed | Segments(items: seq<Segment>)

  datatype ParsedText = ParsedText(plainText: string, metadata: Metadata)

  /** The SHA-1 name of a chunk row, kept as the data it is computed from. */
  datatype ChunkId = ChunkId(document: nat, version: nat, content: string, index: nat)

  datatype ChunkRow = ChunkRow(id: ChunkId, section: string, page: int, deleted: bool)

  function EffectiveSegments(parsed: ParsedText): seq<Segment>
    requires parsed.metadata.Segments?
  {
    if parsed.metadata.items == [] then [Segment(parsed.plainText, "", 0)] else parsed.metadata.items
  }

  datatype Piece = Piece(content: string, segment: Segment)

  function Label(contents: seq<string>, segment: Segment): (pieces: seq<Piece>)
    ensures |pieces| == |contents|
  {
    seq(|contents|, i requires 0 <= i < |contents| => Piece(contents[i], segment))
  }

  function Pieces(segments: seq<Segment>, config: Config): seq<Piece>
    requires config.Normal()
  {
    if segments == [] then [] else
      Pieces(segments[..|segments| - 1], config)
      + Label(Split(segments[|segments| - 1].content, config), segments[|segments| - 1])
  }

  function RowFor(document: nat, version: nat, piece: Piece, index: nat): ChunkRow {
    ChunkRow(ChunkId(document, version, piece.content, index), piece.segment.section, piece.segment.page, false)
  }

  function Number(document: nat, version: nat, pieces: seq<Piece>): (rows: seq<ChunkRow>)
    ensures |rows| == |pieces|
  {
    seq(|pieces|, i requires 0 <= i < |pieces| => RowFor(document, version, pieces[i], i))
  }

  /** The rows of a document, or None when its metadata is malformed or nothing is left to chunk.  The
      configuration may be any; it is normalised first. */
  function BuildRows(document: nat, version: nat, parsed: ParsedText, chunking: Config): Option<seq<ChunkRow>> {
    if parsed.metadata.Malformed? then None
    else
      var rows := Number(document, version, Pieces(EffectiveSegments(parsed), EffectiveConfig(chunking)));
      if rows == [] then None else Some(rows)
  }

  lemma NumberAppend(document: nat, version: nat, pieces: seq<Piece>, piece: Piece)
    ensures Number(document, version, pieces + [piece])
         == Number(document, version, pieces) + [RowFor(document, version, piece, |pieces|)]
  {
  }

  method AppendRows(document: nat, version: nat, segment: Segment, config: Config, ghost pieces: seq<Piece>,
                    chunks: seq<ChunkRow>) returns (r: seq<ChunkRow>)
    requires config.Normal() && chunks == Number(document, version, pieces)
    ensures r == Number(document, version, pieces + Label(Split(segment.content, config), segment))
  {
    var contents := SplitSegment(segment.content, config);
    ghost var labelled := Label(contents, segment);
    ghost var done := pieces;
    r := chunks;
    for c := 0 to |contents|
      invariant done == pieces + labelled[..c]
      invariant r == Number(document, version, done)
    {
      OneMorePiece(pieces, labelled, c);
      NumberAppend(document, version, done, labelled[c]);
      r := r + [RowFor(document, version, Piece(contents[c], segment), |r|)];
      done := done + [labelled[c]];
    }
    assert labelled[..|contents|] == labelled;
  }

  lemma OneMorePiece(pieces: seq<Piece>, more: seq<Piece>, c: nat)
    requires c < |more|
    ensures pieces + more[..c + 1] == pieces + more[..c] + [more[c]]
  {
  }

  method Build(document: nat, version: nat, parsed: ParsedText, chunking: Config) returns (r: Option<seq<ChunkRow>>)
    ensures r == BuildRows(document, version, parsed, chunking)
  {
    if parsed.metadata.Malformed? {
      return None;
    }
    var segments := parsed.metadata.items;
    if |segments| == 0 {
      segments := [Segment(parsed.plainText, "", 0)];
    }
    var config := NormalizeConfig(chunking);
    var chunks: seq<ChunkRow> := [];
    for s := 0 to |segments|
      invariant chunks == Number(document, version, Pieces(segments[..s], config))
    {
      chunks := AppendRows(document, version, segments[s], config, Pieces(segments[..s], config), chunks);
      assert segments[..s + 1][..s] == segments[..s];
    }
    assert segments[..|segments|] == segments;
    if |chunks| == 0 {
      return None;
    }
    return Some(chunks);
  }

  lemma {:induction false} PiecesWellFormed(segments: seq<Segment>, config: Config)
    requires config.Normal()
    ensures forall p :: p in Pieces(segments, config) ==>
              p.segment in segments && p.content in Split(p.segment.content, config)
              && p.content != [] && |p.content| <= config.size && Trimmed(GoSpace, p.content)
  {
    if segments != [] {
      var last := segments[|segments| - 1];
      PiecesWellFormed(segments[..|segments| - 1], config);
      ChunksWellFormed(last.content, config);
    }
  }

  /** Built rows are live, belong to the document, are numbered 0, 1, 2, ... in order, have distinct
      ids, and hold trimmed, non-empty content of at most `size` runes. */
  lemma BuiltRowsWellFormed(document: nat, version: nat, parsed: ParsedText, chunking: Config)
    requires BuildRows(document, version, parsed, chunking).Some?
    ensures var rows, config := BuildRows(document, version, parsed, chunking).value, EffectiveConfig(chunking);
            && rows != []
            && (forall i :: 0 <= i < |rows| ==>
                  && !rows[i].deleted && rows[i].id.document == document && rows[i].id.index == i
                  && rows[i].id.content != [] && |rows[i].id.content| <= config.size
                  && Trimmed(GoSpace, rows[i].id.content))
            && (forall i, j :: 0 <= i < j < |rows| ==> rows[i].id != rows[j].id)
  {
    var config := EffectiveConfig(chunking);
    var pieces := Pieces(EffectiveSegments(parsed), config);
    PiecesWellFormed(EffectiveSegments(parsed), config);
    var rows := Number(document, version, pieces);
    forall i | 0 <= i < |rows|
      ensures rows[i].id.content != [] && |rows[i].id.content| <= config.size && Trimmed(GoSpace, rows[i].id.content)
    {
      assert pieces[i] in pieces;
    }
  }

  lemma {:induction false} PiecesHold(segments: seq<Segment>, config: Config, s: Segment, content: string)
    requires config.Normal() && s in segments && content in Split(s.content, config)
    ensures Piece(content, s) in Pieces(segments, config)
  {
    var last := segments[|segments| - 1];
    var contents := Split(last.content, config);
    if s == last {
      var i :| 0 <= i < |contents| && contents[i] == content;
      assert Label(contents, last)[i] == Piece(content, s);
    } else {
      assert s in segments[..|segments| - 1];
      PiecesHold(segments[..|segments| - 1], config, s, content);
    }
  }

  /** A character that is not white space. */
  ghost predicate HasInk(s: string) {
    exists k :: 0 <= k < |s| && !GoSpace(s[k])
  }

  lemma InkIsKept(s: string)
    ensures HasInk(s) <==> Trim(GoSpace, s) != []
  {
    if HasInk(s) {
      var k :| 0 <= k < |s| && !GoSpace(s[k]);
      var lo, hi := TrimCovers(GoSpace, s, k);
    } else {
      var lo, hi := TrimSpan(GoSpace, s);
      assert lo == hi;
    }
  }

  ghost predicate SomeInk(segments: seq<Segment>) {
    exists s :: s in segments && HasInk(s.content)
  }

  lemma PiecesWhenInk(segments: seq<Segment>, config: Config)
    requires config.Normal()
    ensures Pieces(segments, config) != [] <==> SomeInk(segments)
  {
    var pieces := Pieces(segments, config);
    PiecesWellFormed(segments, config);
    if pieces != [] {
      assert pieces[0] in pieces;
      InkIsKept(pieces[0].segment.content);
    }
    if s :| s in segments && HasInk(s.content) {
      InkIsKept(s.content);
      TrimIsTrimmed(GoSpace, s.content);
      var lo, hi := NoRuneIsLost(s.content, config, 0);
      PiecesHold(segments, config, s, Trim(GoSpace, s.content)[lo..hi]);
    }
  }

  /** Chunking succeeds exactly when the metadata can be read and there is a character that is not white
      space: in some segment, or in the plain text when there are no segments. */
  lemma BuildSucceedsIff(document: nat, version: nat, parsed: ParsedText, chunking: Config)
    ensures BuildRows(document, version, parsed, chunking).Some? <==>
              && parsed.metadata.Segments?
              && (if parsed.metadata.items == [] then HasInk(parsed.plainText)
                  else exists s :: s in parsed.metadata.items && HasInk(s.content))
  {
    if parsed.metadata.Segments? {
      var segments := EffectiveSegments(parsed);
      PiecesWhenInk(segments, EffectiveConfig(chunking));
      assert parsed.metadata.items == [] ==> segments[0] == Segment(parsed.plainText, "", 0) && segments[0] in segments;
    }
  }

  /** The rows from `from` to `to` are the chunks of one text, in order, under one heading and page. */
  ghost predicate RowsOfText(rows: seq<ChunkRow>, from: nat, to: nat, contents: seq<string>, section: string, page: int)
  {
    && from <= to <= |rows| && to - from == |contents|
    && (forall i :: from <= i < to ==>
          && rows[i].id.content == contents[i - from]
          && rows[i].section == section && rows[i].page == page)
  }

  ghost predicate PiecesOfText(pieces: seq<Piece>, from: nat, to: nat, contents: seq<string>, segment: Segment) {
    && from <= to <= |pieces| && to - from == |contents|
    && (forall i :: from <= i < to ==> pieces[i] == Piece(contents[i - from], segment))
  }

  ghost predicate CutBySegments(pieces: seq<Piece>, segments: seq<Segment>, config: Config, cuts: seq<nat>)
    requires config.Normal()
  {
    && |cuts| == |segments| + 1 && cuts[0] == 0 && cuts[|segments|] == |pieces|
    && (forall k :: 0 <= k < |segments| ==>
          PiecesOfText(pieces, cuts[k], cuts[k + 1], Split(segments[k].content, config), segments[k]))
  }

  lemma OneMoreCut(pieces: seq<Piece>, segments: seq<Segment>, config: Config, cuts: seq<nat>, last: Segment)
    requires config.Normal() && CutBySegments(pieces, segments, config, cuts)
    ensures var more := pieces + Label(Split(last.content, config), last);
            CutBySegments(more, segments + [last], config, cuts + [|more|])
  {
    var more := pieces + Label(Split(last.content, config), last);
    var all, cuts' := segments + [last], cuts + [|more|];
    forall k | 0 <= k < |all|
      ensures PiecesOfText(more, cuts'[k], cuts'[k + 1], Split(all[k].content, config), all[k])
    {
      if k < |segments| {
        assert PiecesOfText(pieces, cuts[k], cuts[k + 1], Split(segments[k].content, config), segments[k]);
      }
    }
  }

  lemma {:induction false} PiecesFollowSegments(segments: seq<Segment>, config: Config) returns (cuts: seq<nat>)
    requires config.Normal()
    ensures CutBySegments(Pieces(segments, config), segments, config, cuts)
  {
    if segments == [] {
      cuts := [0];
    } else {
      var front, last := segments[..|segments| - 1], segments[|segments| - 1];
      cuts := PiecesFollowSegments(front, config);
      OneMoreCut(Pieces(front, config), front, config, cuts, last);
      assert front + [last] == segments;
      cuts := cuts + [|Pieces(segments, config)|];
    }
  }

  /** The rows of a document are the chunks of its first segment, then those of the second, and so on, each
      with the section and the page of its segment; without segments they are the chunks of the plain text,
      with no section and page 0. */
  lemma BuiltRowsFollowSegments(document: nat, version: nat, parsed: ParsedText, chunking: Config)
    returns (cuts: seq<nat>)
    requires BuildRows(document, version, parsed, chunking).Some?
    ensures var rows, items := BuildRows(document, version, parsed, chunking).value, parsed.metadata.items;
            var config := EffectiveConfig(chunking);
            && (forall i :: 0 <= i < |rows| ==> rows[i].id.version == version)
            && (items == [] ==> RowsOfText(rows, 0, |rows|, Split(parsed.plainText, config), "", 0))
            && (items != [] ==>
                  && |cuts| == |items| + 1 && cuts[0] == 0 && cuts[|items|] == |rows|
                  && (forall k :: 0 <= k < |items| ==>
                        RowsOfText(rows, cuts[k], cuts[k + 1], Split(items[k].content, config), items[k].section,
                                   items[k].page)))
  {
    var config, segments := EffectiveConfig(chunking), EffectiveSegments(parsed);
    cuts := PiecesFollowSegments(segments, config);
    var rows := Number(document, version, Pieces(segments, config));
    forall k | 0 <= k < |segments|
      ensures RowsOfText(rows, cuts[k], cuts[k + 1], Split(segments[k].content, config), segments[k].section,
                         segments[k].page)
    {
      assert PiecesOfText(Pieces(segments, config), cuts[k], cuts[k + 1], Split(segments[k].content, config),
                          segments[k]);
    }
    if parsed.metadata.items == [] {
      assert segments == [Segment(parsed.plainText, "", 0)];
      assert RowsOfText(rows, cuts[0], cuts[1], Split(segments[0].content, config), segments[0].section,
                        segments[0].page);
    }
  }
}
