/** Layout of an answer (citations.py, normalize_answer): line ends, outer white space and blank lines. */
module AnswerLayout {
  import opened Text

  function ReplaceCrLf(s: string): string {
    if |s| >= 2 && s[0] == '\r' && s[1] == '\n' then "\n" + ReplaceCrLf(s[2..])
    else if s == [] then []
    else [s[0]] + ReplaceCrLf(s[1..])
  }

  function SplitLines(s: string): (lines: seq<string>)
    ensures lines != []
  {
    if s == [] then [""]
    else
      var earlier := SplitLines(s[..|s| - 1]);
      var n := |earlier| - 1;
      if s[|s| - 1] == '\n' then earlier + [""] else earlier[..n] + [earlier[n] + [s[|s| - 1]]]
  }

  function StripLines(space: SpaceTest, lines: seq<string>): (r: seq<string>)
    ensures |r| == |lines| && forall i :: 0 <= i < |lines| ==> r[i] == Trim(space, lines[i])
  {
    seq(|lines|, i requires 0 <= i < |lines| => Trim(space, lines[i]))
  }

  /** Lines with every run of blank ones reduced to one, and none at the start. */
  function Collapse(lines: seq<string>): seq<string> {
    if lines == [] then []
    else
      var done, line := Collapse(lines[..|lines| - 1]), lines[|lines| - 1];
      if line != "" || (done != [] && done[|done| - 1] != "") then done + [line] else done
  }

  function JoinLines(lines: seq<string>): string {
    if lines == [] then ""
    else if |lines| == 1 then lines[0]
    else JoinLines(lines[..|lines| - 1]) + "\n" + lines[|lines| - 1]
  }

  function Normalized(answer: string): string {
    Trim(PythonSpace, JoinLines(Collapse(StripLines(PythonSpace, SplitLines(ReplaceCrLf(answer))))))
  }

  method CollapseLines(lines: seq<string>) returns (normalized: seq<string>)
    ensures normalized == Collapse(lines)
  {
    normalized := [];
    for i := 0 to |lines|
      invariant normalized == Collapse(lines[..i])
    {
      var line := lines[i];
      assert lines[..i + 1][..i] == lines[..i];
      if line == "" {
        if normalized != [] && normalized[|normalized| - 1] != "" {
          normalized := normalized + [""];
        }
        continue;
      }
      normalized := normalized + [line];
    }
    assert lines[..|lines|] == lines;
  }

  method NormalizeAnswer(answer: string) returns (r: string)
    ensures r == Normalized(answer)
  {
    var lines := StripLines(PythonSpace, SplitLines(ReplaceCrLf(answer)));
    var normalized := CollapseLines(lines);
    r := Trim(PythonSpace, JoinLines(normalized));
  }

  /** The characters that are not white space. */
  function Ink(space: SpaceTest, s: string): string {
    if s == [] then [] else (if space(s[0]) then [] else [s[0]]) + Ink(space, s[1..])
  }

  lemma Regroup(a: string, b: string, c: string)
    ensures (a + b) + c == a + (b + c)
  {
  }

  lemma InkOfFirst(space: SpaceTest, c: char, s: string)
    ensures Ink(space, [c] + s) == (if space(c) then [] else [c]) + Ink(space, s)
  {
    assert ([c] + s)[1..] == s;
  }

  lemma {:induction false} InkOfBoth(space: SpaceTest, a: string, b: string)
    ensures Ink(space, a + b) == Ink(space, a) + Ink(space, b)
  {
    if a == [] {
      assert a + b == b;
    } else {
      var c, rest := a[0], a[1..];
      assert a == [c] + rest;
      InkOfBoth(space, rest, b);
      InkOfFirst(space, c, rest);
      InkOfFirst(space, c, rest + b);
      Regroup([c], rest, b);
      Regroup(if space(c) then [] else [c], Ink(space, rest), Ink(space, b));
    }
  }

  lemma {:induction false} NoInk(space: SpaceTest, s: string)
    requires forall i :: 0 <= i < |s| ==> space(s[i])
    ensures Ink(space, s) == []
  {
    if s != [] {
      NoInk(space, s[1..]);
    }
  }

  lemma InkOfTrim(space: SpaceTest, s: string)
    ensures Ink(space, Trim(space, s)) == Ink(space, s)
  {
    var lo, hi := TrimSpan(space, s);
    NoInk(space, s[..lo]);
    NoInk(space, s[hi..]);
    assert s == s[..lo] + (s[lo..hi] + s[hi..]);
    InkOfBoth(space, s[..lo], s[lo..hi] + s[hi..]);
    InkOfBoth(space, s[lo..hi], s[hi..]);
  }

  lemma {:induction false} InkOfCrLf(space: SpaceTest, s: string)
    requires space('\r') && space('\n')
    ensures Ink(space, ReplaceCrLf(s)) == Ink(space, s)
    decreases |s|
  {
    if |s| >= 2 && s[0] == '\r' && s[1] == '\n' {
      var rest := s[2..];
      InkOfCrLf(space, rest);
      InkOfFirst(space, '\n', ReplaceCrLf(rest));
      InkOfFirst(space, '\n', rest);
      InkOfFirst(space, '\r', "\n" + rest);
      assert s == "\r" + ("\n" + rest);
    } else if s != [] {
      var rest := s[1..];
      InkOfCrLf(space, rest);
      InkOfFirst(space, s[0], ReplaceCrLf(rest));
      InkOfFirst(space, s[0], rest);
      assert s == [s[0]] + rest;
    }
  }

  function InkOfLines(space: SpaceTest, lines: seq<string>): string {
    if lines == [] then "" else InkOfLines(space, lines[..|lines| - 1]) + Ink(space, lines[|lines| - 1])
  }

  lemma InkOfMoreLines(space: SpaceTest, lines: seq<string>, line: string)
    ensures InkOfLines(space, lines + [line]) == InkOfLines(space, lines) + Ink(space, line)
  {
    assert (lines + [line])[..|lines|] == lines;
  }

  lemma InkOfLongerLine(space: SpaceTest, lines: seq<string>, c: char)
    requires lines != []
    ensures InkOfLines(space, lines[..|lines| - 1] + [lines[|lines| - 1] + [c]])
         == InkOfLines(space, lines) + Ink(space, [c])
  {
    var n := |lines| - 1;
    InkOfMoreLines(space, lines[..n], lines[n] + [c]);
    InkOfBoth(space, lines[n], [c]);
  }

  lemma InkOfNewline(space: SpaceTest)
    requires space('\n')
    ensures Ink(space, "\n") == []
  {
    NoInk(space, "\n");
  }

  lemma {:induction false} InkOfSplit(space: SpaceTest, s: string)
    requires space('\n')
    ensures InkOfLines(space, SplitLines(s)) == Ink(space, s)
  {
    if s == [] {
      InkOfMoreLines(space, [], "");
    } else {
      var front, last := s[..|s| - 1], s[|s| - 1];
      InkOfSplit(space, front);
      assert s == front + [last];
      InkOfBoth(space, front, [last]);
      if last == '\n' {
        InkOfMoreLines(space, SplitLines(front), "");
        InkOfNewline(space);
      } else {
        InkOfLongerLine(space, SplitLines(front), last);
      }
    }
  }

  lemma {:induction false} InkOfStripped(space: SpaceTest, lines: seq<string>)
    ensures InkOfLines(space, StripLines(space, lines)) == InkOfLines(space, lines)
  {
    if lines != [] {
      var n := |lines| - 1;
      InkOfStripped(space, lines[..n]);
      InkOfTrim(space, lines[n]);
      assert StripLines(space, lines)[..n] == StripLines(space, lines[..n]);
    }
  }

  lemma {:induction false} InkOfCollapsed(space: SpaceTest, lines: seq<string>)
    ensures InkOfLines(space, Collapse(lines)) == InkOfLines(space, lines)
  {
    if lines != [] {
      var done := Collapse(lines[..|lines| - 1]);
      InkOfCollapsed(space, lines[..|lines| - 1]);
      assert (done + [lines[|lines| - 1]])[..|done|] == done;
    }
  }

  lemma InkOfGlued(space: SpaceTest, a: string, b: string)
    requires space('\n')
    ensures Ink(space, a + "\n" + b) == Ink(space, a) + Ink(space, b)
  {
    InkOfBoth(space, a + "\n", b);
    InkOfBoth(space, a, "\n");
    InkOfNewline(space);
  }

  lemma {:induction false} InkOfJoined(space: SpaceTest, lines: seq<string>)
    requires space('\n')
    ensures Ink(space, JoinLines(lines)) == InkOfLines(space, lines)
  {
    if |lines| == 1 {
      InkOfMoreLines(space, [], lines[0]);
    } else if lines != [] {
      var front, last := lines[..|lines| - 1], lines[|lines| - 1];
      InkOfJoined(space, front);
      InkOfGlued(space, JoinLines(front), last);
    }
  }

  /** Normalising an answer adds, drops and moves nothing but white space. */
  lemma NormalizedKeepsInk(answer: string)
    ensures Ink(PythonSpace, Normalized(answer)) == Ink(PythonSpace, answer)
  {
    var lines := SplitLines(ReplaceCrLf(answer));
    var stripped := StripLines(PythonSpace, lines);
    InkOfCrLf(PythonSpace, answer);
    InkOfSplit(PythonSpace, ReplaceCrLf(answer));
    InkOfStripped(PythonSpace, lines);
    InkOfCollapsed(PythonSpace, stripped);
    InkOfJoined(PythonSpace, Collapse(stripped));
    InkOfTrim(PythonSpace, JoinLines(Collapse(stripped)));
  }

  ghost predicate CleanLine(line: string) {
    Trimmed(PythonSpace, line) && '\n' !in line
  }

  /** No blank line at the start and never two in a row. */
  ghost predicate Spaced(lines: seq<string>) {
    && (forall i :: 0 <= i < |lines| ==> CleanLine(lines[i]))
    && (lines != [] ==> lines[0] != "")
    && (forall i :: 0 < i < |lines| ==> lines[i - 1] != "" || lines[i] != "")
  }

  lemma {:induction false} SplitHasNoNewline(s: string)
    ensures forall i :: 0 <= i < |SplitLines(s)| ==> '\n' !in SplitLines(s)[i]
  {
    if s != [] {
      SplitHasNoNewline(s[..|s| - 1]);
    }
  }

  lemma SpacedStep(lines: seq<string>, line: string)
    requires Spaced(lines) && CleanLine(line) && (line != "" || EndsInText(lines))
    ensures Spaced(lines + [line])
  {
  }

  lemma {:induction false} CollapsedIsSpaced(lines: seq<string>)
    requires forall i :: 0 <= i < |lines| ==> CleanLine(lines[i])
    ensures Spaced(Collapse(lines))
  {
    if lines != [] {
      var front, line := lines[..|lines| - 1], lines[|lines| - 1];
      CollapsedIsSpaced(front);
      if line != "" || EndsInText(Collapse(front)) {
        SpacedStep(Collapse(front), line);
      }
    }
  }

  lemma {:induction false} JoinedIsTrimmed(lines: seq<string>)
    requires Spaced(lines) && lines != [] && lines[|lines| - 1] != ""
    ensures JoinLines(lines) != "" && Trimmed(PythonSpace, JoinLines(lines))
  {
    JoinedStart(lines);
    if |lines| > 1 {
      var joined := JoinLines(lines);
      var last := lines[|lines| - 1];
      assert joined[|joined| - 1] == last[|last| - 1];
    }
  }

  lemma {:induction false} JoinedStart(lines: seq<string>)
    requires lines != [] && lines[0] != ""
    ensures JoinLines(lines) != "" && JoinLines(lines)[0] == lines[0][0]
  {
    if |lines| > 1 {
      var front := lines[..|lines| - 1];
      JoinedStart(front);
      assert front[0] == lines[0];
      assert JoinLines(lines) == JoinLines(front) + "\n" + lines[|lines| - 1];
    }
  }

  lemma StripsTrailingNewline(s: string)
    requires s != "" && Trimmed(PythonSpace, s)
    ensures Trim(PythonSpace, s + "\n") == s
  {
    var t := s + "\n";
    assert t[0] == s[0] && TrimLeft(PythonSpace, t) == t;
    assert t[|t| - 1] == '\n' && t[..|t| - 1] == s;
    assert TrimRight(PythonSpace, t) == TrimRight(PythonSpace, s);
  }

  // ----- Which lines are kept -----

  /** `picked` is what stands at the increasing positions `at`. */
  ghost predicate Picks(lines: seq<string>, picked: seq<string>, at: seq<nat>) {
    && |at| == |picked|
    && (forall p :: 0 <= p < |at| ==> at[p] < |lines| && picked[p] == lines[at[p]])
    && (forall p, q :: 0 <= p < q < |at| ==> at[p] < at[q])
  }

  ghost predicate AfterText(lines: seq<string>, i: nat)
    requires i < |lines|
  {
    lines[i] == "" && i > 0 && lines[i - 1] != ""
  }

  ghost predicate KeptLine(lines: seq<string>, i: nat)
    requires i < |lines|
  {
    lines[i] != "" || AfterText(lines, i)
  }

  /** These positions are the kept ones. */
  ghost predicate AreKept(lines: seq<string>, at: seq<nat>) {
    forall i: nat :: i < |lines| ==> (i in at <==> KeptLine(lines, i))
  }

  predicate EndsInText(lines: seq<string>) {
    lines != [] && lines[|lines| - 1] != ""
  }

  /** Collapsing keeps every line that is not blank, and every blank one that follows one. */
  ghost predicate CollapsedFrom(lines: seq<string>, picked: seq<string>, at: seq<nat>) {
    Picks(lines, picked, at) && AreKept(lines, at) && (EndsInText(lines) <==> EndsInText(picked))
  }

  lemma MorePicks(lines: seq<string>, picked: seq<string>, at: seq<nat>, line: string)
    requires Picks(lines, picked, at)
    ensures Picks(lines + [line], picked, at) && Picks(lines + [line], picked + [line], at + [|lines|])
  {
  }

  lemma KeptLineStays(lines: seq<string>, line: string, i: nat)
    requires i < |lines|
    ensures KeptLine(lines + [line], i) <==> KeptLine(lines, i)
  {
  }

  lemma MoreKept(lines: seq<string>, at: seq<nat>, line: string, at': seq<nat>)
    requires AreKept(lines, at) && forall p :: 0 <= p < |at| ==> at[p] < |lines|
    requires at' == if line != "" || EndsInText(lines) then at + [|lines|] else at
    ensures AreKept(lines + [line], at')
  {
    forall i: nat | i < |lines + [line]|
      ensures i in at' <==> KeptLine(lines + [line], i)
    {
      if i < |lines| {
        KeptLineStays(lines, line, i);
        assert i in at' <==> i in at;
      } else {
        assert |at'| > |at| ==> at'[|at|] == i;
      }
    }
  }

  lemma CollapseOneMore(lines: seq<string>, picked: seq<string>, at: seq<nat>, line: string, at': seq<nat>,
                        picked': seq<string>)
    requires CollapsedFrom(lines, picked, at)
    requires at' == if line != "" || EndsInText(lines) then at + [|lines|] else at
    requires picked' == if line != "" || EndsInText(lines) then picked + [line] else picked
    ensures CollapsedFrom(lines + [line], picked', at')
  {
    MorePicks(lines, picked, at, line);
    MoreKept(lines, at, line, at');
  }

  lemma CollapseStep(front: seq<string>, line: string)
    ensures Collapse(front + [line])
         == if line != "" || EndsInText(Collapse(front)) then Collapse(front) + [line] else Collapse(front)
  {
    assert (front + [line])[..|front|] == front;
  }

  lemma {:induction false} CollapseKeeps(lines: seq<string>) returns (at: seq<nat>)
    ensures CollapsedFrom(lines, Collapse(lines), at)
  {
    at := [];
    if lines != [] {
      var front, line := lines[..|lines| - 1], lines[|lines| - 1];
      assert front + [line] == lines;
      var earlier := CollapseKeeps(front);
      at := if line != "" || EndsInText(front) then earlier + [|front|] else earlier;
      CollapseStep(front, line);
      CollapseOneMore(front, Collapse(front), earlier, line, at, Collapse(lines));
    }
  }

  /** A blank line directly behind text, with more text to come. */
  ghost predicate Between(lines: seq<string>, i: nat)
    requires i < |lines|
  {
    AfterText(lines, i) && exists j :: i < j < |lines| && lines[j] != ""
  }

  /** Kept are the lines that are not blank and, of each run of blank lines between them, the first. */
  ghost predicate TidiedFrom(lines: seq<string>, picked: seq<string>, at: seq<nat>) {
    Picks(lines, picked, at) && forall i: nat :: i < |lines| ==> (i in at <==> lines[i] != "" || Between(lines, i))
  }

  lemma BlankIsFollowed(lines: seq<string>, picked: seq<string>, at: seq<nat>, p: nat)
    requires Picks(lines, picked, at) && AreKept(lines, at) && Spaced(picked) && p < |picked| && picked[p] == ""
    ensures Between(lines, at[p]) <==> p + 1 < |picked|
  {
    assert at[p] in at;
    if p + 1 < |picked| {
      assert picked[p + 1] != "" && at[p] < at[p + 1];
    } else {
      forall j: nat | at[p] < j < |lines|
        ensures lines[j] == ""
      {
        assert j !in at;
      }
    }
  }

  lemma AmongFirst(at: seq<nat>, n: nat, p: nat)
    requires forall a, b :: 0 <= a < b < |at| ==> at[a] < at[b]
    requires n <= |at| && p < |at|
    ensures at[p] in at[..n] <==> p < n
  {
    if p < n {
      assert at[..n][p] == at[p];
    }
  }

  lemma DropsLastBlank(lines: seq<string>, picked: seq<string>, at: seq<nat>, n: nat)
    requires Picks(lines, picked, at) && AreKept(lines, at) && Spaced(picked)
    requires n == if picked == [] || EndsInText(picked) then |picked| else |picked| - 1
    ensures TidiedFrom(lines, picked[..n], at[..n])
  {
    forall i: nat | i < |lines|
      ensures i in at[..n] <==> lines[i] != "" || Between(lines, i)
    {
      if i in at {
        var p :| 0 <= p < |at| && at[p] == i;
        AmongFirst(at, n, p);
        if lines[i] == "" {
          BlankIsFollowed(lines, picked, at, p);
        }
      }
    }
  }

  /** A normalised answer consists of lines without outer white space, with single blank lines between
      them and none at either end: the stripped lines of the answer, less the blank lines at both ends and
      all but the first of each run of blank lines in between. */
  lemma NormalizedIsTidy(answer: string) returns (lines: seq<string>, at: seq<nat>)
    ensures Normalized(answer) == JoinLines(lines) && Spaced(lines)
    ensures lines != [] ==> lines[|lines| - 1] != ""
    ensures TidiedFrom(StripLines(PythonSpace, SplitLines(ReplaceCrLf(answer))), lines, at)
  {
    var raw := SplitLines(ReplaceCrLf(answer));
    var stripped := StripLines(PythonSpace, raw);
    SplitHasNoNewline(ReplaceCrLf(answer));
    forall i | 0 <= i < |raw|
      ensures CleanLine(stripped[i])
    {
      TrimIsTrimmed(PythonSpace, raw[i]);
      var lo, hi := TrimSpan(PythonSpace, raw[i]);
    }
    CollapsedIsSpaced(stripped);
    lines := Collapse(stripped);
    at := CollapseKeeps(stripped);
    var n := if lines == [] || EndsInText(lines) then |lines| else |lines| - 1;
    DropsLastBlank(stripped, lines, at, n);
    WithoutLastBlank(lines, n);
    lines, at := lines[..n], at[..n];
  }

  lemma WithoutLastBlank(lines: seq<string>, n: nat)
    requires Spaced(lines) && n == if lines == [] || EndsInText(lines) then |lines| else |lines| - 1
    ensures Trim(PythonSpace, JoinLines(lines)) == JoinLines(lines[..n])
    ensures Spaced(lines[..n]) && (n > 0 ==> lines[n - 1] != "")
  {
    if n < |lines| {
      assert n > 0 && lines[n - 1] != "";
      assert JoinLines(lines) == JoinLines(lines[..n]) + "\n" + "" == JoinLines(lines[..n]) + "\n";
      JoinedIsTrimmed(lines[..n]);
      StripsTrailingNewline(JoinLines(lines[..n]));
    } else {
      assert lines[..n] == lines;
      if lines != [] {
        JoinedIsTrimmed(lines);
        TrimKeeps(PythonSpace, JoinLines(lines));
      }
    }
  }

  lemma {:induction false} NothingReplaced(s: string)
    requires '\r' !in s
    ensures ReplaceCrLf(s) == s
  {
    if s != [] {
      assert s[0] in s;
      NothingReplaced(s[1..]);
    }
  }

  lemma {:induction false} SingleLine(s: string)
    requires '\n' !in s
    ensures SplitLines(s) == [s]
  {
    if s != [] {
      var front, last := s[..|s| - 1], s[|s| - 1];
      assert last in s;
      SingleLine(front);
      assert front + [last] == s;
    }
  }

  lemma OneLineLaidOut(s: string)
    requires s != "" && Trim(PythonSpace, s) == s
    ensures JoinLines(Collapse(StripLines(PythonSpace, [s]))) == s
  {
    assert StripLines(PythonSpace, [s]) == [s];
    CollapseStep([], s);
    assert [] + [s] == [s] && Collapse([]) == [];
  }

  /** Text of one line without outer white space is normalised to itself. */
  lemma OneLineStays(s: string)
    requires CleanLine(s) && '\r' !in s && s != ""
    ensures Normalized(s) == s
  {
    NothingReplaced(s);
    SingleLine(s);
    TrimKeeps(PythonSpace, s);
    OneLineLaidOut(s);
  }

  // ----- An answer of one word -----

  ghost predicate AllSpace(space: SpaceTest, s: string) {
    forall i :: 0 <= i < |s| ==> space(s[i])
  }

  /** A word holds no white space at all. */
  ghost predicate IsWord(space: SpaceTest, s: string) {
    s != "" && forall i :: 0 <= i < |s| ==> !space(s[i])
  }

  predicate BreaksLines(space: SpaceTest) {
    space('\r') && space('\n')
  }

  lemma {:induction false} ReplacedSpace(space: SpaceTest, s: string)
    requires BreaksLines(space) && AllSpace(space, s)
    ensures AllSpace(space, ReplaceCrLf(s))
    decreases |s|
  {
    if |s| >= 2 && s[0] == '\r' && s[1] == '\n' {
      ReplacedSpace(space, s[2..]);
    } else if s != [] {
      ReplacedSpace(space, s[1..]);
    }
  }

  lemma {:induction false} ReplacedAfterWord(word: string, rest: string)
    requires '\r' !in word
    ensures ReplaceCrLf(word + rest) == word + ReplaceCrLf(rest)
  {
    if word == "" {
      assert word + rest == rest;
    } else {
      var tail := ReplaceCrLf(rest);
      assert word[0] in word;
      ReplacedAfterWord(word[1..], rest);
      ReplacedAfterChar(word[0], word[1..] + rest);
      assert word + rest == [word[0]] + (word[1..] + rest);
      assert [word[0]] + (word[1..] + tail) == word + tail;
    }
  }

  lemma ReplacedAfterChar(c: char, s: string)
    requires c != '\r'
    ensures ReplaceCrLf([c] + s) == [c] + ReplaceCrLf(s)
  {
    assert ([c] + s)[1..] == s;
  }

  lemma {:induction false} ReplacedAround(space: SpaceTest, before: string, word: string, after: string)
    returns (before': string, after': string)
    requires BreaksLines(space) && AllSpace(space, before) && IsWord(space, word) && AllSpace(space, after)
    ensures ReplaceCrLf(before + (word + after)) == before' + (word + after')
    ensures AllSpace(space, before') && AllSpace(space, after')
    decreases |before|
  {
    var s := before + (word + after);
    if before == "" {
      assert s == word + after;
      ReplacedAfterWord(word, after);
      ReplacedSpace(space, after);
      before', after' := "", ReplaceCrLf(after);
      assert before' + (word + after') == word + after';
    } else if |before| >= 2 && before[0] == '\r' && before[1] == '\n' {
      assert s[2..] == before[2..] + (word + after);
      before', after' := ReplacedAround(space, before[2..], word, after);
      before' := "\n" + before';
    } else {
      assert s[1..] == before[1..] + (word + after) && s[0] == before[0];
      assert |before| == 1 ==> s[1] == word[0];
      before', after' := ReplacedAround(space, before[1..], word, after);
      before' := [before[0]] + before';
    }
  }

  lemma {:induction false} SplitSpace(space: SpaceTest, s: string)
    requires AllSpace(space, s)
    ensures forall i :: 0 <= i < |SplitLines(s)| ==> AllSpace(space, SplitLines(s)[i])
  {
    if s != [] {
      SplitSpace(space, s[..|s| - 1]);
    }
  }

  function Lengthened(lines: seq<string>, word: string): seq<string>
    requires lines != []
  {
    lines[..|lines| - 1] + [lines[|lines| - 1] + word]
  }

  lemma LengthenedTwice(lines: seq<string>, front: string, c: char)
    requires lines != []
    ensures Lengthened(Lengthened(lines, front), [c]) == Lengthened(lines, front + [c])
  {
    assert (lines[|lines| - 1] + front) + [c] == lines[|lines| - 1] + (front + [c]);
  }

  lemma JoinLonger(lines: seq<string>, c: char)
    requires lines != []
    ensures JoinLines(Lengthened(lines, [c])) == JoinLines(lines) + [c]
  {
    var n := |lines| - 1;
    var longer := Lengthened(lines, [c]);
    assert longer[..n] == lines[..n] && longer[n] == lines[n] + [c];
    if n > 0 {
      Regroup(JoinLines(lines[..n]) + "\n", lines[n], [c]);
    }
  }

  lemma JoinMore(lines: seq<string>)
    requires lines != []
    ensures JoinLines(lines + [""]) == JoinLines(lines) + "\n"
  {
    assert (lines + [""])[..|lines|] == lines;
    assert JoinLines(lines) + "\n" + "" == JoinLines(lines) + "\n";
  }

  /** Splitting and joining undo each other, so the lines are those of the text. */
  lemma {:induction false} SplitJoins(s: string)
    ensures JoinLines(SplitLines(s)) == s
  {
    if s != [] {
      var front, c := s[..|s| - 1], s[|s| - 1];
      SplitJoins(front);
      assert s == front + [c];
      if c == '\n' {
        JoinMore(SplitLines(front));
      } else {
        JoinLonger(SplitLines(front), c);
      }
    }
  }

  lemma SplitBeforeChar(s: string, c: char)
    requires c != '\n'
    ensures SplitLines(s + [c]) == Lengthened(SplitLines(s), [c])
  {
    assert (s + [c])[..|s|] == s;
  }

  lemma {:induction false} SplitBeforeWord(s: string, word: string)
    requires '\n' !in word
    ensures SplitLines(s + word) == Lengthened(SplitLines(s), word)
  {
    if word == "" {
      assert s + word == s;
      LengthenedByNothing(SplitLines(s));
    } else {
      var front, last := word[..|word| - 1], word[|word| - 1];
      assert last in word && front + [last] == word;
      assert s + word == (s + front) + [last];
      SplitBeforeWord(s, front);
      SplitOneMoreChar(s + front, SplitLines(s), front, last);
    }
  }

  lemma LengthenedByNothing(lines: seq<string>)
    requires lines != []
    ensures Lengthened(lines, "") == lines
  {
    assert lines[|lines| - 1] + "" == lines[|lines| - 1];
  }

  lemma SplitOneMoreChar(s: string, lines: seq<string>, front: string, c: char)
    requires lines != [] && SplitLines(s) == Lengthened(lines, front) && c != '\n'
    ensures SplitLines(s + [c]) == Lengthened(lines, front + [c])
  {
    SplitBeforeChar(s, c);
    LengthenedTwice(lines, front, c);
  }

  /** All lines are white space except one, which is the word between white space. */
  ghost predicate OneWordLine(space: SpaceTest, lines: seq<string>, k: nat, word: string) {
    && k < |lines| && (forall i :: 0 <= i < |lines| && i != k ==> AllSpace(space, lines[i]))
    && Surrounds(space, lines[k], word)
  }

  ghost predicate Surrounds(space: SpaceTest, line: string, word: string) {
    exists u, v :: SurroundedBy(space, line, u, word, v)
  }

  ghost predicate SurroundedBy(space: SpaceTest, line: string, u: string, word: string, v: string) {
    AllSpace(space, u) && AllSpace(space, v) && line == u + (word + v)
  }

  lemma SurroundsLonger(space: SpaceTest, line: string, word: string, c: char)
    requires Surrounds(space, line, word) && space(c)
    ensures Surrounds(space, line + [c], word)
  {
    var u, v :| SurroundedBy(space, line, u, word, v);
    assert SurroundedBy(space, line + [c], u, word, v + [c]);
  }

  lemma {:induction false} SplitAround(space: SpaceTest, before: string, word: string, after: string) returns (k: nat)
    requires BreaksLines(space) && AllSpace(space, before) && IsWord(space, word) && AllSpace(space, after)
    ensures OneWordLine(space, SplitLines(before + word + after), k, word)
    decreases |after|
  {
    if after == "" {
      var lines := SplitLines(before);
      SplitSpace(space, before);
      SplitBeforeWord(before, word);
      assert before + word + after == before + word;
      k := |lines| - 1;
      assert SurroundedBy(space, lines[k] + word, lines[k], word, "");
    } else {
      var front, c := after[..|after| - 1], after[|after| - 1];
      var s := before + word + front;
      k := SplitAround(space, before, word, front);
      assert before + word + after == s + [c];
      SplitOneMore(space, s, c, k, word);
    }
  }

  lemma MoreLines(space: SpaceTest, lines: seq<string>, k: nat, word: string)
    requires OneWordLine(space, lines, k, word)
    ensures OneWordLine(space, lines + [""], k, word)
  {
  }

  lemma LongerLine(space: SpaceTest, lines: seq<string>, c: char, k: nat, word: string)
    requires OneWordLine(space, lines, k, word) && space(c)
    ensures OneWordLine(space, Lengthened(lines, [c]), k, word)
  {
    if k == |lines| - 1 {
      SurroundsLonger(space, lines[k], word, c);
    }
  }

  lemma SplitOneMore(space: SpaceTest, s: string, c: char, k: nat, word: string)
    requires BreaksLines(space) && OneWordLine(space, SplitLines(s), k, word) && space(c)
    ensures OneWordLine(space, SplitLines(s + [c]), k, word)
  {
    if c == '\n' {
      assert (s + [c])[..|s|] == s;
      MoreLines(space, SplitLines(s), k, word);
    } else {
      SplitBeforeChar(s, c);
      LongerLine(space, SplitLines(s), c, k, word);
    }
  }

  lemma {:induction false} TrimLeftSkips(space: SpaceTest, u: string, rest: string)
    requires AllSpace(space, u)
    ensures TrimLeft(space, u + rest) == TrimLeft(space, rest)
  {
    if u == "" {
      assert u + rest == rest;
    } else {
      assert (u + rest)[1..] == u[1..] + rest;
      TrimLeftSkips(space, u[1..], rest);
    }
  }

  lemma {:induction false} TrimRightSkips(space: SpaceTest, rest: string, v: string)
    requires AllSpace(space, v)
    ensures TrimRight(space, rest + v) == TrimRight(space, rest)
  {
    if v == "" {
      assert rest + v == rest;
    } else {
      assert (rest + v)[..|rest + v| - 1] == rest + v[..|v| - 1];
      TrimRightSkips(space, rest, v[..|v| - 1]);
    }
  }

  lemma TrimFindsWord(space: SpaceTest, u: string, word: string, v: string)
    requires AllSpace(space, u) && IsWord(space, word) && AllSpace(space, v)
    ensures Trim(space, u + (word + v)) == word
  {
    TrimLeftSkips(space, u, word + v);
    assert (word + v)[0] == word[0];
    TrimRightSkips(space, word, v);
  }

  lemma TrimOfSpace(space: SpaceTest, s: string)
    requires AllSpace(space, s)
    ensures Trim(space, s) == ""
  {
    TrimLeftSkips(space, s, "");
    assert s + "" == s;
  }

  /** All lines are empty except one, which is the word. */
  ghost predicate OnlyLine(lines: seq<string>, k: nat, word: string) {
    k < |lines| && lines[k] == word && forall i :: 0 <= i < |lines| && i != k ==> lines[i] == ""
  }

  lemma StrippedToWord(space: SpaceTest, lines: seq<string>, k: nat, word: string)
    requires OneWordLine(space, lines, k, word) && IsWord(space, word)
    ensures OnlyLine(StripLines(space, lines), k, word)
  {
    var u, v :| SurroundedBy(space, lines[k], u, word, v);
    TrimFindsWord(space, u, word, v);
    forall i | 0 <= i < |lines| && i != k
      ensures Trim(space, lines[i]) == ""
    {
      TrimOfSpace(space, lines[i]);
    }
  }

  lemma {:induction false} CollapsedBlank(lines: seq<string>)
    requires forall i :: 0 <= i < |lines| ==> lines[i] == ""
    ensures Collapse(lines) == []
  {
    if lines != [] {
      CollapsedBlank(lines[..|lines| - 1]);
    }
  }

  lemma {:induction false} CollapsedToWord(lines: seq<string>, k: nat, word: string)
    requires OnlyLine(lines, k, word) && word != ""
    ensures Collapse(lines) == [word] || Collapse(lines) == [word, ""]
  {
    var front := lines[..|lines| - 1];
    if k == |lines| - 1 {
      CollapsedBlank(front);
    } else {
      CollapsedToWord(front, k, word);
    }
  }

  /** A single word is what remains when only white space surrounds it. */
  lemma WordIsKept(before: string, word: string, after: string)
    requires AllSpace(PythonSpace, before) && IsWord(PythonSpace, word) && AllSpace(PythonSpace, after)
    ensures Normalized(before + (word + after)) == word
  {
    var b, a := ReplacedAround(PythonSpace, before, word, after);
    assert b + (word + a) == b + word + a;
    var k := SplitAround(PythonSpace, b, word, a);
    var lines := SplitLines(b + word + a);
    StrippedToWord(PythonSpace, lines, k, word);
    CollapsedToWord(StripLines(PythonSpace, lines), k, word);
    WordStays(PythonSpace, word);
  }

  lemma WordStays(space: SpaceTest, word: string)
    requires BreaksLines(space) && IsWord(space, word)
    ensures Trim(space, JoinLines([word])) == word && Trim(space, JoinLines([word, ""])) == word
  {
    assert [word, ""][..1] == [word];
    assert JoinLines([word, ""]) == word + "\n" + "" == "" + (word + "\n");
    assert AllSpace(space, "\n") && AllSpace(space, "");
    TrimFindsWord(space, "", word, "\n");
    TrimFindsWord(space, "", word, "");
    assert "" + (word + "") == word;
  }
}
