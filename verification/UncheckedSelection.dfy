/** Selecting the sources of an answer that was not checked first (citations.py): references without a
    source are deleted, and the texts around them meet.  When that does harm, and when it does not. */
module UncheckedSelection {
  import opened AnswerLayout
  import opened Citations
  import opened Text

  // ----- What should be left -----

  /** A reference of one kind gets its new number when it has a source, and is dropped when it has none. */
  function Keep(token: Token, kind: Kind, indexes: seq<nat>): (kept: seq<Token>)
    ensures |kept| <= 1
  {
    if token.Reference? && token.kind == kind then
      if token.number >= 1 && token.number - 1 in indexes
      then [Reference(kind, Position(indexes, token.number - 1) + 1)] else []
    else [token]
  }

  function Remaining(tokens: seq<Token>, kind: Kind, indexes: seq<nat>): seq<Token> {
    if tokens == [] then [] else Keep(tokens[0], kind, indexes) + Remaining(tokens[1..], kind, indexes)
  }

  /** The letters before the first reference. */
  function LetterRun(tokens: seq<Token>): string {
    if tokens == [] || tokens[0].Reference? then "" else [tokens[0].c] + LetterRun(tokens[1..])
  }

  /** Somewhere, letters in a row spell a reference. */
  predicate Spelled(digits: Digits, tokens: seq<Token>) {
    tokens != [] &&
    (|| RefLength(digits, Knowledge, LetterRun(tokens)) > 0
     || RefLength(digits, External, LetterRun(tokens)) > 0
     || Spelled(digits, tokens[1..]))
  }

  // ----- Read text never spells a reference in letters -----

  lemma RunOfLetter(c: char, tokens: seq<Token>)
    ensures LetterRun([Letter(c)] + tokens) == [c] + LetterRun(tokens)
  {
    assert ([Letter(c)] + tokens)[1..] == tokens;
  }

  lemma NoRunAtReference(kind: Kind, n: nat, tokens: seq<Token>)
    ensures LetterRun([Reference(kind, n)] + tokens) == ""
  {
  }

  lemma {:induction false} RunIsPrefix(digits: Digits, t: string)
    ensures LetterRun(Tokens(digits, t)) <= t
    decreases |t|
  {
    if t == "" {
      assert Tokens(digits, t) == [];
    } else if RefLength(digits, Knowledge, t) > 0 {
      TokensOfReference(digits, Knowledge, t);
      NoRunAtReference(Knowledge, RefNumber(digits, Knowledge, t), Tokens(digits, t)[1..]);
    } else if RefLength(digits, External, t) > 0 {
      TokensOfReference(digits, External, t);
      NoRunAtReference(External, RefNumber(digits, External, t), Tokens(digits, t)[1..]);
    } else {
      RunIsPrefix(digits, t[1..]);
      TokensOfLetter(digits, t);
      RunOfLetter(t[0], Tokens(digits, t[1..]));
      assert t == [t[0]] + t[1..];
    }
  }

  lemma LongerStartsToo(digits: Digits, kind: Kind, start: string, t: string)
    requires start <= t
    ensures RefLength(digits, kind, start) > 0 ==> RefLength(digits, kind, t) > 0
  {
    var n := RefLength(digits, kind, start);
    if n > 0 {
      assert t[..n] == t[..|start|][..n];
      RefIsLocal(digits, kind, start, t);
    }
  }

  lemma EmptyIsNoReference(digits: Digits, kind: Kind)
    ensures RefLength(digits, kind, "") == 0
  {
  }

  lemma {:induction false} ReadNeverSpells(digits: Digits, t: string)
    ensures !Spelled(digits, Tokens(digits, t))
    decreases |t|
  {
    if t != [] {
      var k, e := RefLength(digits, Knowledge, t), RefLength(digits, External, t);
      EmptyIsNoReference(digits, Knowledge);
      EmptyIsNoReference(digits, External);
      if k > 0 {
        ReadNeverSpells(digits, t[k..]);
      } else if e > 0 {
        ReadNeverSpells(digits, t[e..]);
      } else {
        RunIsPrefix(digits, t);
        LongerStartsToo(digits, Knowledge, LetterRun(Tokens(digits, t)), t);
        LongerStartsToo(digits, External, LetterRun(Tokens(digits, t)), t);
        ReadNeverSpells(digits, t[1..]);
      }
    }
  }

  // ----- Deletion is clean exactly when nothing is spelled -----

  lemma HeadStays(t: string, k: nat, run: string)
    requires 0 < k <= |t| && t[1..][..k - 1] <= run
    ensures t[..k] <= [t[0]] + run
  {
    assert t[..k] == [t[0]] + t[1..][..k - 1];
  }

  lemma {:induction false} RunCoversPlain(digits: Digits, t: string, k: nat)
    requires k <= |t| && forall i :: 0 <= i < k ==> t[i] != '['
    ensures t[..k] <= LetterRun(Tokens(digits, t))
  {
    if k > 0 {
      NoOpening(digits, Knowledge, t);
      NoOpening(digits, External, t);
      RunCoversPlain(digits, t[1..], k - 1);
      TokensOfLetter(digits, t);
      RunOfLetter(t[0], Tokens(digits, t[1..]));
      HeadStays(t, k, LetterRun(Tokens(digits, t[1..])));
    }
  }

  /** A reference at the start is there whatever follows. */
  lemma SamePlainStart(digits: Digits, any: Kind, t: string, u: string, k: nat)
    requires k <= |t| && t[..k] <= u && RefLength(digits, any, t) == k > 0
    ensures RefLength(digits, any, u) > 0
  {
    assert u[..k] == t[..k];
    RefIsLocal(digits, any, t, u);
  }

  /** The letters of a reference at the start are all in the first run. */
  lemma ReferenceIsInRun(digits: Digits, any: Kind, c: char, rest: string, run: string)
    requires RefLength(digits, any, [c] + rest) > 0
    requires forall k: nat :: k <= |rest| && (forall i :: 0 <= i < k ==> rest[i] != '[') ==> rest[..k] <= run
    ensures RefLength(digits, any, [c] + run) > 0
  {
    var t := [c] + rest;
    var n := RefLength(digits, any, t);
    RefShape(digits, any, t);
    assert forall i :: 0 <= i < n - 1 ==> rest[i] == t[i + 1];
    assert rest[..n - 1] <= run;
    assert t[..n] == [c] + rest[..n - 1];
    SamePlainStart(digits, any, t, [c] + run, n);
  }

  /** A letter before read text starts a reference only if it and the letters after it spell one. */
  lemma LetterStartsNone(digits: Digits, any: Kind, c: char, rest: string)
    requires RefLength(digits, any, [c] + LetterRun(Tokens(digits, rest))) == 0
    ensures RefLength(digits, any, [c] + rest) == 0
  {
    var run := LetterRun(Tokens(digits, rest));
    forall k: nat | k <= |rest| && forall i :: 0 <= i < k ==> rest[i] != '['
      ensures rest[..k] <= run
    {
      RunCoversPlain(digits, rest, k);
    }
    if RefLength(digits, any, [c] + rest) > 0 {
      ReferenceIsInRun(digits, any, c, rest, run);
    }
  }

  ghost predicate Clean(digits: Digits, kind: Kind, t: string, indexes: seq<nat>) {
    Tokens(digits, Remap(digits, kind, t, indexes)) == Remaining(Tokens(digits, t), kind, indexes)
  }

  lemma TokensOfCite(digits: Digits, kind: Kind, n: nat, rest: string)
    ensures Tokens(digits, Cite(kind, n) + rest) == [Reference(kind, n)] + Tokens(digits, rest)
  {
    CiteReads(digits, kind, n, rest);
    TokensOfReference(digits, kind, Cite(kind, n) + rest);
    assert (Cite(kind, n) + rest)[|Cite(kind, n)|..] == rest;
  }

  /** The text that replaces a reference writes what is kept of it. */
  ghost predicate Writes(kind: Kind, kept: seq<Token>, text: string) {
    if kept == [] then text == ""
    else |kept| == 1 && kept[0].Reference? && kept[0].kind == kind && text == Cite(kind, kept[0].number)
  }

  lemma ReplacementWrites(kind: Kind, indexes: seq<nat>, number: nat)
    ensures Writes(kind, Keep(Reference(kind, number), kind, indexes), Replacement(kind, indexes)(number))
  {
  }

  /** Reading the replaced text, given what is behind it. */
  lemma WrittenReads(digits: Digits, kind: Kind, kept: seq<Token>, text: string, rest: string)
    requires Writes(kind, kept, text)
    ensures Tokens(digits, text + rest) == kept + Tokens(digits, rest)
  {
    if kept == [] {
      assert text + rest == rest;
    } else {
      TokensOfCite(digits, kind, kept[0].number, rest);
      assert kept == [Reference(kind, kept[0].number)];
    }
  }

  lemma CleanReference(digits: Digits, kind: Kind, t: string, indexes: seq<nat>)
    requires RefLength(digits, kind, t) > 0
    requires Clean(digits, kind, t[RefLength(digits, kind, t)..], indexes)
    ensures Clean(digits, kind, t, indexes)
  {
    var n, number := RefLength(digits, kind, t), RefNumber(digits, kind, t);
    TokensOfReference(digits, kind, t);
    RemainingFirst(Reference(kind, number), Tokens(digits, t[n..]), kind, indexes);
    RemapOfReference(digits, kind, t, indexes);
    ReplacementWrites(kind, indexes, number);
    WrittenReads(digits, kind, Keep(Reference(kind, number), kind, indexes), Replacement(kind, indexes)(number),
                 Remap(digits, kind, t[n..], indexes));
  }

  lemma RemainingFirst(first: Token, rest: seq<Token>, kind: Kind, indexes: seq<nat>)
    ensures Remaining([first] + rest, kind, indexes) == Keep(first, kind, indexes) + Remaining(rest, kind, indexes)
  {
    assert ([first] + rest)[1..] == rest;
  }

  lemma RemapOfReference(digits: Digits, kind: Kind, t: string, indexes: seq<nat>)
    requires RefLength(digits, kind, t) > 0
    ensures Remap(digits, kind, t, indexes)
         == Replacement(kind, indexes)(RefNumber(digits, kind, t))
            + Remap(digits, kind, t[RefLength(digits, kind, t)..], indexes)
  {
  }

  lemma CleanOther(digits: Digits, kind: Kind, other: Kind, t: string, indexes: seq<nat>)
    requires kind != other && RefLength(digits, other, t) > 0
    requires Clean(digits, kind, t[RefLength(digits, other, t)..], indexes)
    ensures Clean(digits, kind, t, indexes)
  {
    var m := RefLength(digits, other, t);
    var rest := Remap(digits, kind, t[m..], indexes);
    var r := t[..m] + rest;
    TokensOfReference(digits, other, t);
    OtherKindKept(digits, kind, other, t, Replacement(kind, indexes));
    assert r[..m] == t[..m] && r[m..] == rest;
    RefIsLocal(digits, other, t, r);
    TokensOfReference(digits, other, r);
  }

  lemma CleanLetter(digits: Digits, kind: Kind, t: string, indexes: seq<nat>)
    requires t != [] && forall any :: RefLength(digits, any, t) == 0
    requires Clean(digits, kind, t[1..], indexes)
    requires !Spelled(digits, Remaining(Tokens(digits, t), kind, indexes))
    ensures Clean(digits, kind, t, indexes)
  {
    var rest := Remap(digits, kind, t[1..], indexes);
    var r := [t[0]] + rest;
    SubstituteLetter(digits, kind, t, Replacement(kind, indexes));
    TokensOfLetter(digits, t);
    LetterRemains(t[0], Tokens(digits, t[1..]), kind, indexes);
    forall any
      ensures RefLength(digits, any, r) == 0
    {
      LetterStartsNone(digits, any, t[0], rest);
    }
    TokensOfLetter(digits, r);
    assert r[1..] == rest;
  }

  lemma LetterRemains(c: char, tokens: seq<Token>, kind: Kind, indexes: seq<nat>)
    ensures var left := Remaining(tokens, kind, indexes);
            && Remaining([Letter(c)] + tokens, kind, indexes) == [Letter(c)] + left
            && LetterRun([Letter(c)] + left) == [c] + LetterRun(left)
  {
    RemainingFirst(Letter(c), tokens, kind, indexes);
    RunOfLetter(c, Remaining(tokens, kind, indexes));
  }

  lemma SpelledLater(digits: Digits, head: seq<Token>, tail: seq<Token>)
    requires |head| <= 1 && !Spelled(digits, head + tail)
    ensures !Spelled(digits, tail)
  {
    if head == [] {
      assert head + tail == tail;
    } else {
      assert (head + tail)[1..] == tail;
    }
  }

  /** When the letters left spell no reference, remapping leaves exactly what should be left. */
  lemma {:induction false} UnspelledIsClean(digits: Digits, kind: Kind, t: string, indexes: seq<nat>)
    requires !Spelled(digits, Remaining(Tokens(digits, t), kind, indexes))
    ensures Clean(digits, kind, t, indexes)
    decreases |t|
  {
    if t != [] {
      var other := if kind.Knowledge? then External else Knowledge;
      var n, m := RefLength(digits, kind, t), RefLength(digits, other, t);
      var tokens := Tokens(digits, t);
      SpelledLater(digits, Keep(tokens[0], kind, indexes), Remaining(tokens[1..], kind, indexes));
      if n > 0 {
        TokensOfReference(digits, kind, t);
        UnspelledIsClean(digits, kind, t[n..], indexes);
        CleanReference(digits, kind, t, indexes);
      } else if m > 0 {
        TokensOfReference(digits, other, t);
        UnspelledIsClean(digits, kind, t[m..], indexes);
        CleanOther(digits, kind, other, t, indexes);
      } else {
        TokensOfLetter(digits, t);
        UnspelledIsClean(digits, kind, t[1..], indexes);
        CleanLetter(digits, kind, t, indexes);
      }
    }
  }

  lemma {:induction false} RunRemains(tokens: seq<Token>, kind: Kind, indexes: seq<nat>)
    ensures LetterRun(tokens) <= LetterRun(Remaining(tokens, kind, indexes))
  {
    if tokens != [] && tokens[0].Letter? {
      RunRemains(tokens[1..], kind, indexes);
      assert tokens == [Letter(tokens[0].c)] + tokens[1..];
      LetterRemains(tokens[0].c, tokens[1..], kind, indexes);
    }
  }

  lemma RunSpells(digits: Digits, any: Kind, tokens: seq<Token>, kind: Kind, indexes: seq<nat>)
    requires RefLength(digits, any, LetterRun(tokens)) > 0
    ensures Spelled(digits, Remaining(tokens, kind, indexes))
  {
    RunRemains(tokens, kind, indexes);
    LongerStartsToo(digits, any, LetterRun(tokens), LetterRun(Remaining(tokens, kind, indexes)));
    EmptyIsNoReference(digits, any);
  }

  /** What is spelled stays spelled when references are dropped from between other letters. */
  lemma {:induction false} SpelledRemains(digits: Digits, tokens: seq<Token>, kind: Kind, indexes: seq<nat>)
    requires Spelled(digits, tokens)
    ensures Spelled(digits, Remaining(tokens, kind, indexes))
  {
    if RefLength(digits, Knowledge, LetterRun(tokens)) > 0 {
      RunSpells(digits, Knowledge, tokens, kind, indexes);
    } else if RefLength(digits, External, LetterRun(tokens)) > 0 {
      RunSpells(digits, External, tokens, kind, indexes);
    } else {
      SpelledRemains(digits, tokens[1..], kind, indexes);
      if !Spelled(digits, Remaining(tokens, kind, indexes)) {
        SpelledLater(digits, Keep(tokens[0], kind, indexes), Remaining(tokens[1..], kind, indexes));
      }
    }
  }

  // ----- Selection on its own -----

  function ChunkIndexes(digits: Digits, t: string, chunks: nat): seq<nat> {
    Indexes(FindAll(digits, Knowledge, t), chunks)
  }

  function LinkIndexes(digits: Digits, t: string, links: nat): seq<nat> {
    Indexes(FindAll(digits, External, t), links)
  }

  /** The answer with references that have no source dropped and the others renumbered. */
  function Left(digits: Digits, t: string, chunks: nat, links: nat): seq<Token> {
    Remaining(Remaining(Tokens(digits, t), Knowledge, ChunkIndexes(digits, t, chunks)),
              External, LinkIndexes(digits, t, links))
  }

  /** Selection on its own, on any answer that is no refusal: it leaves exactly the answer's text and its
      references with a source, renumbered, if and only if dropping the other references does not bring
      letters together that spell a reference. */
  lemma SelectionIsCleanIff<C, L>(digits: Digits, answer: string, chunks: seq<C>, links: seq<L>)
    requires !IsNoAnswer(Normalized(answer))
    ensures var left := Left(digits, Normalized(answer), |chunks|, |links|);
            Tokens(digits, SelectReferenced(digits, answer, chunks, links).answer) == left <==> !Spelled(digits, left)
  {
    var t := Normalized(answer);
    var c, l := ChunkIndexes(digits, t, |chunks|), LinkIndexes(digits, t, |links|);
    var middle := Remap(digits, Knowledge, t, c);
    var left := Left(digits, t, |chunks|, |links|);
    ReadNeverSpells(digits, SelectReferenced(digits, answer, chunks, links).answer);
    if !Spelled(digits, left) {
      var first := Remaining(Tokens(digits, t), Knowledge, c);
      if Spelled(digits, first) {
        SpelledRemains(digits, first, External, l);
      }
      UnspelledIsClean(digits, Knowledge, t, c);
      UnspelledIsClean(digits, External, middle, l);
    }
  }

  /** A reference has a source exactly when its number is in range. */
  lemma {:induction false} IndexedIffInRange(numbers: seq<nat>, limit: nat)
    ensures IndexesAre(numbers, Indexes(numbers, limit), limit)
  {
    if numbers != [] {
      var front, last := numbers[..|numbers| - 1], numbers[|numbers| - 1];
      IndexedIffInRange(front, limit);
      assert numbers == front + [last];
    }
  }

  function InRange(numbers: seq<nat>, limit: nat): (r: seq<nat>)
    ensures AllWithin(r, limit)
  {
    if numbers == [] then []
    else (if 1 <= numbers[0] <= limit then [numbers[0]] else []) + InRange(numbers[1..], limit)
  }

  lemma {:induction false} InRangeAppend(numbers: seq<nat>, n: nat, limit: nat)
    ensures InRange(numbers + [n], limit) == InRange(numbers, limit) + (if 1 <= n <= limit then [n] else [])
  {
    if numbers == [] {
      assert numbers + [n] == [n] && [n][1..] == [];
    } else {
      assert (numbers + [n])[1..] == numbers[1..] + [n] && (numbers + [n])[0] == numbers[0];
      InRangeAppend(numbers[1..], n, limit);
    }
  }

  lemma OutOfRangeSkipped(numbers: seq<nat>, n: nat, limit: nat)
    requires !(1 <= n <= limit)
    ensures Indexes(numbers + [n], limit) == Indexes(numbers, limit)
  {
    assert (numbers + [n])[..|numbers|] == numbers;
  }

  lemma {:induction false} IndexesOfInRange(numbers: seq<nat>, limit: nat)
    ensures Indexes(InRange(numbers, limit), limit) == Indexes(numbers, limit)
  {
    if numbers != [] {
      var front, last := numbers[..|numbers| - 1], numbers[|numbers| - 1];
      assert numbers == front + [last];
      IndexesOfInRange(front, limit);
      InRangeAppend(front, last, limit);
      if 1 <= last <= limit {
        IndexesStep(InRange(front, limit), last, limit);
        IndexesStep(front, last, limit);
      } else {
        OutOfRangeSkipped(front, last, limit);
        assert InRange(numbers, limit) == InRange(front, limit);
      }
    }
  }

  lemma NewNumbersOfBoth(a: seq<nat>, b: seq<nat>, indexes: seq<nat>)
    ensures NewNumbers(a + b, indexes) == NewNumbers(a, indexes) + NewNumbers(b, indexes)
  {
  }

  ghost predicate IndexesAre(numbers: seq<nat>, indexes: seq<nat>, limit: nat) {
    forall n :: n in numbers ==> ((n >= 1 && n - 1 in indexes) <==> 1 <= n <= limit)
  }

  /** The numbers of one kind that one token makes. */
  function NumberOf(token: Token, any: Kind): seq<nat> {
    if token.Reference? && token.kind == any then [token.number] else []
  }

  lemma NumbersOfFirst(first: Token, tail: seq<Token>, any: Kind)
    ensures Numbers([first] + tail, any) == NumberOf(first, any) + Numbers(tail, any)
  {
    assert ([first] + tail)[1..] == tail;
  }

  lemma NumbersOfKept(first: Token, kind: Kind, indexes: seq<nat>, tail: seq<Token>, any: Kind)
    ensures Numbers(Keep(first, kind, indexes) + tail, any)
         == NumberKept(first, kind, indexes, any) + Numbers(tail, any)
  {
    var kept := Keep(first, kind, indexes);
    if kept == [] {
      assert kept + tail == tail;
    } else {
      assert kept == [kept[0]];
      NumbersOfFirst(kept[0], tail, any);
    }
  }

  lemma FirstNumber(n: nat, rest: seq<nat>, indexes: seq<nat>, limit: nat)
    ensures NewNumbers(InRange([n] + rest, limit), indexes)
         == (if 1 <= n <= limit then [NewNumber(indexes, n)] else []) + NewNumbers(InRange(rest, limit), indexes)
  {
    assert ([n] + rest)[1..] == rest;
    NewNumbersOfBoth(if 1 <= n <= limit then [n] else [], InRange(rest, limit), indexes);
  }

  function NumberKept(first: Token, kind: Kind, indexes: seq<nat>, any: Kind): seq<nat> {
    if Keep(first, kind, indexes) == [] then [] else NumberOf(Keep(first, kind, indexes)[0], any)
  }

  lemma NumberKeptIs(first: Token, kind: Kind, indexes: seq<nat>)
    ensures NumberKept(first, kind, indexes, kind) ==
            if first.Reference? && first.kind == kind && first.number >= 1 && first.number - 1 in indexes
            then [NewNumber(indexes, first.number)] else []
  {
  }

  /** Among references of one kind, those with a source are those in range. */
  ghost predicate TokenIndexed(first: Token, kind: Kind, indexes: seq<nat>, limit: nat) {
    first.Reference? && first.kind == kind ==>
      ((first.number >= 1 && first.number - 1 in indexes) <==> 1 <= first.number <= limit)
  }

  lemma FirstIndexesAre(first: Token, rest: seq<nat>, kind: Kind, indexes: seq<nat>, limit: nat)
    requires IndexesAre(NumberOf(first, kind) + rest, indexes, limit)
    ensures TokenIndexed(first, kind, indexes, limit) && IndexesAre(rest, indexes, limit)
  {
    var all := NumberOf(first, kind) + rest;
    assert NumberOf(first, kind) != [] ==> all[0] in all;
    assert forall n :: n in rest ==> n in all;
  }

  lemma KeptNumber(first: Token, rest: seq<nat>, kind: Kind, indexes: seq<nat>, limit: nat)
    requires TokenIndexed(first, kind, indexes, limit)
    ensures NewNumbers(InRange(NumberOf(first, kind) + rest, limit), indexes)
         == NumberKept(first, kind, indexes, kind) + NewNumbers(InRange(rest, limit), indexes)
  {
    NumberKeptIs(first, kind, indexes);
    if first.Reference? && first.kind == kind {
      FirstNumber(first.number, rest, indexes, limit);
    } else {
      var remaining := NewNumbers(InRange(rest, limit), indexes);
      assert NumberOf(first, kind) + rest == rest && [] + remaining == remaining;
    }
  }

  /** What remains has the new numbers of the references in range. */
  lemma {:induction false} NumbersRemaining(tokens: seq<Token>, kind: Kind, indexes: seq<nat>, limit: nat)
    requires IndexesAre(Numbers(tokens, kind), indexes, limit)
    ensures Numbers(Remaining(tokens, kind, indexes), kind)
         == NewNumbers(InRange(Numbers(tokens, kind), limit), indexes)
  {
    if tokens != [] {
      var first, tail := tokens[0], tokens[1..];
      assert tokens == [first] + tail;
      NumbersOfFirst(first, tail, kind);
      FirstIndexesAre(first, Numbers(tail, kind), kind, indexes, limit);
      KeptNumber(first, Numbers(tail, kind), kind, indexes, limit);
      NumbersRemaining(tail, kind, indexes, limit);
      NumbersOfKept(first, kind, indexes, Remaining(tail, kind, indexes), kind);
    }
  }

  /** References of the other kind all remain as they are. */
  lemma {:induction false} OthersRemain(tokens: seq<Token>, kind: Kind, indexes: seq<nat>, other: Kind)
    requires other != kind
    ensures Numbers(Remaining(tokens, kind, indexes), other) == Numbers(tokens, other)
  {
    if tokens != [] {
      var first, tail := tokens[0], tokens[1..];
      assert tokens == [first] + tail;
      NumbersOfFirst(first, tail, other);
      OthersRemain(tail, kind, indexes, other);
      NumbersOfKept(first, kind, indexes, Remaining(tail, kind, indexes), other);
    }
  }

  /** The references left, by kind. */
  lemma NumbersLeft(tokens: seq<Token>, c: seq<nat>, l: seq<nat>, chunks: nat, links: nat)
    requires IndexesAre(Numbers(tokens, Knowledge), c, chunks) && IndexesAre(Numbers(tokens, External), l, links)
    ensures var left := Remaining(Remaining(tokens, Knowledge, c), External, l);
            && Numbers(left, Knowledge) == NewNumbers(InRange(Numbers(tokens, Knowledge), chunks), c)
            && Numbers(left, External) == NewNumbers(InRange(Numbers(tokens, External), links), l)
  {
    var first := Remaining(tokens, Knowledge, c);
    NumbersRemaining(tokens, Knowledge, c, chunks);
    OthersRemain(tokens, Knowledge, c, External);
    OthersRemain(first, External, l, Knowledge);
    NumbersRemaining(first, External, l, links);
  }

  lemma InRangeIsInOrder(numbers: seq<nat>, limit: nat)
    ensures var indexes := Indexes(numbers, limit);
            && NumberedInOrder(NewNumbers(InRange(numbers, limit), indexes), |indexes|)
            && (indexes != [] ==> InRange(numbers, limit) != [])
  {
    IndexesOfInRange(numbers, limit);
    NewNumbersAreInOrder(InRange(numbers, limit), limit);
  }

  /** When deletion is clean, selection on its own is grounded exactly when the answer cites some source, or
      nothing but the refusal is left. */
  lemma CleanSelectionIsGroundedIff<C, L>(digits: Digits, answer: string, chunks: seq<C>, links: seq<L>)
    requires !IsNoAnswer(Normalized(answer))
    requires !Spelled(digits, Left(digits, Normalized(answer), |chunks|, |links|))
    ensures var r := SelectReferenced(digits, answer, chunks, links);
            Grounded(digits, r) <==> |r.chunks| + |r.links| >= 1 || r.answer == NO_ANSWER
  {
    var t, r := Normalized(answer), SelectReferenced(digits, answer, chunks, links);
    SelectionIsCleanIff(digits, answer, chunks, links);
    FindAllReadsTokens(digits, Knowledge, t);
    FindAllReadsTokens(digits, External, t);
    IndexedIffInRange(FindAll(digits, Knowledge, t), |chunks|);
    IndexedIffInRange(FindAll(digits, External, t), |links|);
    NumbersLeft(Tokens(digits, t), ChunkIndexes(digits, t, |chunks|), LinkIndexes(digits, t, |links|),
                |chunks|, |links|);
    FindAllReadsTokens(digits, Knowledge, r.answer);
    FindAllReadsTokens(digits, External, r.answer);
    InRangeIsInOrder(FindAll(digits, Knowledge, t), |chunks|);
    InRangeIsInOrder(FindAll(digits, External, t), |links|);
    if |r.chunks| + |r.links| >= 1 {
      ReferencesNeedBrackets(digits, if r.chunks != [] then Knowledge else External, r.answer);
      BracketsAnswer(r.answer);
    }
  }

  ghost predicate AllIndexed(numbers: seq<nat>, indexes: seq<nat>) {
    forall n :: n in numbers ==> n >= 1 && n - 1 in indexes
  }

  lemma FirstIndexed(first: Token, rest: seq<nat>, kind: Kind, indexes: seq<nat>)
    requires AllIndexed(NumberOf(first, kind) + rest, indexes)
    ensures AllIndexed(rest, indexes) && Keep(first, kind, indexes) == [MapToken(first, kind, Numbering(indexes))]
  {
    var all := NumberOf(first, kind) + rest;
    assert forall n :: n in rest ==> n in all;
    assert NumberOf(first, kind) != [] ==> all[0] in all;
  }

  /** With a source for every reference, nothing is dropped. */
  lemma {:induction false} NothingDropped(tokens: seq<Token>, kind: Kind, indexes: seq<nat>)
    requires AllIndexed(Numbers(tokens, kind), indexes)
    ensures Remaining(tokens, kind, indexes) == MapTokens(tokens, kind, Numbering(indexes))
  {
    if tokens != [] {
      var first, tail := tokens[0], tokens[1..];
      assert tokens == [first] + tail;
      NumbersOfFirst(first, tail, kind);
      FirstIndexed(first, Numbers(tail, kind), kind, indexes);
      NothingDropped(tail, kind, indexes);
    }
  }

  lemma ValidAreIndexed(numbers: seq<nat>, limit: nat)
    requires AllWithin(numbers, limit)
    ensures AllIndexed(numbers, Indexes(numbers, limit))
  {
    IndexedIffInRange(numbers, limit);
  }

  lemma AllMapped(tokens: seq<Token>, c: seq<nat>, l: seq<nat>)
    requires AllIndexed(Numbers(tokens, Knowledge), c) && AllIndexed(Numbers(tokens, External), l)
    ensures Remaining(Remaining(tokens, Knowledge, c), External, l)
         == MapTokens(MapTokens(tokens, Knowledge, Numbering(c)), External, Numbering(l))
  {
    NothingDropped(tokens, Knowledge, c);
    OthersRemain(tokens, Knowledge, c, External);
    NothingDropped(Remaining(tokens, Knowledge, c), External, l);
  }

  /** The structure check is enough: for an answer it supports, nothing is spelled and selection is clean. */
  lemma CheckedSelectionIsClean<C, L>(digits: Digits, answer: string, chunks: seq<C>, links: seq<L>)
    requires !IsNoAnswer(Normalized(answer)) && ValidateStructure(digits, answer, |chunks|, |links|).supported
    ensures !Spelled(digits, Left(digits, Normalized(answer), |chunks|, |links|))
  {
    var t := Normalized(answer);
    var k, e := FindAll(digits, Knowledge, t), FindAll(digits, External, t);
    FindAllReadsTokens(digits, Knowledge, t);
    FindAllReadsTokens(digits, External, t);
    ValidAreIndexed(k, |chunks|);
    ValidAreIndexed(e, |links|);
    AllMapped(Tokens(digits, t), Indexes(k, |chunks|), Indexes(e, |links|));
    BothRemapped(digits, t, |chunks|, |links|);
    ReadNeverSpells(digits, Remap(digits, External,
                                  Remap(digits, Knowledge, t, Indexes(k, |chunks|)), Indexes(e, |links|)));
  }

  // ----- An answer the check is for -----

  const OUTER := "[引"
  const REST := "用1]"

  /** An out-of-range reference inside what would otherwise be a reference. */
  const NESTED := OUTER + (Cite(Knowledge, 9) + REST)

  lemma NestedHead(digits: Digits)
    ensures RefLength(digits, Knowledge, NESTED) == 0 && NESTED != [] && NESTED[0] == '['
    ensures NESTED[1..] == "引" + (Cite(Knowledge, 9) + REST)
  {
    assert NESTED[2] == Cite(Knowledge, 9)[0] == '[' && Opening(Knowledge)[2] == '用';
    assert NESTED[..3][2] == '[';
  }

  lemma InnerFound(digits: Digits)
    ensures FindAll(digits, Knowledge, Cite(Knowledge, 9) + REST) == [9]
  {
    var inner := Cite(Knowledge, 9) + REST;
    CiteReads(digits, Knowledge, 9, REST);
    assert inner[|Cite(Knowledge, 9)|..] == REST;
    FindAllPassesOver(digits, Knowledge, REST, 3);
    assert REST[3..] == [];
  }

  lemma NestedFound(digits: Digits)
    ensures FindAll(digits, Knowledge, NESTED) == [9]
  {
    NestedHead(digits);
    FindAllPassesOver(digits, Knowledge, NESTED[1..], 1);
    assert NESTED[1..][1..] == Cite(Knowledge, 9) + REST;
    InnerFound(digits);
  }

  lemma InnerDeleted(digits: Digits, replace: nat -> string)
    requires replace(9) == ""
    ensures Substitute(digits, Knowledge, Cite(Knowledge, 9) + REST, replace) == REST
  {
    var inner := Cite(Knowledge, 9) + REST;
    CiteReads(digits, Knowledge, 9, REST);
    assert inner[|Cite(Knowledge, 9)|..] == REST;
    SubstitutePassesOver(digits, Knowledge, REST, 3, replace);
    assert REST[3..] == [] && REST[..3] == REST;
  }

  lemma NestedSubstituted(digits: Digits, replace: nat -> string)
    requires replace(9) == ""
    ensures Substitute(digits, Knowledge, NESTED, replace) == OUTER + REST
  {
    var inner := Cite(Knowledge, 9) + REST;
    NestedHead(digits);
    SubstituteLetter(digits, Knowledge, NESTED, replace);
    SubstitutePassesOver(digits, Knowledge, NESTED[1..], 1, replace);
    assert NESTED[1..][1..] == inner && NESTED[1..][..1] == "引";
    InnerDeleted(digits, replace);
    assert ['['] + ("引" + REST) == OUTER + REST;
  }

  /** The two halves of the outer reference meet. */
  lemma HalvesMeet(digits: Digits, replace: nat -> string)
    ensures FindAll(digits, Knowledge, OUTER + REST) == [1]
    ensures Substitute(digits, External, OUTER + REST, replace) == OUTER + REST
  {
    var t := Cite(Knowledge, 1);
    assert Decimal(1) == "1";
    assert t == OUTER + REST;
    CiteReads(digits, Knowledge, 1, []);
    assert t + [] == t && t[|t|..] == [] && t[..|t|] == t;
    OtherKindKept(digits, External, Knowledge, t, replace);
  }

  lemma NestedIsOneLine()
    ensures Normalized(NESTED) == NESTED && !IsNoAnswer(NESTED)
  {
    assert Decimal(9) == "9";
    assert NESTED == "[引[引用9]用1]";
    OneLineStays(NESTED);
    assert NESTED[0] == '[';
    BracketsAnswer(NESTED);
  }

  lemma NoIndexes(numbers: seq<nat>)
    ensures Indexes(numbers, 0) == []
  {
    assert |Indexes(numbers, 0)| <= 0 by {
      DistinctBelow(Indexes(numbers, 0), 0);
    }
  }

  lemma OutOfRange(n: nat, limit: nat)
    requires n > limit
    ensures Indexes([n], limit) == []
  {
    assert [n][..0] == [];
  }

  lemma CheckRefusesNested(digits: Digits)
    ensures !ValidateStructure(digits, NESTED, 1, 0).supported
  {
    NestedIsOneLine();
    NestedFound(digits);
    var found := FindAll(digits, Knowledge, NESTED);
    assert found[0] == 9 && !AllWithin(found, 1);
  }

  lemma NestedSelected<C, L>(digits: Digits, chunk: C)
    ensures SelectReferenced<C, L>(digits, NESTED, [chunk], []) == Selected(OUTER + REST, [], [])
  {
    NestedIsOneLine();
    NestedFound(digits);
    OutOfRange(9, 1);
    NoIndexes(FindAll(digits, External, NESTED));
    NestedSubstituted(digits, Replacement(Knowledge, []));
    HalvesMeet(digits, Replacement(External, []));
  }

  /** Without the structure check, deleting an out-of-range reference can put a new one together: selection
      would return a reference and no source.  The check refuses this answer. */
  lemma SelectionNeedsTheCheck<C, L>(digits: Digits, chunk: C)
    ensures !ValidateStructure(digits, NESTED, 1, 0).supported
    ensures var r := SelectReferenced<C, L>(digits, NESTED, [chunk], []);
            r.chunks == [] && r.links == [] && FindAll(digits, Knowledge, r.answer) == [1] && !Grounded(digits, r)
  {
    CheckRefusesNested(digits);
    NestedSelected<C, L>(digits, chunk);
    HalvesMeet(digits, Replacement(External, []));
    RefusalHasNoReference(digits);
  }

  lemma RefusalHasNoReference(digits: Digits)
    ensures FindAll(digits, Knowledge, NO_ANSWER) == []
  {
    FindAllPassesOver(digits, Knowledge, NO_ANSWER, |NO_ANSWER|);
  }
}
