/** Citation handling of the agent (citations.py): the references of an answer, their structural check, and
    the renumbering that selects the sources an answer cites. */
module Citations {
  import opened AnswerLayout
  import opened Text

  // ----- References -----

  /** Value of a decimal digit, -1 for any other character: the \d class and int() of Python, which read
      the decimal digits of every script. */
  ghost predicate ReadsDigits(digit: char -> int) {
    && (forall c :: -1 <= digit(c) <= 9)
    && (forall c :: '0' <= c <= '9' ==> digit(c) == c as int - '0' as int)
    && digit('[') == -1 && digit(']') == -1
  }

  function AsciiDigit(c: char): int {
    if '0' <= c <= '9' then c as int - '0' as int else -1
  }

  type Digits = digit: char -> int | ReadsDigits(digit) witness AsciiDigit

  datatype Kind = Knowledge | External

  function Word(kind: Kind): (w: string)
    ensures |w| == 2 && '[' !in w
  {
    if kind.Knowledge? then "引用" else "外链"
  }

  /** Number of digits at the start of the text. */
  function DigitRun(digits: Digits, s: string): (n: nat)
    ensures n <= |s| && (forall i :: 0 <= i < n ==> digits(s[i]) >= 0) && (n < |s| ==> digits(s[n]) == -1)
  {
    if s != [] && digits(s[0]) >= 0 then 1 + DigitRun(digits, s[1..]) else 0
  }

  function Value(digits: Digits, s: string): nat
    requires forall i :: 0 <= i < |s| ==> digits(s[i]) >= 0
  {
    if s == [] then 0 else 10 * Value(digits, s[..|s| - 1]) + digits(s[|s| - 1])
  }

  function Opening(kind: Kind): string {
    "[" + Word(kind)
  }

  /** Length of the reference the text starts with, 0 when it starts with none. */
  function RefLength(digits: Digits, kind: Kind, t: string): (n: nat)
    ensures n <= |t|
  {
    if |t| >= 3 && t[..3] == Opening(kind) then
      var n := DigitRun(digits, t[3..]);
      if n > 0 && 3 + n < |t| && t[3 + n] == ']' then 3 + n + 1 else 0
    else 0
  }

  lemma RefShape(digits: Digits, kind: Kind, t: string)
    requires RefLength(digits, kind, t) > 0
    ensures var n := RefLength(digits, kind, t);
            && n >= 5 && t[..3] == Opening(kind) && t[0] == '[' && t[n - 1] == ']'
            && (forall i :: 3 <= i < n - 1 ==> digits(t[i]) >= 0)
            && (forall i :: 0 < i < n ==> t[i] != '[')
  {
    var n := RefLength(digits, kind, t);
    assert forall i :: 3 <= i < n - 1 ==> digits(t[i]) >= 0 by {
      assert forall i :: 3 <= i < n - 1 ==> t[i] == t[3..][i - 3];
    }
    assert t[1] == t[..3][1] == Word(kind)[0] && t[2] == t[..3][2] == Word(kind)[1];
  }

  function RefNumber(digits: Digits, kind: Kind, t: string): nat
    requires RefLength(digits, kind, t) > 0
  {
    RefShape(digits, kind, t);
    Value(digits, t[3..RefLength(digits, kind, t) - 1])
  }

  lemma {:induction false} DigitRunIs(digits: Digits, s: string, n: nat)
    requires n <= |s| && (forall i :: 0 <= i < n ==> digits(s[i]) >= 0) && (n < |s| ==> digits(s[n]) == -1)
    ensures DigitRun(digits, s) == n
  {
    if n > 0 {
      DigitRunIs(digits, s[1..], n - 1);
    }
  }

  /** Whether a text starts with a reference depends on nothing behind it. */
  lemma RefIsLocal(digits: Digits, kind: Kind, t: string, u: string)
    requires var n := RefLength(digits, kind, t); n > 0 && n <= |u| && u[..n] == t[..n]
    ensures RefLength(digits, kind, u) == RefLength(digits, kind, t)
    ensures RefNumber(digits, kind, u) == RefNumber(digits, kind, t)
  {
    var n := RefLength(digits, kind, t);
    RefShape(digits, kind, t);
    assert forall i :: 0 <= i < n ==> u[i] == t[i] by {
      assert forall i :: 0 <= i < n ==> u[i] == u[..n][i] && t[i] == t[..n][i];
    }
    assert u[..3] == t[..3];
    DigitRunIs(digits, u[3..], n - 4);
    assert u[3..n - 1] == t[3..n - 1];
  }

  /** A text starts with a reference of n characters exactly when it starts with the bracketed word of its
      kind and one or more digits. */
  lemma ReferencesAreWritten(digits: Digits, kind: Kind, t: string, n: nat)
    requires 0 < n <= |t|
    ensures RefLength(digits, kind, t) == n <==>
              && n >= 5 && t[..3] == (if kind.Knowledge? then "[引用" else "[外链") && t[n - 1] == ']'
              && (forall i :: 3 <= i < n - 1 ==> digits(t[i]) >= 0)
  {
    assert Opening(Knowledge) == "[引用" && Opening(External) == "[外链";
    if RefLength(digits, kind, t) == n {
      RefShape(digits, kind, t);
    } else if n >= 5 && t[..3] == Opening(kind) && t[n - 1] == ']' && forall i :: 3 <= i < n - 1 ==> digits(t[i]) >= 0 {
      DigitRunIs(digits, t[3..], n - 4);
    }
  }

  lemma OneKindOnly(digits: Digits, a: Kind, b: Kind, t: string)
    requires RefLength(digits, a, t) > 0 && a != b
    ensures RefLength(digits, b, t) == 0
  {
    assert Opening(Knowledge)[1] != Opening(External)[1];
  }

  lemma NoOpening(digits: Digits, kind: Kind, t: string)
    requires t == [] || t[0] != '['
    ensures RefLength(digits, kind, t) == 0
  {
    assert |t| >= 3 ==> t[..3][0] != Opening(kind)[0];
  }

  // ----- findall and sub -----

  /** pattern.findall, each group read by int(). */
  function FindAll(digits: Digits, kind: Kind, t: string): seq<nat>
    decreases |t|
  {
    if t == [] then []
    else
      var n := RefLength(digits, kind, t);
      if n > 0 then [RefNumber(digits, kind, t)] + FindAll(digits, kind, t[n..]) else FindAll(digits, kind, t[1..])
  }

  /** pattern.sub, for a replacement that depends on the number. */
  function Substitute(digits: Digits, kind: Kind, t: string, replace: nat -> string): string
    decreases |t|
  {
    if t == [] then []
    else
      var n := RefLength(digits, kind, t);
      if n > 0 then replace(RefNumber(digits, kind, t)) + Substitute(digits, kind, t[n..], replace)
      else [t[0]] + Substitute(digits, kind, t[1..], replace)
  }

  // ----- The answer as text and references -----

  datatype Token = Letter(c: char) | Reference(kind: Kind, number: nat)

  function Tokens(digits: Digits, t: string): seq<Token>
    decreases |t|
  {
    if t == [] then []
    else
      var k, e := RefLength(digits, Knowledge, t), RefLength(digits, External, t);
      if k > 0 then [Reference(Knowledge, RefNumber(digits, Knowledge, t))] + Tokens(digits, t[k..])
      else if e > 0 then [Reference(External, RefNumber(digits, External, t))] + Tokens(digits, t[e..])
      else [Letter(t[0])] + Tokens(digits, t[1..])
  }

  function Numbers(tokens: seq<Token>, kind: Kind): seq<nat> {
    if tokens == [] then []
    else
      var first := tokens[0];
      (if first.Reference? && first.kind == kind then [first.number] else []) + Numbers(tokens[1..], kind)
  }

  /** Text without an opening bracket is passed over by both operations. */
  lemma {:induction false} FindAllPassesOver(digits: Digits, kind: Kind, t: string, k: nat)
    requires k <= |t| && forall i :: 0 <= i < k ==> t[i] != '['
    ensures FindAll(digits, kind, t) == FindAll(digits, kind, t[k..])
  {
    if k == 0 {
      assert t[0..] == t;
    } else {
      NoOpening(digits, kind, t);
      FindAllPassesOver(digits, kind, t[1..], k - 1);
      assert t[1..][k - 1..] == t[k..];
    }
  }

  lemma SubstituteLetter(digits: Digits, kind: Kind, t: string, replace: nat -> string)
    requires t != [] && RefLength(digits, kind, t) == 0
    ensures Substitute(digits, kind, t, replace) == [t[0]] + Substitute(digits, kind, t[1..], replace)
  {
  }

  lemma HeadAndRest(t: string, k: nat, behind: string)
    requires 0 < k <= |t|
    ensures t[1..][k - 1..] == t[k..] && [t[0]] + (t[1..][..k - 1] + behind) == t[..k] + behind
  {
  }

  lemma {:induction false} SubstitutePassesOver(digits: Digits, kind: Kind, t: string, k: nat, replace: nat -> string)
    requires k <= |t| && forall i :: 0 <= i < k ==> t[i] != '['
    ensures Substitute(digits, kind, t, replace) == t[..k] + Substitute(digits, kind, t[k..], replace)
  {
    if k == 0 {
      assert t[0..] == t;
    } else {
      NoOpening(digits, kind, t);
      SubstituteLetter(digits, kind, t, replace);
      SubstitutePassesOver(digits, kind, t[1..], k - 1, replace);
      HeadAndRest(t, k, Substitute(digits, kind, t[k..], replace));
    }
  }

  /** A reference of the other kind is passed over as a whole. */
  lemma OtherKindPassedOver(digits: Digits, kind: Kind, other: Kind, t: string)
    requires kind != other && RefLength(digits, other, t) > 0
    ensures FindAll(digits, kind, t) == FindAll(digits, kind, t[RefLength(digits, other, t)..])
  {
    var n := RefLength(digits, other, t);
    OneKindOnly(digits, other, kind, t);
    RefShape(digits, other, t);
    FindAllPassesOver(digits, kind, t[1..], n - 1);
    assert t[1..][n - 1..] == t[n..];
  }

  lemma OtherKindKept(digits: Digits, kind: Kind, other: Kind, t: string, replace: nat -> string)
    requires kind != other && RefLength(digits, other, t) > 0
    ensures var n := RefLength(digits, other, t);
            Substitute(digits, kind, t, replace) == t[..n] + Substitute(digits, kind, t[n..], replace)
  {
    var n := RefLength(digits, other, t);
    OneKindOnly(digits, other, kind, t);
    RefShape(digits, other, t);
    SubstituteLetter(digits, kind, t, replace);
    SubstitutePassesOver(digits, kind, t[1..], n - 1, replace);
    HeadAndRest(t, n, Substitute(digits, kind, t[n..], replace));
  }

  /** findall of one kind returns the numbers of that kind among all references. */
  lemma {:induction false} FindAllReadsTokens(digits: Digits, kind: Kind, t: string)
    ensures FindAll(digits, kind, t) == Numbers(Tokens(digits, t), kind)
    decreases |t|
  {
    if t != [] {
      var other := if kind.Knowledge? then External else Knowledge;
      var n, m := RefLength(digits, kind, t), RefLength(digits, other, t);
      if n > 0 {
        OneKindOnly(digits, kind, other, t);
        FindAllReadsTokens(digits, kind, t[n..]);
      } else if m > 0 {
        OtherKindPassedOver(digits, kind, other, t);
        FindAllReadsTokens(digits, kind, t[m..]);
      } else {
        FindAllReadsTokens(digits, kind, t[1..]);
      }
    }
  }

  // ----- Renumbering -----

  /** str() of a number. */
  function Decimal(n: nat): (s: string)
    ensures s != [] && forall c :: c in s ==> '0' <= c <= '9'
  {
    var last := ('0' as int + n % 10) as char;
    if n < 10 then [last] else Decimal(n / 10) + [last]
  }

  function Cite(kind: Kind, n: nat): string {
    "[" + Word(kind) + Decimal(n) + "]"
  }

  lemma {:induction false} DecimalReads(digits: Digits, n: nat)
    ensures forall i :: 0 <= i < |Decimal(n)| ==> digits(Decimal(n)[i]) >= 0
    ensures Value(digits, Decimal(n)) == n
  {
    var s := Decimal(n);
    assert forall i :: 0 <= i < |s| ==> s[i] in s;
    var last := ('0' as int + n % 10) as char;
    assert digits(last) == n % 10;
    if n < 10 {
      assert s == [last] && s[..0] == [];
    } else {
      DecimalReads(digits, n / 10);
      assert s[..|s| - 1] == Decimal(n / 10);
    }
  }

  /** A written reference is read back, whatever follows it. */
  lemma CiteReads(digits: Digits, kind: Kind, n: nat, rest: string)
    ensures RefLength(digits, kind, Cite(kind, n) + rest) == |Cite(kind, n)| > 0
    ensures RefNumber(digits, kind, Cite(kind, n) + rest) == n
  {
    var t := Cite(kind, n) + rest;
    var d := Decimal(n);
    DecimalReads(digits, n);
    assert t[..3] == Opening(kind);
    assert t[3..] == d + "]" + rest;
    DigitRunIs(digits, t[3..], |d|);
    assert t[3..][|d|] == ']';
    assert t[3..3 + |d|] == d;
  }

  /** Reads the tokens of a text that starts with a reference. */
  lemma TokensOfReference(digits: Digits, kind: Kind, t: string)
    requires RefLength(digits, kind, t) > 0
    ensures Tokens(digits, t)
         == [Reference(kind, RefNumber(digits, kind, t))] + Tokens(digits, t[RefLength(digits, kind, t)..])
  {
    if kind.External? {
      OneKindOnly(digits, External, Knowledge, t);
    }
  }

  function MapToken(token: Token, kind: Kind, number: nat -> nat): Token {
    if token.Reference? && token.kind == kind then Reference(kind, number(token.number)) else token
  }

  function MapTokens(tokens: seq<Token>, kind: Kind, number: nat -> nat): (r: seq<Token>)
    ensures |r| == |tokens| && forall i :: 0 <= i < |tokens| ==> r[i] == MapToken(tokens[i], kind, number)
  {
    if tokens == [] then [] else [MapToken(tokens[0], kind, number)] + MapTokens(tokens[1..], kind, number)
  }

  function Cited(kind: Kind, number: nat -> nat): nat -> string {
    (n: nat) => Cite(kind, number(n))
  }

  function Renumber(digits: Digits, kind: Kind, t: string, number: nat -> nat): string {
    Substitute(digits, kind, t, Cited(kind, number))
  }

  lemma RenumberReference(digits: Digits, kind: Kind, t: string, number: nat -> nat)
    requires RefLength(digits, kind, t) > 0
    ensures Renumber(digits, kind, t, number)
         == Cite(kind, number(RefNumber(digits, kind, t)))
            + Renumber(digits, kind, t[RefLength(digits, kind, t)..], number)
  {
  }

  /** Renumbered text is empty, or starts with an opening bracket, exactly when the text does. */
  lemma RenumberKeepsBracket(digits: Digits, kind: Kind, t: string, number: nat -> nat)
    ensures var r := Renumber(digits, kind, t, number);
            && (t == [] <==> r == [])
            && (t != [] ==> (t[0] == '[' <==> r[0] == '['))
  {
    if t != [] {
      if RefLength(digits, kind, t) > 0 {
        RenumberReference(digits, kind, t, number);
        RefShape(digits, kind, t);
      } else {
        SubstituteLetter(digits, kind, t, Cited(kind, number));
      }
    }
  }

  function PlainRun(t: string): (k: nat)
    ensures k <= |t| && (forall i :: 0 <= i < k ==> t[i] != '[') && (k < |t| ==> t[k] == '[')
  {
    if t != [] && t[0] != '[' then 1 + PlainRun(t[1..]) else 0
  }

  /** Text that agrees up to the next opening bracket starts with the same reference or none. */
  lemma RefEndsBeforeBracket(digits: Digits, any: Kind, t: string, u: string, k: nat)
    requires 0 < k <= |t| && k <= |u| && u[..k] == t[..k]
    requires |u| == k || u[k] == '['
    requires RefLength(digits, any, t) == 0
    ensures RefLength(digits, any, u) == 0
  {
    var n := RefLength(digits, any, u);
    if n > 0 {
      RefShape(digits, any, u);
      assert n <= k;
      assert t[..n] == t[..k][..n] && u[..n] == u[..k][..n];
      RefIsLocal(digits, any, u, t);
    }
  }

  lemma SameUpToBracket(digits: Digits, any: Kind, t: string, k: nat, behind: string)
    requires k < |t| && (behind == [] || behind[0] == '[') && RefLength(digits, any, t) == 0
    ensures RefLength(digits, any, [t[0]] + (t[1..][..k] + behind)) == 0
  {
    var u := [t[0]] + (t[1..][..k] + behind);
    assert u[..k + 1] == t[..k + 1];
    assert behind != [] ==> u[k + 1] == behind[0];
    RefEndsBeforeBracket(digits, any, t, u, k + 1);
  }

  /** Renumbering what follows never turns an opening character into the start of a reference. */
  lemma NothingArises(digits: Digits, kind: Kind, any: Kind, t: string, number: nat -> nat)
    requires t != [] && RefLength(digits, any, t) == 0
    ensures RefLength(digits, any, [t[0]] + Renumber(digits, kind, t[1..], number)) == 0
  {
    var tail := t[1..];
    var k := PlainRun(tail);
    SubstitutePassesOver(digits, kind, tail, k, Cited(kind, number));
    var behind := Renumber(digits, kind, tail[k..], number);
    RenumberKeepsBracket(digits, kind, tail[k..], number);
    SameUpToBracket(digits, any, t, k, behind);
  }

  lemma TokensOfLetter(digits: Digits, t: string)
    requires t != [] && forall kind :: RefLength(digits, kind, t) == 0
    ensures Tokens(digits, t) == [Letter(t[0])] + Tokens(digits, t[1..])
  {
  }

  ghost predicate Renumbered(digits: Digits, kind: Kind, t: string, number: nat -> nat) {
    Tokens(digits, Renumber(digits, kind, t, number)) == MapTokens(Tokens(digits, t), kind, number)
  }

  lemma RenumberedReference(digits: Digits, kind: Kind, t: string, number: nat -> nat)
    requires RefLength(digits, kind, t) > 0
    requires Renumbered(digits, kind, t[RefLength(digits, kind, t)..], number)
    ensures Renumbered(digits, kind, t, number)
  {
    var n := RefLength(digits, kind, t);
    var value := number(RefNumber(digits, kind, t));
    var rest := Renumber(digits, kind, t[n..], number);
    TokensOfReference(digits, kind, t);
    RenumberReference(digits, kind, t, number);
    CiteReads(digits, kind, value, rest);
    TokensOfReference(digits, kind, Cite(kind, value) + rest);
    assert (Cite(kind, value) + rest)[|Cite(kind, value)|..] == rest;
  }

  lemma RenumberedOther(digits: Digits, kind: Kind, other: Kind, t: string, number: nat -> nat)
    requires kind != other && RefLength(digits, other, t) > 0
    requires Renumbered(digits, kind, t[RefLength(digits, other, t)..], number)
    ensures Renumbered(digits, kind, t, number)
  {
    var m := RefLength(digits, other, t);
    var rest := Renumber(digits, kind, t[m..], number);
    var r := t[..m] + rest;
    TokensOfReference(digits, other, t);
    OtherKindKept(digits, kind, other, t, Cited(kind, number));
    assert r[..m] == t[..m] && r[m..] == rest;
    RefIsLocal(digits, other, t, r);
    TokensOfReference(digits, other, r);
  }

  lemma RenumberedLetter(digits: Digits, kind: Kind, t: string, number: nat -> nat)
    requires t != [] && forall any :: RefLength(digits, any, t) == 0
    requires Renumbered(digits, kind, t[1..], number)
    ensures Renumbered(digits, kind, t, number)
  {
    var rest := Renumber(digits, kind, t[1..], number);
    var r := [t[0]] + rest;
    SubstituteLetter(digits, kind, t, Cited(kind, number));
    forall any
      ensures RefLength(digits, any, r) == 0
    {
      NothingArises(digits, kind, any, t, number);
    }
    TokensOfLetter(digits, t);
    TokensOfLetter(digits, r);
    assert r[1..] == rest;
  }

  /** Renumbering the references of one kind changes exactly their numbers: no reference is created, split
      or lost, and the text around them stays. */
  lemma {:induction false} RenumberTokens(digits: Digits, kind: Kind, t: string, number: nat -> nat)
    ensures Renumbered(digits, kind, t, number)
    decreases |t|
  {
    if t != [] {
      var other := if kind.Knowledge? then External else Knowledge;
      var n, m := RefLength(digits, kind, t), RefLength(digits, other, t);
      if n > 0 {
        RenumberTokens(digits, kind, t[n..], number);
        RenumberedReference(digits, kind, t, number);
      } else if m > 0 {
        RenumberTokens(digits, kind, t[m..], number);
        RenumberedOther(digits, kind, other, t, number);
      } else {
        RenumberTokens(digits, kind, t[1..], number);
        RenumberedLetter(digits, kind, t, number);
      }
    }
  }

  // ----- Which references an answer makes -----

  const NO_ANSWER := "无法确定"

  function WithoutMarks(s: string): string {
    if s == [] then []
    else
      var last := s[|s| - 1];
      if last == '。' || last == '.' || last == '!' || last == '！' then WithoutMarks(s[..|s| - 1]) else s
  }

  predicate IsNoAnswer(answer: string) {
    var normalized := WithoutMarks(Trim(PythonSpace, answer));
    normalized == "无法确定" || normalized == "无法回答" || normalized == "资料不足，无法确定"
  }

  predicate Mark(c: char) {
    c == '。' || c == '.' || c == '!' || c == '！'
  }

  /** One of the three refusals with nothing but white space around it and stops between. */
  ghost predicate Refuses(answer: string, lo: nat, mid: nat, hi: nat) {
    && lo <= mid <= hi <= |answer|
    && (forall k :: 0 <= k < lo ==> PythonSpace(answer[k]))
    && answer[lo..mid] in ["无法确定", "无法回答", "资料不足，无法确定"]
    && (forall k :: mid <= k < hi ==> Mark(answer[k]))
    && (forall k :: hi <= k < |answer| ==> PythonSpace(answer[k]))
  }

  lemma {:induction false} WithoutMarksSpan(s: string) returns (n: nat)
    ensures n <= |s| && WithoutMarks(s) == s[..n] && (forall k :: n <= k < |s| ==> Mark(s[k]))
    ensures 0 < n ==> !Mark(s[n - 1])
  {
    n := |s|;
    if s != [] && Mark(s[|s| - 1]) {
      n := WithoutMarksSpan(s[..|s| - 1]);
      assert s[..|s| - 1][..n] == s[..n];
    }
  }

  lemma RefusalIsInk(answer: string, lo: nat, mid: nat, hi: nat)
    requires Refuses(answer, lo, mid, hi)
    ensures lo < mid && !PythonSpace(answer[lo]) && !PythonSpace(answer[hi - 1]) && !Mark(answer[mid - 1])
  {
    var word := answer[lo..mid];
    assert word[0] == answer[lo] && word[|word| - 1] == answer[mid - 1];
  }

  lemma RefusalIsRead(answer: string, lo: nat, mid: nat, hi: nat)
    requires Refuses(answer, lo, mid, hi)
    ensures IsNoAnswer(answer)
  {
    RefusalIsInk(answer, lo, mid, hi);
    var from, to := TrimCovers(PythonSpace, answer, lo);
    var from', to' := TrimSpan(PythonSpace, answer);
    assert from' == lo && to' == hi;
    var cut := answer[lo..hi];
    var n := WithoutMarksSpan(cut);
    assert forall k :: 0 <= k < |cut| ==> cut[k] == answer[lo + k];
    assert n == mid - lo;
    assert cut[..n] == answer[lo..mid];
  }

  /** The answers that count as refusals. */
  lemma RefusalIff(answer: string)
    ensures IsNoAnswer(answer) <==> exists lo, mid, hi :: Refuses(answer, lo, mid, hi)
  {
    if IsNoAnswer(answer) {
      var lo, hi := TrimSpan(PythonSpace, answer);
      var cut := answer[lo..hi];
      var n := WithoutMarksSpan(cut);
      assert forall k :: 0 <= k < |cut| ==> cut[k] == answer[lo + k];
      assert cut[..n] == answer[lo..lo + n];
      assert Refuses(answer, lo, lo + n, hi);
    } else if exists lo, mid, hi :: Refuses(answer, lo, mid, hi) {
      var lo, mid, hi :| Refuses(answer, lo, mid, hi);
      RefusalIsRead(answer, lo, mid, hi);
    }
  }

  datatype Structure = Structure(supported: bool, reason: string)

  predicate AllWithin(numbers: seq<nat>, limit: nat) {
    forall i :: 0 <= i < |numbers| ==> 1 <= numbers[i] <= limit
  }

  function ValidateStructure(digits: Digits, answer: string, chunks: nat, links: nat): Structure {
    var normalized := Normalized(answer);
    if IsNoAnswer(normalized) then Structure(true, "")
    else
      var knowledge, external := FindAll(digits, Knowledge, normalized), FindAll(digits, External, normalized);
      if knowledge + external == [] then Structure(false, "missing_citations")
      else if !AllWithin(knowledge, chunks) || !AllWithin(external, links) then
        Structure(false, "invalid_reference_index")
      else Structure(true, "")
  }

  // ----- When the check supports an answer -----

  lemma {:induction false} TokenIsFound(tokens: seq<Token>, j: nat)
    requires j < |tokens| && tokens[j].Reference?
    ensures tokens[j].number in Numbers(tokens, tokens[j].kind)
  {
    if j > 0 {
      TokenIsFound(tokens[1..], j - 1);
    }
  }

  lemma {:induction false} FoundIsToken(tokens: seq<Token>, kind: Kind, i: nat) returns (j: nat)
    requires i < |Numbers(tokens, kind)|
    ensures j < |tokens| && tokens[j] == Reference(kind, Numbers(tokens, kind)[i])
  {
    if tokens[0].Reference? && tokens[0].kind == kind && i == 0 {
      j := 0;
    } else {
      j := FoundIsToken(tokens[1..], kind, if tokens[0].Reference? && tokens[0].kind == kind then i - 1 else i);
      j := j + 1;
    }
  }

  ghost predicate Cites(tokens: seq<Token>) {
    exists j :: 0 <= j < |tokens| && tokens[j].Reference?
  }

  /** Each reference of a kind has a number from 1 to the count of its kind. */
  ghost predicate InRange(tokens: seq<Token>, kind: Kind, count: nat) {
    forall j :: 0 <= j < |tokens| && tokens[j].Reference? && tokens[j].kind == kind ==> 1 <= tokens[j].number <= count
  }

  lemma InRangeMeans(tokens: seq<Token>, kind: Kind, count: nat)
    ensures AllWithin(Numbers(tokens, kind), count) <==> InRange(tokens, kind, count)
  {
    var numbers := Numbers(tokens, kind);
    if InRange(tokens, kind, count) {
      forall i | 0 <= i < |numbers|
        ensures 1 <= numbers[i] <= count
      {
        var j := FoundIsToken(tokens, kind, i);
      }
    } else {
      var j :| 0 <= j < |tokens| && tokens[j].Reference? && tokens[j].kind == kind && !(1 <= tokens[j].number <= count);
      TokenIsFound(tokens, j);
      var i :| 0 <= i < |numbers| && numbers[i] == tokens[j].number;
      assert !(1 <= numbers[i] <= count);
    }
  }

  lemma CitesMeans(tokens: seq<Token>)
    ensures Numbers(tokens, Knowledge) + Numbers(tokens, External) != [] <==> Cites(tokens)
  {
    if Cites(tokens) {
      var j :| 0 <= j < |tokens| && tokens[j].Reference?;
      TokenIsFound(tokens, j);
    } else {
      if Numbers(tokens, Knowledge) != [] {
        var j := FoundIsToken(tokens, Knowledge, 0);
      }
      if Numbers(tokens, External) != [] {
        var j := FoundIsToken(tokens, External, 0);
      }
    }
  }

  /** The check supports an answer exactly when it is a refusal, or makes a reference of either kind and every
      reference it makes is in range; it complains of missing citations exactly when an answer that is no
      refusal makes none, and of invalid ones exactly when it makes some and one is out of range. */
  lemma StructureMeans(digits: Digits, answer: string, chunks: nat, links: nat)
    ensures var v, normalized := ValidateStructure(digits, answer, chunks, links), Normalized(answer);
            var tokens := Tokens(digits, normalized);
            var valid := InRange(tokens, Knowledge, chunks) && InRange(tokens, External, links);
            && (v.supported <==> IsNoAnswer(normalized) || (Cites(tokens) && valid))
            && (v.reason == "missing_citations" <==> !IsNoAnswer(normalized) && !Cites(tokens))
            && (v.reason == "invalid_reference_index" <==> !IsNoAnswer(normalized) && Cites(tokens) && !valid)
            && (v.reason == "" <==> v.supported)
  {
    var normalized := Normalized(answer);
    var tokens := Tokens(digits, normalized);
    FindAllReadsTokens(digits, Knowledge, normalized);
    FindAllReadsTokens(digits, External, normalized);
    InRangeMeans(tokens, Knowledge, chunks);
    InRangeMeans(tokens, External, links);
    CitesMeans(tokens);
  }

  // ----- Selection -----

  /** The distinct in-range indexes, in order of first appearance. */
  function Indexes(numbers: seq<nat>, limit: nat): (r: seq<nat>)
    ensures forall i :: 0 <= i < |r| ==> r[i] < limit
    ensures forall i, j :: 0 <= i < j < |r| ==> r[i] != r[j]
  {
    if numbers == [] then []
    else
      var earlier, n := Indexes(numbers[..|numbers| - 1], limit), numbers[|numbers| - 1];
      if 1 <= n <= limit && n - 1 !in earlier then earlier + [n - 1] else earlier
  }

  method ReferenceIndexes(digits: Digits, kind: Kind, answer: string, limit: nat) returns (indexes: seq<nat>)
    ensures indexes == Indexes(FindAll(digits, kind, answer), limit)
  {
    var found := FindAll(digits, kind, answer);
    indexes := [];
    for k := 0 to |found|
      invariant indexes == Indexes(found[..k], limit)
    {
      var index := found[k] as int - 1;
      assert found[..k + 1][..k] == found[..k];
      if 0 <= index < limit && index !in indexes {
        indexes := indexes + [index];
      }
    }
    assert found[..|found|] == found;
  }

  function Position(indexes: seq<nat>, x: nat): (p: nat)
    ensures p <= |indexes| && (p < |indexes| ==> indexes[p] == x) && (x in indexes ==> p < |indexes|)
  {
    if indexes == [] || indexes[0] == x then 0 else 1 + Position(indexes[1..], x)
  }

  /** Every known reference gets its new number; every other one is deleted. */
  function Replacement(kind: Kind, indexes: seq<nat>): nat -> string {
    (n: nat) => if n >= 1 && n - 1 in indexes then Cite(kind, Position(indexes, n - 1) + 1) else ""
  }

  function Remap(digits: Digits, kind: Kind, answer: string, indexes: seq<nat>): string {
    Substitute(digits, kind, answer, Replacement(kind, indexes))
  }

  function Pick<T>(sources: seq<T>, indexes: seq<nat>): (r: seq<T>)
    requires forall i :: 0 <= i < |indexes| ==> indexes[i] < |sources|
    ensures |r| == |indexes| && forall i :: 0 <= i < |r| ==> r[i] == sources[indexes[i]]
  {
    seq(|indexes|, i requires 0 <= i < |indexes| => sources[indexes[i]])
  }

  datatype Selected<C, L> = Selected(answer: string, chunks: seq<C>, links: seq<L>)

  function SelectReferenced<C, L>(digits: Digits, answer: string, chunks: seq<C>, links: seq<L>): Selected<C, L> {
    var normalized := Normalized(answer);
    if IsNoAnswer(normalized) then Selected(NO_ANSWER, [], [])
    else
      var c := Indexes(FindAll(digits, Knowledge, normalized), |chunks|);
      var l := Indexes(FindAll(digits, External, normalized), |links|);
      Selected(Remap(digits, External, Remap(digits, Knowledge, normalized, c), l), Pick(chunks, c), Pick(links, l))
  }

  // ----- What selection achieves -----

  /** The numbers, in order of first appearance, are exactly 1 to k. */
  ghost predicate NumberedInOrder(numbers: seq<nat>, k: nat) {
    && (forall i :: 0 <= i < |numbers| ==> 1 <= numbers[i] <= k)
    && (forall i :: 0 <= i < |numbers| && numbers[i] > 1 ==> numbers[i] - 1 in numbers[..i])
    && (forall n: nat :: 1 <= n <= k ==> n in numbers)
  }

  function NewNumber(indexes: seq<nat>, n: nat): nat {
    if n == 0 then 1 else Position(indexes, n - 1) + 1
  }

  function Numbering(indexes: seq<nat>): nat -> nat {
    n => NewNumber(indexes, n)
  }

  function NewNumbers(numbers: seq<nat>, indexes: seq<nat>): (r: seq<nat>)
    ensures |r| == |numbers| && forall i :: 0 <= i < |r| ==> r[i] == NewNumber(indexes, numbers[i])
  {
    seq(|numbers|, i requires 0 <= i < |numbers| => NewNumber(indexes, numbers[i]))
  }

  lemma {:induction false} PositionInLonger(indexes: seq<nat>, last: nat, x: nat)
    requires x in indexes
    ensures Position(indexes + [last], x) == Position(indexes, x)
  {
    if indexes[0] != x {
      assert (indexes + [last])[1..] == indexes[1..] + [last];
      PositionInLonger(indexes[1..], last, x);
    }
  }

  lemma {:induction false} PositionOfNew(indexes: seq<nat>, x: nat)
    requires x !in indexes
    ensures Position(indexes + [x], x) == |indexes|
  {
    if indexes != [] {
      assert (indexes + [x])[1..] == indexes[1..] + [x];
      PositionOfNew(indexes[1..], x);
    }
  }

  lemma {:induction false} IndexesCoverValid(numbers: seq<nat>, limit: nat)
    requires AllWithin(numbers, limit)
    ensures forall i :: 0 <= i < |numbers| ==> numbers[i] - 1 in Indexes(numbers, limit)
  {
    if numbers != [] {
      IndexesCoverValid(numbers[..|numbers| - 1], limit);
    }
  }

  lemma OneMoreInOrder(numbers: seq<nat>, k: nat, n: nat)
    requires NumberedInOrder(numbers, k) && 1 <= n <= k + 1
    ensures NumberedInOrder(numbers + [n], if n == k + 1 then k + 1 else k)
  {
    var more := numbers + [n];
    assert more[|numbers|] == n;
    forall i | 0 <= i < |more| && more[i] > 1
      ensures more[i] - 1 in more[..i]
    {
      assert i < |numbers| ==> more[..i] == numbers[..i];
      assert more[..|numbers|] == numbers;
    }
    forall m: nat | 1 <= m <= (if n == k + 1 then k + 1 else k)
      ensures m in more
    {
      assert m <= k ==> m in numbers;
    }
  }

  /** New numbers do not change when one more index is found. */
  lemma NewNumbersStay(numbers: seq<nat>, earlier: seq<nat>, last: nat)
    requires forall i :: 0 <= i < |numbers| ==> numbers[i] >= 1 && numbers[i] - 1 in earlier
    ensures NewNumbers(numbers, earlier + [last]) == NewNumbers(numbers, earlier)
  {
    forall i | 0 <= i < |numbers|
      ensures NewNumber(earlier + [last], numbers[i]) == NewNumber(earlier, numbers[i])
    {
      PositionInLonger(earlier, last, numbers[i] - 1);
    }
  }

  lemma NewNumbersStep(numbers: seq<nat>, n: nat, indexes: seq<nat>)
    ensures NewNumbers(numbers + [n], indexes) == NewNumbers(numbers, indexes) + [NewNumber(indexes, n)]
  {
  }

  lemma IndexesStep(numbers: seq<nat>, n: nat, limit: nat)
    requires 1 <= n <= limit
    ensures var earlier := Indexes(numbers, limit);
            Indexes(numbers + [n], limit) == if n - 1 in earlier then earlier else earlier + [n - 1]
  {
    assert (numbers + [n])[..|numbers|] == numbers;
  }

  lemma KnownNumber(numbers: seq<nat>, indexes: seq<nat>, n: nat)
    requires NumberedInOrder(NewNumbers(numbers, indexes), |indexes|) && n >= 1 && n - 1 in indexes
    ensures NumberedInOrder(NewNumbers(numbers + [n], indexes), |indexes|)
  {
    NewNumbersStep(numbers, n, indexes);
    assert NewNumber(indexes, n) <= |indexes|;
    OneMoreInOrder(NewNumbers(numbers, indexes), |indexes|, NewNumber(indexes, n));
  }

  lemma FreshNumber(numbers: seq<nat>, earlier: seq<nat>, n: nat)
    requires NumberedInOrder(NewNumbers(numbers, earlier), |earlier|) && n >= 1 && n - 1 !in earlier
    requires forall i :: 0 <= i < |numbers| ==> numbers[i] >= 1 && numbers[i] - 1 in earlier
    ensures NumberedInOrder(NewNumbers(numbers + [n], earlier + [n - 1]), |earlier| + 1)
  {
    var all := earlier + [n - 1];
    NewNumbersStep(numbers, n, all);
    NewNumbersStay(numbers, earlier, n - 1);
    PositionOfNew(earlier, n - 1);
    assert NewNumber(all, n) == |earlier| + 1;
    OneMoreInOrder(NewNumbers(numbers, earlier), |earlier|, |earlier| + 1);
  }

  /** Valid references, renumbered by the indexes they select, are numbered in order. */
  lemma {:induction false} NewNumbersAreInOrder(numbers: seq<nat>, limit: nat)
    requires AllWithin(numbers, limit)
    ensures NumberedInOrder(NewNumbers(numbers, Indexes(numbers, limit)), |Indexes(numbers, limit)|)
  {
    if numbers != [] {
      var front, n := numbers[..|numbers| - 1], numbers[|numbers| - 1];
      var earlier := Indexes(front, limit);
      NewNumbersAreInOrder(front, limit);
      IndexesCoverValid(front, limit);
      assert numbers == front + [n];
      IndexesStep(front, n, limit);
      if n - 1 in earlier {
        KnownNumber(front, earlier, n);
      } else {
        FreshNumber(front, earlier, n);
      }
    }
  }

  lemma {:induction false} NumbersOfMapped(tokens: seq<Token>, kind: Kind, number: nat -> nat, any: Kind)
    ensures var mapped := Numbers(MapTokens(tokens, kind, number), any);
            && |mapped| == |Numbers(tokens, any)|
            && (forall i :: 0 <= i < |mapped| ==>
                mapped[i] == if any == kind then number(Numbers(tokens, any)[i]) else Numbers(tokens, any)[i])
  {
    if tokens != [] {
      NumbersOfMapped(tokens[1..], kind, number, any);
      var head := if tokens[0].Reference? && tokens[0].kind == any then [tokens[0].number] else [];
      assert Numbers(tokens, any) == head + Numbers(tokens[1..], any);
      assert MapTokens(tokens, kind, number)[1..] == MapTokens(tokens[1..], kind, number);
    }
  }

  lemma {:induction false} SubstituteAgrees(digits: Digits, kind: Kind, t: string, f: nat -> string, g: nat -> string)
    requires forall n :: n in FindAll(digits, kind, t) ==> f(n) == g(n)
    ensures Substitute(digits, kind, t, f) == Substitute(digits, kind, t, g)
    decreases |t|
  {
    if t != [] {
      var n := RefLength(digits, kind, t);
      if n > 0 {
        assert RefNumber(digits, kind, t) in FindAll(digits, kind, t);
        SubstituteAgrees(digits, kind, t[n..], f, g);
      } else {
        SubstituteAgrees(digits, kind, t[1..], f, g);
      }
    }
  }

  lemma SameReplacement(kind: Kind, indexes: seq<nat>, n: nat)
    requires n >= 1 && n - 1 in indexes
    ensures Replacement(kind, indexes)(n) == Cited(kind, Numbering(indexes))(n)
  {
    var m := Position(indexes, n - 1) + 1;
    assert Numbering(indexes)(n) == m;
    assert Replacement(kind, indexes)(n) == Cite(kind, m);
  }

  lemma ReplacementsAgree(kind: Kind, numbers: seq<nat>, limit: nat)
    requires AllWithin(numbers, limit)
    ensures var indexes := Indexes(numbers, limit);
            forall n :: n in numbers ==> Replacement(kind, indexes)(n) == Cited(kind, Numbering(indexes))(n)
  {
    var indexes := Indexes(numbers, limit);
    IndexesCoverValid(numbers, limit);
    forall n | n in numbers
      ensures Replacement(kind, indexes)(n) == Cited(kind, Numbering(indexes))(n)
    {
      var i :| 0 <= i < |numbers| && numbers[i] == n;
      SameReplacement(kind, indexes, numbers[i]);
    }
  }

  /** When every reference is in range, remapping deletes nothing: it renumbers. */
  lemma RemapRenumbers(digits: Digits, kind: Kind, t: string, limit: nat)
    requires AllWithin(FindAll(digits, kind, t), limit)
    ensures var indexes := Indexes(FindAll(digits, kind, t), limit);
            && Tokens(digits, Remap(digits, kind, t, indexes))
               == MapTokens(Tokens(digits, t), kind, Numbering(indexes))
  {
    var found := FindAll(digits, kind, t);
    var indexes := Indexes(found, limit);
    ReplacementsAgree(kind, found, limit);
    SubstituteAgrees(digits, kind, t, Replacement(kind, indexes), Cited(kind, Numbering(indexes)));
    RenumberTokens(digits, kind, t, Numbering(indexes));
  }

  /** References of one kind after remapping the other, or the same, kind. */
  lemma RemapFindAll(digits: Digits, kind: Kind, t: string, limit: nat, any: Kind)
    requires AllWithin(FindAll(digits, kind, t), limit)
    ensures var found := FindAll(digits, kind, t);
            var indexes := Indexes(found, limit);
            FindAll(digits, any, Remap(digits, kind, t, indexes))
              == if any == kind then NewNumbers(found, indexes) else FindAll(digits, any, t)
  {
    var indexes := Indexes(FindAll(digits, kind, t), limit);
    RemapRenumbers(digits, kind, t, limit);
    FindAllReadsTokens(digits, any, t);
    FindAllReadsTokens(digits, any, Remap(digits, kind, t, indexes));
    NumbersOfMapped(Tokens(digits, t), kind, Numbering(indexes), any);
  }

  /** The answer carries a bracket whenever it carries a reference, so it is not a refusal. */
  lemma {:induction false} ReferencesNeedBrackets(digits: Digits, kind: Kind, t: string)
    requires FindAll(digits, kind, t) != []
    ensures '[' in t
    decreases |t|
  {
    if RefLength(digits, kind, t) > 0 {
      RefShape(digits, kind, t);
      assert t[0] in t;
    } else {
      ReferencesNeedBrackets(digits, kind, t[1..]);
    }
  }

  lemma {:induction false} MarksAreNoBrackets(s: string)
    requires '[' in s
    ensures '[' in WithoutMarks(s)
  {
    var last := s[|s| - 1];
    if last == '。' || last == '.' || last == '!' || last == '！' {
      assert '[' in s[..|s| - 1];
      MarksAreNoBrackets(s[..|s| - 1]);
    }
  }

  lemma BracketsAnswer(s: string)
    requires '[' in s
    ensures !IsNoAnswer(s)
  {
    var k :| 0 <= k < |s| && s[k] == '[';
    var lo, hi := TrimCovers(PythonSpace, s, k);
    assert s[lo..hi][k - lo] == '[';
    MarksAreNoBrackets(s[lo..hi]);
  }

  lemma RefusalIsNoAnswer()
    ensures IsNoAnswer(NO_ANSWER)
  {
    TrimKeeps(PythonSpace, NO_ANSWER);
  }

  /** After remapping both kinds: the references are those of the original, renumbered. */
  lemma BothRemapped(digits: Digits, t: string, chunks: nat, links: nat)
    requires AllWithin(FindAll(digits, Knowledge, t), chunks) && AllWithin(FindAll(digits, External, t), links)
    ensures var k, e := FindAll(digits, Knowledge, t), FindAll(digits, External, t);
            var c, l := Indexes(k, chunks), Indexes(e, links);
            var r := Remap(digits, External, Remap(digits, Knowledge, t, c), l);
            && FindAll(digits, Knowledge, r) == NewNumbers(k, c)
            && FindAll(digits, External, r) == NewNumbers(e, l)
            && Tokens(digits, r)
               == MapTokens(MapTokens(Tokens(digits, t), Knowledge, Numbering(c)), External, Numbering(l))
  {
    var c := Indexes(FindAll(digits, Knowledge, t), chunks);
    var middle := Remap(digits, Knowledge, t, c);
    RemapFindAll(digits, Knowledge, t, chunks, Knowledge);
    RemapFindAll(digits, Knowledge, t, chunks, External);
    RemapFindAll(digits, External, middle, links, Knowledge);
    RemapFindAll(digits, External, middle, links, External);
    RemapRenumbers(digits, Knowledge, t, chunks);
    RemapRenumbers(digits, External, middle, links);
  }

  /** A refusal without sources, or an answer whose references number its sources in order. */
  ghost predicate Grounded<C, L>(digits: Digits, r: Selected<C, L>) {
    || (r.answer == NO_ANSWER && r.chunks == [] && r.links == [])
    || (&& !IsNoAnswer(r.answer) && |r.chunks| + |r.links| >= 1
        && NumberedInOrder(FindAll(digits, Knowledge, r.answer), |r.chunks|)
        && NumberedInOrder(FindAll(digits, External, r.answer), |r.links|))
  }

  ghost predicate CitesSame<T>(before: nat, after: nat, sources: seq<T>, selected: seq<T>) {
    1 <= before <= |sources| && 1 <= after <= |selected| && selected[after - 1] == sources[before - 1]
  }

  /** The same letter, or a reference renumbered so that it names the source it named before. */
  ghost predicate SameToken<C, L>(before: Token, after: Token, chunks: seq<C>, links: seq<L>, r: Selected<C, L>) {
    match before
    case Letter(c) => after == before
    case Reference(kind, n) =>
      && after.Reference? && after.kind == kind
      && (if kind == Knowledge then CitesSame(n, after.number, chunks, r.chunks)
          else CitesSame(n, after.number, links, r.links))
  }

  ghost predicate SameAnswer<C, L>(before: seq<Token>, after: seq<Token>, chunks: seq<C>, links: seq<L>,
                                   r: Selected<C, L>)
  {
    && |after| == |before|
    && (forall j :: 0 <= j < |before| ==> SameToken(before[j], after[j], chunks, links, r))
  }

  lemma PickedCitesSame<T>(indexes: seq<nat>, sources: seq<T>, n: nat)
    requires forall i :: 0 <= i < |indexes| ==> indexes[i] < |sources|
    requires n >= 1 && n - 1 in indexes
    ensures CitesSame(n, NewNumber(indexes, n), sources, Pick(sources, indexes))
  {
    var p := Position(indexes, n - 1);
    assert NewNumber(indexes, n) == p + 1 && indexes[p] == n - 1;
  }

  lemma RenumberedCitesSame<T>(numbers: seq<nat>, sources: seq<T>, n: nat)
    requires AllWithin(numbers, |sources|) && n in numbers
    ensures var indexes := Indexes(numbers, |sources|);
            CitesSame(n, NewNumber(indexes, n), sources, Pick(sources, indexes))
  {
    IndexesCoverValid(numbers, |sources|);
    var i :| 0 <= i < |numbers| && numbers[i] == n;
    PickedCitesSame(Indexes(numbers, |sources|), sources, numbers[i]);
  }

  lemma DistinctBelow(indexes: seq<nat>, limit: nat)
    requires forall i :: 0 <= i < |indexes| ==> indexes[i] < limit
    requires forall i, j :: 0 <= i < j < |indexes| ==> indexes[i] != indexes[j]
    ensures |indexes| <= limit
  {
    var members := set i | 0 <= i < |indexes| :: indexes[i];
    CountOfDistinct(indexes, members);
    SubsetIsSmaller(members, Below(limit));
  }

  function Below(limit: nat): (r: set<nat>)
    ensures |r| == limit && forall n: nat :: n in r <==> n < limit
  {
    if limit == 0 then {} else Below(limit - 1) + {limit - 1}
  }

  lemma {:induction false} CountOfDistinct(indexes: seq<nat>, members: set<nat>)
    requires members == set i | 0 <= i < |indexes| :: indexes[i]
    requires forall i, j :: 0 <= i < j < |indexes| ==> indexes[i] != indexes[j]
    ensures |members| == |indexes|
  {
    if indexes != [] {
      var n := |indexes| - 1;
      var rest := set i | 0 <= i < n :: indexes[..n][i];
      CountOfDistinct(indexes[..n], rest);
      assert members == rest + {indexes[n]};
    }
  }

  lemma {:induction false} SubsetIsSmaller(a: set<nat>, b: set<nat>)
    requires a <= b
    ensures |a| <= |b|
  {
    if a != {} {
      var x :| x in a;
      SubsetIsSmaller(a - {x}, b - {x});
    }
  }

  /** Selection after a successful structural check: grounded, no more sources than there were, and the same
      answer with each reference naming the source it named. */
  lemma SelectionIsGrounded<C, L>(digits: Digits, answer: string, chunks: seq<C>, links: seq<L>)
    requires ValidateStructure(digits, answer, |chunks|, |links|).supported
    ensures var r := SelectReferenced(digits, answer, chunks, links);
            && Grounded(digits, r)
            && |r.chunks| <= |chunks| && |r.links| <= |links|
            && (IsNoAnswer(r.answer) <==> IsNoAnswer(Normalized(answer)))
            && (!IsNoAnswer(r.answer) ==>
                SameAnswer(Tokens(digits, Normalized(answer)), Tokens(digits, r.answer), chunks, links, r))
  {
    var t := Normalized(answer);
    if IsNoAnswer(t) {
      RefusalIsNoAnswer();
    } else {
      AnswerIsGrounded(digits, t, chunks, links);
    }
  }

  lemma AnswerIsGrounded<C, L>(digits: Digits, t: string, chunks: seq<C>, links: seq<L>)
    requires var k, e := FindAll(digits, Knowledge, t), FindAll(digits, External, t);
             k + e != [] && AllWithin(k, |chunks|) && AllWithin(e, |links|)
    ensures var c := Indexes(FindAll(digits, Knowledge, t), |chunks|);
            var l := Indexes(FindAll(digits, External, t), |links|);
            var answer := Remap(digits, External, Remap(digits, Knowledge, t, c), l);
            var r := Selected(answer, Pick(chunks, c), Pick(links, l));
            && Grounded(digits, r) && !IsNoAnswer(r.answer)
            && |r.chunks| <= |chunks| && |r.links| <= |links|
            && SameAnswer(Tokens(digits, t), Tokens(digits, r.answer), chunks, links, r)
  {
    var k, e := FindAll(digits, Knowledge, t), FindAll(digits, External, t);
    var c, l := Indexes(k, |chunks|), Indexes(e, |links|);
    var answer := Remap(digits, External, Remap(digits, Knowledge, t, c), l);
    BothRemapped(digits, t, |chunks|, |links|);
    NewNumbersAreInOrder(k, |chunks|);
    NewNumbersAreInOrder(e, |links|);
    DistinctBelow(c, |chunks|);
    DistinctBelow(l, |links|);
    ReferencesNeedBrackets(digits, if k != [] then Knowledge else External, answer);
    BracketsAnswer(answer);
    IndexesCoverValid(k, |chunks|);
    IndexesCoverValid(e, |links|);
    assert |c| + |l| >= 1;
    TokensCiteSame(digits, t, chunks, links);
  }

  lemma TokensCiteSame<C, L>(digits: Digits, t: string, chunks: seq<C>, links: seq<L>)
    requires AllWithin(FindAll(digits, Knowledge, t), |chunks|) && AllWithin(FindAll(digits, External, t), |links|)
    ensures var c := Indexes(FindAll(digits, Knowledge, t), |chunks|);
            var l := Indexes(FindAll(digits, External, t), |links|);
            var before := Tokens(digits, t);
            SameAnswer(before, MapTokens(MapTokens(before, Knowledge, Numbering(c)), External, Numbering(l)),
                       chunks, links, Selected("", Pick(chunks, c), Pick(links, l)))
  {
    var before := Tokens(digits, t);
    var k, e := FindAll(digits, Knowledge, t), FindAll(digits, External, t);
    FindAllReadsTokens(digits, Knowledge, t);
    FindAllReadsTokens(digits, External, t);
    MappedTokensCiteSame(before, k, e, chunks, links);
  }

  lemma TokenCitesSame<C, L>(before: Token, k: seq<nat>, e: seq<nat>, chunks: seq<C>, links: seq<L>)
    requires AllWithin(k, |chunks|) && AllWithin(e, |links|)
    requires before.Reference? ==> before.number in (if before.kind == Knowledge then k else e)
    ensures var c, l := Indexes(k, |chunks|), Indexes(e, |links|);
            SameToken(before, MapToken(MapToken(before, Knowledge, Numbering(c)), External, Numbering(l)),
                      chunks, links, Selected("", Pick(chunks, c), Pick(links, l)))
  {
    if before.Reference? {
      if before.kind == Knowledge {
        RenumberedCitesSame(k, chunks, before.number);
      } else {
        RenumberedCitesSame(e, links, before.number);
      }
    }
  }

  lemma MappedTokensCiteSame<C, L>(before: seq<Token>, k: seq<nat>, e: seq<nat>, chunks: seq<C>, links: seq<L>)
    requires k == Numbers(before, Knowledge) && e == Numbers(before, External)
    requires AllWithin(k, |chunks|) && AllWithin(e, |links|)
    ensures var c, l := Indexes(k, |chunks|), Indexes(e, |links|);
            SameAnswer(before, MapTokens(MapTokens(before, Knowledge, Numbering(c)), External, Numbering(l)),
                       chunks, links, Selected("", Pick(chunks, c), Pick(links, l)))
  {
    var c, l := Indexes(k, |chunks|), Indexes(e, |links|);
    var after := MapTokens(MapTokens(before, Knowledge, Numbering(c)), External, Numbering(l));
    forall j | 0 <= j < |before|
      ensures SameToken(before[j], after[j], chunks, links, Selected("", Pick(chunks, c), Pick(links, l)))
    {
      if before[j].Reference? {
        TokenIsFound(before, j);
      }
      TokenCitesSame(before[j], k, e, chunks, links);
    }
  }

  // ----- Refusals and layout -----

  lemma {:induction false} MarksAreNoSpace(s: string)
    requires IsWord(PythonSpace, WithoutMarks(s))
    ensures IsWord(PythonSpace, s)
  {
    var last := s[|s| - 1];
    if last == '。' || last == '.' || last == '!' || last == '！' {
      MarksAreNoSpace(s[..|s| - 1]);
      assert s == s[..|s| - 1] + [last];
    }
  }

  lemma RefusalsAreWords()
    ensures IsWord(PythonSpace, "无法确定") && IsWord(PythonSpace, "无法回答")
    ensures IsWord(PythonSpace, "资料不足，无法确定")
  {
  }

  /** An answer that reads as a refusal still does when its layout has been normalised. */
  lemma RefusalsStayRefusals(answer: string)
    requires IsNoAnswer(answer)
    ensures IsNoAnswer(Normalized(answer))
  {
    var lo, hi := TrimSpan(PythonSpace, answer);
    var word := answer[lo..hi];
    RefusalsAreWords();
    MarksAreNoSpace(word);
    assert answer == answer[..lo] + (word + answer[hi..]);
    WordIsKept(answer[..lo], word, answer[hi..]);
    TrimKeeps(PythonSpace, word);
  }
}
