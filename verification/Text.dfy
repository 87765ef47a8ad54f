/** Whitespace trimming shared by the Go services and the Python agent.  The two languages differ
    only in which characters count as white space, so the predicate is a parameter. */
module Text {

  type SpaceTest = char -> bool

  /** The characters for which Go's unicode.IsSpace holds. */
  predicate GoSpace(c: char) {
    || '\t' <= c <= '\r' || c == ' ' || c == '\U{0085}' || c == '\U{00A0}' || c == '\U{1680}'
    || '\U{2000}' <= c <= '\U{200A}'
    || c == '\U{2028}' || c == '\U{2029}' || c == '\U{202F}' || c == '\U{205F}' || c == '\U{3000}'
  }

  /** The characters for which Python's str.isspace holds. */
  predicate PythonSpace(c: char) {
    GoSpace(c) || '\U{001C}' <= c <= '\U{001F}'
  }

  function TrimLeft(space: SpaceTest, s: string): string {
    if s != [] && space(s[0]) then TrimLeft(space, s[1..]) else s
  }

  function TrimRight(space: SpaceTest, s: string): string {
    if s != [] && space(s[|s| - 1]) then TrimRight(space, s[..|s| - 1]) else s
  }

  function Trim(space: SpaceTest, s: string): string {
    TrimRight(space, TrimLeft(space, s))
  }

  /** `t` is what remains of `s[lo..hi]` being cut out with nothing but white space thrown away. */
  ghost predicate CutsOnlySpace(space: SpaceTest, s: string, lo: nat, hi: nat) {
    && lo <= hi <= |s|
    && (forall k :: 0 <= k < lo ==> space(s[k]))
    && (forall k :: hi <= k < |s| ==> space(s[k]))
    && (lo < hi ==> !space(s[lo]) && !space(s[hi - 1]))
  }

  lemma {:induction false} TrimLeftSpan(space: SpaceTest, s: string) returns (lo: nat)
    ensures lo <= |s| && TrimLeft(space, s) == s[lo..]
    ensures forall k :: 0 <= k < lo ==> space(s[k])
    ensures lo < |s| ==> !space(s[lo])
  {
    if s != [] && space(s[0]) {
      var rest := TrimLeftSpan(space, s[1..]);
      lo := rest + 1;
      assert forall k :: 1 <= k < lo ==> s[k] == s[1..][k - 1];
    } else {
      lo := 0;
    }
  }

  lemma {:induction false} TrimRightSpan(space: SpaceTest, s: string) returns (hi: nat)
    ensures hi <= |s| && TrimRight(space, s) == s[..hi]
    ensures forall k :: hi <= k < |s| ==> space(s[k])
    ensures 0 < hi ==> !space(s[hi - 1])
  {
    if s != [] && space(s[|s| - 1]) {
      hi := TrimRightSpan(space, s[..|s| - 1]);
      assert s[..|s| - 1][..hi] == s[..hi];
    } else {
      hi := |s|;
    }
  }

  /** Trimming cuts one stretch out of the text and drops nothing but white space. */
  lemma TrimSpan(space: SpaceTest, s: string) returns (lo: nat, hi: nat)
    ensures CutsOnlySpace(space, s, lo, hi) && Trim(space, s) == s[lo..hi]
  {
    lo := TrimLeftSpan(space, s);
    var length := TrimRightSpan(space, s[lo..]);
    hi := lo + length;
    assert forall k :: lo <= k < |s| ==> s[k] == s[lo..][k - lo];
    assert s[lo..][..length] == s[lo..hi];
  }

  /** A character that is not white space survives trimming. */
  lemma TrimCovers(space: SpaceTest, s: string, k: nat) returns (lo: nat, hi: nat)
    requires k < |s| && !space(s[k])
    ensures lo <= k < hi <= |s| && Trim(space, s) == s[lo..hi]
  {
    lo, hi := TrimSpan(space, s);
  }

  /** Text whose first and last characters are not white space is left as it is. */
  lemma TrimKeeps(space: SpaceTest, s: string)
    requires s == [] || (!space(s[0]) && !space(s[|s| - 1]))
    ensures Trim(space, s) == s
  {
  }

  ghost predicate Trimmed(space: SpaceTest, s: string) {
    s == [] || (!space(s[0]) && !space(s[|s| - 1]))
  }

  lemma TrimIsTrimmed(space: SpaceTest, s: string)
    ensures Trimmed(space, Trim(space, s)) && |Trim(space, s)| <= |s|
  {
    var lo, hi := TrimSpan(space, s);
  }
}
