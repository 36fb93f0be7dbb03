/**
 * The e-mail pattern shared by the backend job parser and the browser
 * extension, `/([a-zA-Z0-9._-]+@[a-zA-Z0-9._-]+\.[a-zA-Z0-9_-]+)/gi`, and
 * the first element of `text.match(...)` with it.
 *
 * A match is a non-empty local part over [A-Za-z0-9._-], an '@', a
 * non-empty domain part over the same class, a '.', and a non-empty tail
 * over [A-Za-z0-9_-]. JavaScript returns the leftmost match, and at that
 * start its greedy backtracking yields the longest match; `FirstMatch`
 * computes that pair of positions and `FirstMatchIsLeftmostLongest`
 * proves it against the declarative definition.
 */
module EmailScan {
  import opened Wrappers

  predicate IsAlnum(c: char) {
    ('a' <= c <= 'z') || ('A' <= c <= 'Z') || ('0' <= c <= '9')
  }

  /** [a-zA-Z0-9._-] */
  predicate IsWordChar(c: char) {
    IsAlnum(c) || c == '.' || c == '_' || c == '-'
  }

  /** [a-zA-Z0-9_-] */
  predicate IsTailChar(c: char) {
    IsAlnum(c) || c == '_' || c == '-'
  }

  // ---------------------------------------------------------------------
  // The pattern, declaratively
  // ---------------------------------------------------------------------

  /**
   * `s[i..j]` matches with the '@' at `a` and the last '.' at `q`.
   */
  ghost predicate MatchShape(s: string, i: nat, a: nat, q: nat, j: nat) {
    && i < a && a + 1 < q && q + 1 < j && j <= |s|
    && (forall k :: i <= k < a ==> IsWordChar(s[k]))
    && s[a] == '@'
    && (forall k :: a < k < q ==> IsWordChar(s[k]))
    && s[q] == '.'
    && (forall k :: q < k < j ==> IsTailChar(s[k]))
  }

  /** `s[i..j]` is a match of the pattern. */
  ghost predicate IsMatch(s: string, i: nat, j: nat) {
    exists a: nat, q: nat :: MatchShape(s, i, a, q, j)
  }

  /** Some match starts at `i`. */
  ghost predicate MatchesAt(s: string, i: nat) {
    exists j: nat :: IsMatch(s, i, j)
  }

  // ---------------------------------------------------------------------
  // The scanner
  // ---------------------------------------------------------------------

  /** End of the longest run of [a-zA-Z0-9._-] starting at `i`. */
  function WordRunEnd(s: string, i: nat): (r: nat)
    requires i <= |s|
    ensures i <= r <= |s|
    ensures forall k :: i <= k < r ==> IsWordChar(s[k])
    ensures r == |s| || !IsWordChar(s[r])
    decreases |s| - i
  {
    if i < |s| && IsWordChar(s[i]) then WordRunEnd(s, i + 1) else i
  }

  /** End of the longest run of [a-zA-Z0-9_-] starting at `i`. */
  function TailRunEnd(s: string, i: nat): (r: nat)
    requires i <= |s|
    ensures i <= r <= |s|
    ensures forall k :: i <= k < r ==> IsTailChar(s[k])
    ensures r == |s| || !IsTailChar(s[r])
    decreases |s| - i
  {
    if i < |s| && IsTailChar(s[i]) then TailRunEnd(s, i + 1) else i
  }

  /** A '.' at `q` that is followed by a tail character. */
  predicate DotBeforeTail(s: string, q: nat) {
    q + 1 < |s| && s[q] == '.' && IsTailChar(s[q + 1])
  }

  /**
   * The greatest `q` with `lo <= q < hi` and `DotBeforeTail(s, q)`: the
   * split point greedy backtracking settles on.
   */
  function LastDot(s: string, lo: nat, hi: nat): (r: Option<nat>)
    requires hi <= |s|
    ensures r.Some? ==> lo <= r.value < hi && DotBeforeTail(s, r.value)
    ensures forall q :: lo <= q < hi && DotBeforeTail(s, q) ==> r.Some? && q <= r.value
    decreases hi
  {
    if hi <= lo then None
    else if DotBeforeTail(s, hi - 1) then Some(hi - 1)
    else LastDot(s, lo, hi - 1)
  }

  /** The end of the match JavaScript finds when it tries position `i`. */
  function MatchAt(s: string, i: nat): (r: Option<nat>)
    requires i <= |s|
    ensures r.Some? ==> i < r.value <= |s|
  {
    var a := WordRunEnd(s, i);
    if a == i || a == |s| || s[a] != '@' then None
    else
      var e := WordRunEnd(s, a + 1);
      match LastDot(s, a + 2, e)
      case None => None
      case Some(q) => Some(TailRunEnd(s, q + 1))
  }

  /** Tries every start from `i` on; the first success is the leftmost match. */
  function FindFrom(s: string, i: nat): (r: Option<(nat, nat)>)
    requires i <= |s|
    ensures r.Some? ==> i <= r.value.0 < r.value.1 <= |s|
    decreases |s| - i
  {
    if i == |s| then None
    else match MatchAt(s, i)
      case Some(j) => Some((i, j))
      case None => FindFrom(s, i + 1)
  }

  /** `text.match(emailRegex)?.[0]`: the first match as a string, or null. */
  function FirstMatch(s: string): Option<string>
  {
    match FindFrom(s, 0)
    case None => None
    case Some((i, j)) => Some(s[i..j])
  }

  // ---------------------------------------------------------------------
  // Correctness of the scanner
  // ---------------------------------------------------------------------

  /** What `MatchAt` returns is a match, and no match at `i` is longer. */
  lemma MatchAtCorrect(s: string, i: nat)
    requires i <= |s|
    ensures MatchAt(s, i).Some? ==> IsMatch(s, i, MatchAt(s, i).value)
    ensures forall j: nat :: IsMatch(s, i, j) ==> MatchAt(s, i).Some? && j <= MatchAt(s, i).value
  {
    var a := WordRunEnd(s, i);
    if MatchAt(s, i).Some? {
      var e := WordRunEnd(s, a + 1);
      var q := LastDot(s, a + 2, e).value;
      var j := TailRunEnd(s, q + 1);
      assert MatchShape(s, i, a, q, j);
    }
    forall j: nat | IsMatch(s, i, j)
      ensures MatchAt(s, i).Some? && j <= MatchAt(s, i).value
    {
      var a', q' :| MatchShape(s, i, a', q', j);
      ShapeBounded(s, i, a', q', j);
    }
  }

  /** The heart of completeness: any match at `i` is found, and is no longer. */
  lemma ShapeBounded(s: string, i: nat, a': nat, q': nat, j': nat)
    requires MatchShape(s, i, a', q', j')
    ensures MatchAt(s, i).Some? && j' <= MatchAt(s, i).value
  {
    var a := WordRunEnd(s, i);
    // The '@' is no word character, so the local part ends exactly at it.
    assert a == a';
    var e := WordRunEnd(s, a + 1);
    assert IsWordChar(s[q']) && IsWordChar(s[q' + 1]);
    assert q' + 1 < e;
    assert DotBeforeTail(s, q');
    var q := LastDot(s, a + 2, e).value;
    var j := TailRunEnd(s, q + 1);
    assert MatchAt(s, i) == Some(j);
    if q' < q {
      // The tail of the given match cannot run past the later '.'.
      assert j' <= q;
    }
  }

  /** `FindFrom` returns the leftmost start at or after `i` and the longest match there. */
  lemma {:induction false} FindFromCorrect(s: string, i: nat)
    requires i <= |s|
    ensures FindFrom(s, i).None? ==> forall i': nat :: i <= i' ==> !MatchesAt(s, i')
    ensures FindFrom(s, i).Some? ==>
      var (m, n) := FindFrom(s, i).value;
      && i <= m && IsMatch(s, m, n)
      && (forall i': nat :: i <= i' < m ==> !MatchesAt(s, i'))
      && (forall n': nat :: IsMatch(s, m, n') ==> n' <= n)
    decreases |s| - i
  {
    if i == |s| {
      forall i': nat, a: nat, q: nat, j: nat | i <= i' ensures !MatchShape(s, i', a, q, j) {
      }
    } else {
      MatchAtCorrect(s, i);
      match MatchAt(s, i)
      case Some(j) =>
        assert FindFrom(s, i) == Some((i, j));
      case None =>
        assert FindFrom(s, i) == FindFrom(s, i + 1);
        FindFromCorrect(s, i + 1);
        forall i': nat | i <= i' < i + 1 ensures !MatchesAt(s, i') {
        }
    }
  }

  /**
   * The first match is the leftmost one and, at that start, the longest;
   * there is none exactly when no position of `s` starts a match.
   */
  lemma FirstMatchIsLeftmostLongest(s: string)
    ensures FirstMatch(s).None? <==> forall i: nat :: !MatchesAt(s, i)
    ensures FirstMatch(s).Some? ==>
      exists i: nat, j: nat ::
        && IsMatch(s, i, j) && FirstMatch(s).value == s[i..j]
        && (forall i': nat :: i' < i ==> !MatchesAt(s, i'))
        && (forall j': nat :: IsMatch(s, i, j') ==> j' <= j)
  {
    FindFromCorrect(s, 0);
    if FindFrom(s, 0).Some? {
      var (i, j) := FindFrom(s, 0).value;
      var a: nat, q: nat :| MatchShape(s, i, a, q, j);
      assert FirstMatch(s) == Some(s[i..j]);
      assert MatchesAt(s, i);
    }
  }

  /** A first match always contains an '@' and is non-empty. */
  lemma FirstMatchHasAt(s: string)
    ensures FirstMatch(s).Some? ==> '@' in FirstMatch(s).value
  {
    FindFromCorrect(s, 0);
    if FindFrom(s, 0).Some? {
      var (i, j) := FindFrom(s, 0).value;
      var a: nat, q: nat :| MatchShape(s, i, a, q, j);
      assert s[i..j][a - i] == '@';
    }
  }
}
