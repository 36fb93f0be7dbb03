/**
 * The JavaScript string operations the core relies on: `trim`,
 * `toLowerCase`, `startsWith`, `includes`, `indexOf`, `replace` with a
 * string pattern, `split` on one character, `join`, and the global
 * replacement of Markdown code-fence markers.
 */
module Text {
  import opened Wrappers

  // ---------------------------------------------------------------------
  // Whitespace and trimming
  // ---------------------------------------------------------------------

  /** ECMAScript WhiteSpace and LineTerminator code points, which `trim` strips. */
  predicate IsSpace(c: char) {
    c in Spaces || '\U{2000}' <= c <= '\U{200A}'
  }

  const Spaces: set<char> := {
    ' ', '\t', '\n', '\r', '\U{B}', '\U{C}', '\U{A0}', '\U{1680}',
    '\U{2028}', '\U{2029}', '\U{202F}', '\U{205F}', '\U{3000}', '\U{FEFF}'
  }

  predicate AllSpace(s: string) {
    forall k :: 0 <= k < |s| ==> IsSpace(s[k])
  }

  /** Neither the first nor the last character is whitespace. */
  predicate IsTrimmed(s: string) {
    s == [] || (!IsSpace(s[0]) && !IsSpace(s[|s| - 1]))
  }

  /** `s.trimStart()`: drops the leading whitespace, keeps the rest. */
  function TrimStart(s: string): (r: string)
    ensures |r| <= |s| && r == s[|s| - |r|..]
    ensures r == [] || !IsSpace(r[0])
    ensures AllSpace(s[..|s| - |r|])
  {
    if |s| > 0 && IsSpace(s[0]) then
      var t := TrimStart(s[1..]);
      assert s[1..][..|s| - 1 - |t|] == s[1..|s| - |t|];
      t
    else s
  }

  /** `s.trimEnd()`: drops the trailing whitespace, keeps the rest. */
  function TrimEnd(s: string): (r: string)
    ensures |r| <= |s| && r == s[..|r|]
    ensures r == [] || !IsSpace(r[|r| - 1])
    ensures AllSpace(s[|r|..])
  {
    if |s| > 0 && IsSpace(s[|s| - 1]) then
      var t := TrimEnd(s[..|s| - 1]);
      assert s[..|s| - 1][|t|..] + [s[|s| - 1]] == s[|t|..];
      t
    else s
  }

  /**
   * `s.trim()`: `TrimEnd` of `TrimStart`. The result is trimmed, no
   * longer than `s`, and empty exactly when `s` is all whitespace.
   */
  function Trim(s: string): (r: string)
    ensures IsTrimmed(r)
    ensures |r| <= |s|
    ensures r == [] <==> AllSpace(s)
  {
    var a := TrimStart(s);
    var r := TrimEnd(a);
    if a == [] then
      assert s[..|s|] == s;
      r
    else
      assert s[|s| - |a|] == a[0];
      assert r != [] by { assert !AllSpace(a[0..]); }
      r
  }

  lemma {:induction false} TrimStartOfTrimmed(s: string)
    requires s == [] || !IsSpace(s[0])
    ensures TrimStart(s) == s
  {
  }

  /** Trimming a trimmed string changes nothing, so `Trim` is idempotent. */
  lemma {:induction false} TrimIdempotent(s: string)
    ensures IsTrimmed(s) ==> Trim(s) == s
    ensures Trim(Trim(s)) == Trim(s)
  {
    var t := Trim(s);
    assert TrimStart(t) == t;
    assert TrimEnd(t) == t;
    if IsTrimmed(s) {
      assert TrimStart(s) == s;
      assert TrimEnd(s) == s;
    }
  }

  // ---------------------------------------------------------------------
  // Case
  // ---------------------------------------------------------------------

  predicate IsUpper(c: char) { 'A' <= c <= 'Z' }

  function LowerChar(c: char): char {
    if IsUpper(c) then (c as int + 32) as char else c
  }

  /** `s.toLowerCase()` restricted to ASCII letters. */
  function Lower(s: string): (r: string)
    ensures |r| == |s|
    ensures forall k :: 0 <= k < |s| ==> r[k] == LowerChar(s[k])
  {
    seq(|s|, k requires 0 <= k < |s| => LowerChar(s[k]))
  }

  predicate IsLower(s: string) {
    forall k :: 0 <= k < |s| ==> !IsUpper(s[k])
  }

  /** Lower-casing leaves no upper-case letter and is idempotent. */
  lemma LowerIsLower(s: string)
    ensures IsLower(Lower(s))
    ensures Lower(Lower(s)) == Lower(s)
  {
  }

  /** Lower-casing and trimming commute: whitespace has no case. */
  lemma {:induction false} LowerTrimCommute(s: string)
    ensures Lower(Trim(s)) == Trim(Lower(s))
  {
    LowerTrimStart(s);
    LowerTrimEnd(TrimStart(s));
  }

  /** Whitespace has no case: lower-casing neither makes nor removes it. */
  lemma SpaceHasNoCase(c: char)
    ensures IsSpace(LowerChar(c)) == IsSpace(c)
  {
  }

  lemma {:induction false} LowerTrimStart(s: string)
    ensures Lower(TrimStart(s)) == TrimStart(Lower(s))
  {
    if |s| > 0 { SpaceHasNoCase(s[0]); }
    if |s| > 0 && IsSpace(s[0]) {
      assert Lower(s)[1..] == Lower(s[1..]);
      LowerTrimStart(s[1..]);
    }
  }

  lemma {:induction false} LowerTrimEnd(s: string)
    ensures Lower(TrimEnd(s)) == TrimEnd(Lower(s))
  {
    if |s| > 0 { SpaceHasNoCase(s[|s| - 1]); }
    if |s| > 0 && IsSpace(s[|s| - 1]) {
      assert Lower(s)[..|s| - 1] == Lower(s[..|s| - 1]);
      LowerTrimEnd(s[..|s| - 1]);
    }
  }

  // ---------------------------------------------------------------------
  // Searching
  // ---------------------------------------------------------------------

  predicate StartsWith(s: string, p: string) {
    |p| <= |s| && s[..|p|] == p
  }

  lemma StartsWithAppend(p: string, q: string)
    ensures StartsWith(p + q, p)
  {
    assert (p + q)[..|p|] == p;
  }

  predicate OccursAt(s: string, p: string, i: nat) {
    i + |p| <= |s| && s[i..i + |p|] == p
  }

  /** The first index at or after `from` where `p` occurs in `s`. */
  function IndexFrom(s: string, p: string, from: nat): (r: Option<nat>)
    requires from <= |s|
    decreases |s| - from
    ensures r.Some? ==> from <= r.value && OccursAt(s, p, r.value)
    ensures forall j :: from <= j && (r.None? || j < r.value) ==> !OccursAt(s, p, j)
  {
    if OccursAt(s, p, from) then Some(from)
    else if from == |s| then None
    else IndexFrom(s, p, from + 1)
  }

  /** `s.indexOf(p)`, with -1 as None. */
  function IndexOf(s: string, p: string): (r: Option<nat>)
    ensures r.Some? ==> OccursAt(s, p, r.value)
    ensures forall j :: 0 <= j && (r.None? || j < r.value) ==> !OccursAt(s, p, j)
  {
    IndexFrom(s, p, 0)
  }

  /** `s.includes(p)`. */
  predicate Contains(s: string, p: string) {
    IndexOf(s, p).Some?
  }

  /** `s.replace(p, q)` with a string pattern: only the first occurrence. */
  function ReplaceFirst(s: string, p: string, q: string): (r: string)
    ensures IndexOf(s, p).None? ==> r == s
    ensures IndexOf(s, p).Some? ==>
      var i := IndexOf(s, p).value;
      r == s[..i] + q + s[i + |p|..]
  {
    match IndexOf(s, p)
    case None => s
    case Some(i) => s[..i] + q + s[i + |p|..]
  }

  // ---------------------------------------------------------------------
  // Splitting and joining
  // ---------------------------------------------------------------------

  /** `parts.join(sep)`. */
  function Join(parts: seq<string>, sep: string): string
  {
    if |parts| == 0 then ""
    else if |parts| == 1 then parts[0]
    else parts[0] + sep + Join(parts[1..], sep)
  }

  /** `s.split(c)` for a one-character separator: never an empty list. */
  function Split(s: string, c: char): (r: seq<string>)
    ensures |r| >= 1
    ensures forall k :: 0 <= k < |r| ==> c !in r[k]
  {
    match IndexOf(s, [c])
    case None =>
      forall k | 0 <= k < |s| ensures s[k] != c { SingleCharAt(s, c, k); }
      [s]
    case Some(i) =>
      forall k | 0 <= k < i ensures s[..i][k] != c {
        SingleCharAt(s, c, k);
      }
      [s[..i]] + Split(s[i + 1..], c)
  }



  /**
   * When `p` occurs at `j`, `indexOf` finds it there or earlier and the
   * first-occurrence replace by "" removes exactly `|p|` characters.
   */
  lemma FoundCutsOne(s: string, p: string, j: nat)
    requires j + |p| <= |s| && s[j..j + |p|] == p
    ensures IndexOf(s, p).Some? && IndexOf(s, p).value <= j
    ensures |ReplaceFirst(s, p, "")| == |s| - |p|
  {
    assert OccursAt(s, p, j);
  }

  /** Splitting and joining back with the same separator is the identity. */
  lemma {:induction false} JoinSplit(s: string, c: char)
    ensures Join(Split(s, c), [c]) == s
  {
    match IndexOf(s, [c])
    case None =>
    case Some(i) =>
      assert s[i..i + 1] == [c];
      JoinSplit(s[i + 1..], c);
      assert s == s[..i] + [c] + s[i + 1..];
  }

  /** Joining pieces that avoid the separator and splitting again gives them back. */
  lemma {:induction false} SplitJoin(parts: seq<string>, c: char)
    requires |parts| >= 1
    requires forall k :: 0 <= k < |parts| ==> c !in parts[k]
    ensures Split(Join(parts, [c]), c) == parts
  {
    var s := Join(parts, [c]);
    if |parts| == 1 {
      NoOccurrence(s, c);
    } else {
      var p := parts[0];
      var rest := Join(parts[1..], [c]);
      assert s == p + [c] + rest;
      FirstOccurrence(p, c, rest);
      SplitJoin(parts[1..], c);
      assert s[|p| + 1..] == rest;
      assert s[..|p|] == p;
    }
  }

  /** Joining two non-empty lists is joining each and putting one separator between. */
  lemma {:induction false} JoinAppend(a: seq<string>, b: seq<string>, sep: string)
    requires |a| >= 1 && |b| >= 1
    ensures Join(a + b, sep) == Join(a, sep) + sep + Join(b, sep)
  {
    if |a| == 1 {
      assert (a + b)[1..] == b;
    } else {
      assert (a + b)[1..] == a[1..] + b;
      JoinAppend(a[1..], b, sep);
    }
  }

  lemma SingleCharAt(s: string, c: char, k: nat)
    ensures OccursAt(s, [c], k) <==> k < |s| && s[k] == c
  {
    if k < |s| { assert s[k..k + 1] == [s[k]]; }
  }

  lemma NoOccurrence(s: string, c: char)
    requires c !in s
    ensures IndexOf(s, [c]).None?
  {
    forall k: nat ensures !OccursAt(s, [c], k) { SingleCharAt(s, c, k); }
  }

  lemma FirstOccurrence(p: string, c: char, rest: string)
    requires c !in p
    ensures IndexOf(p + [c] + rest, [c]) == Some(|p|)
  {
    var s := p + [c] + rest;
    SingleCharAt(s, c, |p|);
    forall k: nat | k < |p| ensures !OccursAt(s, [c], k) {
      SingleCharAt(s, c, k);
      assert s[k] == p[k];
    }
  }

  // ---------------------------------------------------------------------
  // Code fences
  // ---------------------------------------------------------------------

  const Fence := "```"
  const FenceMarkdown := "```markdown"

  /** Whether `s` starts with "```markdown", ignoring ASCII case when `ignoreCase`. */
  predicate StartsWithFenceMarkdown(s: string, ignoreCase: bool) {
    |s| >= |FenceMarkdown| &&
    (if ignoreCase then Lower(s[..|FenceMarkdown|]) == FenceMarkdown
     else s[..|FenceMarkdown|] == FenceMarkdown)
  }

  /**
   * `s.replace(/```markdown|```/g, '')` (with the `i` flag when
   * `ignoreCase`): scans left to right and at each position removes
   * "```markdown" if it starts there, else "```", else keeps one character.
   */
  function RemoveFences(s: string, ignoreCase: bool): (r: string)
    ensures |r| <= |s|
    ensures !Contains(s, "`") ==> r == s
    decreases |s|
  {
    if StartsWithFenceMarkdown(s, ignoreCase) then
      FenceMarkdownStartsWithTick(s, ignoreCase);
      RemoveFences(s[11..], ignoreCase)
    else if StartsWith(s, Fence) then
      assert s[0] == Fence[0];
      SingleCharAt(s, '`', 0);
      RemoveFences(s[3..], ignoreCase)
    else if s == [] then []
    else
      forall j: nat ensures OccursAt(s[1..], "`", j) ==> OccursAt(s, "`", j + 1) {
        if j + 1 < |s| { assert s[1..][j..j + 1] == s[j + 1..j + 2]; }
      }
      [s[0]] + RemoveFences(s[1..], ignoreCase)
  }

  /** Both alternatives of the fence pattern begin with a backtick. */
  lemma FenceMarkdownStartsWithTick(s: string, ignoreCase: bool)
    requires StartsWithFenceMarkdown(s, ignoreCase)
    ensures s[0] == '`' && OccursAt(s, "`", 0)
  {
    assert LowerChar(s[0]) == FenceMarkdown[0];
    SingleCharAt(s, '`', 0);
  }

  /** A string that does not start with a backtick is not cut at its start. */
  lemma {:induction false} KeepsFirst(t: string, ignoreCase: bool)
    requires t != [] && t[0] != '`'
    ensures RemoveFences(t, ignoreCase) != [] && RemoveFences(t, ignoreCase)[0] == t[0]
  {
    assert !StartsWith(t, Fence) by { assert |t| >= 3 ==> t[..3][0] == t[0]; }
    assert !StartsWithFenceMarkdown(t, ignoreCase) by {
      assert |t| >= 11 ==> Lower(t[..11])[0] == LowerChar(t[0]) != '`';
      assert |t| >= 11 ==> t[..11][0] == t[0];
    }
  }

  /** No three consecutive backticks anywhere in `s`. */
  ghost predicate NoFence(s: string) {
    forall i: nat :: !OccursAt(s, Fence, i)
  }

  /** A string that does not start with two backticks keeps that property. */
  lemma {:induction false} NoDoubleTickStart(t: string, ignoreCase: bool)
    requires !StartsWith(t, "``")
    ensures !StartsWith(RemoveFences(t, ignoreCase), "``")
  {
    if t != [] && t[0] != '`' {
      KeepsFirst(t, ignoreCase);
    } else if t != [] {
      var u := t[1..];
      assert u == [] || u[0] != '`' by { assert |t| >= 2 ==> t[..2] == [t[0], t[1]]; }
      assert !StartsWith(t, Fence) by { assert |t| >= 3 ==> t[..3][1] == t[1]; }
      assert !StartsWithFenceMarkdown(t, ignoreCase) by {
        assert |t| >= 11 ==> Lower(t[..11])[1] == LowerChar(t[1]);
      }
      assert RemoveFences(t, ignoreCase) == [t[0]] + RemoveFences(u, ignoreCase);
      if u != [] {
        KeepsFirst(u, ignoreCase);
      }
    }
  }

  /** Prepending one character creates no fence unless it makes three backticks. */
  lemma NoFenceCons(x: char, t: string)
    requires NoFence(t)
    requires x == '`' ==> !StartsWith(t, "``")
    ensures NoFence([x] + t)
  {
    var r := [x] + t;
    forall i: nat ensures !OccursAt(r, Fence, i) {
      if i > 0 && i + 3 <= |r| {
        assert r[i..i + 3] == t[i - 1..i + 2];
        assert !OccursAt(t, Fence, i - 1);
      } else if i == 0 && 3 <= |r| {
        assert r[..3] == [x] + t[..2];
        if x == '`' {
          assert t[..2] != "``";
          assert r[..3][1..] == t[..2];
          assert Fence[1..] == "``";
        } else {
          assert r[..3][0] != Fence[0];
        }
      }
    }
  }

  /** After the global replacement no fence marker remains. */
  lemma {:induction false} RemoveFencesLeavesNoFence(s: string, ignoreCase: bool)
    ensures NoFence(RemoveFences(s, ignoreCase))
    decreases |s|
  {
    if StartsWithFenceMarkdown(s, ignoreCase) {
      RemoveFencesLeavesNoFence(s[11..], ignoreCase);
    } else if StartsWith(s, Fence) {
      RemoveFencesLeavesNoFence(s[3..], ignoreCase);
    } else if s != [] {
      RemoveFencesLeavesNoFence(s[1..], ignoreCase);
      if s[0] == '`' {
        assert !StartsWith(s[1..], "``") by {
          assert |s| >= 3 ==> s[..3] == [s[0]] + s[1..][..2];
        }
        NoDoubleTickStart(s[1..], ignoreCase);
      }
      NoFenceCons(s[0], RemoveFences(s[1..], ignoreCase));
    }
  }

  /** A piece of a fence-free string is fence-free. */
  lemma NoFenceSlice(s: string, a: nat, b: nat)
    requires NoFence(s) && a <= b <= |s|
    ensures NoFence(s[a..b])
  {
    forall i: nat ensures !OccursAt(s[a..b], Fence, i) {
      if OccursAt(s[a..b], Fence, i) {
        var u, v := s[a..b][i..i + |Fence|], s[a + i..a + i + |Fence|];
        forall k | 0 <= k < |Fence| ensures u[k] == v[k] {
          assert u[k] == s[a + i + k];
        }
        assert u == v;
        assert OccursAt(s, Fence, a + i);
      }
    }
  }

  /** The trimmed string is the piece of `s` after its leading whitespace. */
  lemma TrimIsSlice(s: string)
    ensures var i := |s| - |TrimStart(s)|;
      i + |Trim(s)| <= |s| && Trim(s) == s[i..i + |Trim(s)|]
  {
    TrimUnfold(s);
    var a := TrimStart(s);
    var r := TrimEnd(a);
    PrefixOfSuffix(s, |s| - |a|, a, r);
  }

  lemma TrimUnfold(s: string)
    ensures Trim(s) == TrimEnd(TrimStart(s))
  {
  }

  /** A prefix `r` of the suffix `a` of `s` that starts at `i` is the slice of `s` at `i`. */
  lemma PrefixOfSuffix(s: string, i: nat, a: string, r: string)
    requires i <= |s| && a == s[i..] && |r| <= |a| && r == a[..|r|]
    ensures i + |r| <= |s| && r == s[i..i + |r|]
  {
    var v := s[i..i + |r|];
    forall k | 0 <= k < |r| ensures r[k] == v[k] {
      assert r[k] == a[k] == s[i + k];
    }
  }

  /** Trimming removes characters and adds none. */
  lemma TrimKeepsOut(s: string, c: char)
    requires c !in s
    ensures c !in Trim(s)
  {
    TrimIsSlice(s);
  }

  /** Trimming a fence-free string leaves it fence-free. */
  lemma NoFenceTrim(s: string)
    requires NoFence(s)
    ensures NoFence(Trim(s))
  {
    var r, i := Trim(s), |s| - |TrimStart(s)|;
    TrimIsSlice(s);
    NoFenceSlice(s, i, i + |r|);
    assert r == s[i..i + |r|];
  }
}
