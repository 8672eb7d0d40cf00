/** Python's `s.split(sep)` and list indexing with `[-1]` and `[0]`, the
    operations the identifier extractor applies, together with `sub in s`,
    `s.find(sub, start)`, `s.rfind(sub)` and `sep.join(pieces)`, which serve
    to specify and prove what `split(...)[-1]` and `split(...)[0]` yield.
    Strings are sequences of characters. */
module PyStr {

  datatype Option<+T> = None | Some(value: T)

  /** `sub` occurs in `s` starting at index `i`. */
  predicate OccursAt(s: string, sub: string, i: nat) {
    i + |sub| <= |s| && s[i..i + |sub|] == sub
  }

  /** Python's `sub in s`. */
  predicate Contains(s: string, sub: string) {
    exists i: nat | i <= |s| :: OccursAt(s, sub, i)
  }

  /** Python's `s.find(sub, start)`: the least index at or after `start` where
      `sub` occurs, or `None` (Python's -1). */
  function Find(s: string, sub: string, start: nat): (r: Option<nat>)
    decreases |s| - start
    ensures r.Some? ==> start <= r.value && OccursAt(s, sub, r.value)
  {
    if start + |sub| > |s| then None
    else if OccursAt(s, sub, start) then Some(start)
    else Find(s, sub, start + 1)
  }

  /** Find returns the FIRST occurrence: none lies between `start` and its
      result, and None means none from `start` on. */
  lemma {:induction false} FindIsFirst(s: string, sub: string, start: nat, j: nat)
    requires start <= j
    requires Find(s, sub, start).None? || j < Find(s, sub, start).value
    decreases |s| - start
    ensures !OccursAt(s, sub, j)
  {
    if start + |sub| <= |s| && !OccursAt(s, sub, start) && start < j {
      FindIsFirst(s, sub, start + 1, j);
    }
  }

  /** The greatest index below `bound` where `sub` occurs, or `None`. */
  function FindBefore(s: string, sub: string, bound: nat): (r: Option<nat>)
    ensures r.Some? ==> r.value < bound && OccursAt(s, sub, r.value)
  {
    if bound == 0 then None
    else if OccursAt(s, sub, bound - 1) then Some(bound - 1)
    else FindBefore(s, sub, bound - 1)
  }

  /** FindBefore returns the LAST occurrence below `bound`: none lies between
      its result and `bound`, and None means none below `bound`. */
  lemma {:induction false} FindBeforeIsLast(s: string, sub: string, bound: nat, j: nat)
    requires j < bound
    requires FindBefore(s, sub, bound).None? || FindBefore(s, sub, bound).value < j
    ensures !OccursAt(s, sub, j)
  {
    if j < bound - 1 {
      FindBeforeIsLast(s, sub, bound - 1, j);
    }
  }

  /** Python's `s.rfind(sub)`: the greatest index where `sub` occurs, or `None`. */
  function RFind(s: string, sub: string): (r: Option<nat>)
    ensures r.Some? ==> OccursAt(s, sub, r.value)
  {
    FindBefore(s, sub, |s| + 1)
  }

  /** RFind returns the LAST occurrence: none lies after its result, and None
      means none anywhere. */
  lemma RFindIsLast(s: string, sub: string, j: nat)
    requires RFind(s, sub).None? || RFind(s, sub).value < j
    ensures !OccursAt(s, sub, j)
  {
    if j <= |s| {
      FindBeforeIsLast(s, sub, |s| + 1, j);
    }
  }

  /** Python's `s.split(sep)` for a non-empty separator (an empty one raises
      ValueError): cut at every occurrence of `sep`, scanning left to right. */
  function Split(s: string, sep: string): (pieces: seq<string>)
    requires sep != ""
    decreases |s|
    ensures |pieces| >= 1
  {
    match Find(s, sep, 0)
    case None => [s]
    case Some(i) => [s[..i]] + Split(s[i + |sep|..], sep)
  }

  /** A split yields a single piece exactly when the separator does not occur. */
  lemma SplitSinglePiece(s: string, sep: string)
    requires sep != ""
    ensures |Split(s, sep)| == 1 <==> Find(s, sep, 0).None?
  {
    match Find(s, sep, 0)
    case None =>
    case Some(i) =>
      SplitAtFirst(s, sep, i);
  }

  /** Python's `sep.join(pieces)`. */
  function Join(sep: string, pieces: seq<string>): string
  {
    if |pieces| == 0 then ""
    else if |pieces| == 1 then pieces[0]
    else pieces[0] + sep + Join(sep, pieces[1..])
  }

  /** Python's `xs[-1]`: the element the list ends with. */
  function Last<T>(xs: seq<T>): (x: T)
    requires |xs| > 0
    ensures xs == xs[..|xs| - 1] + [x]
  {
    xs[|xs| - 1]
  }

  /** An occurrence inside a slice `s[k..]` is an occurrence in `s`, shifted by `k`. */
  lemma OccursInSuffix(s: string, sub: string, k: nat, j: nat)
    requires k <= |s|
    ensures OccursAt(s[k..], sub, j) <==> OccursAt(s, sub, k + j)
  {
    if k + j + |sub| <= |s| {
      assert s[k..][j..j + |sub|] == s[k + j..k + j + |sub|];
    }
  }

  /** An occurrence inside a prefix `s[..k]` is an occurrence in `s`. */
  lemma OccursInPrefix(s: string, sub: string, k: nat, j: nat)
    requires k <= |s|
    requires OccursAt(s[..k], sub, j)
    ensures OccursAt(s, sub, j) && j + |sub| <= k
  {
    assert s[..k][j..j + |sub|] == s[j..j + |sub|];
  }

  /** A one-character string occurs exactly where that character does. */
  lemma ContainsChar(s: string, c: char)
    ensures Contains(s, [c]) <==> c in s
  {
    if c in s {
      var i :| 0 <= i < |s| && s[i] == c;
      assert OccursAt(s, [c], i);
    }
    if Contains(s, [c]) {
      var i: nat :| i <= |s| && OccursAt(s, [c], i);
      assert s[i..i + 1][0] == c;
    }
  }

  /** Searching a suffix `s[k..]` finds what searching `s` from `k` finds, shifted. */
  lemma {:induction false} FindInSuffix(s: string, sub: string, k: nat, m: nat)
    requires k <= |s|
    decreases |s| - k - m
    ensures Find(s, sub, k + m).None? ==> Find(s[k..], sub, m).None?
    ensures Find(s, sub, k + m).Some? ==> Find(s[k..], sub, m) == Some(Find(s, sub, k + m).value - k)
  {
    if m + |sub| <= |s| - k {
      assert s[k..][m..m + |sub|] == s[k + m..k + m + |sub|];
      if s[k + m..k + m + |sub|] != sub {
        FindInSuffix(s, sub, k, m + 1);
      }
    }
  }

  /** A string is the concatenation of its slices around two cut points. */
  lemma CutInThree(s: string, i: nat, j: nat)
    requires i <= j <= |s|
    ensures s == s[..i] + s[i..j] + s[j..]
  {
    assert s == s[..j] + s[j..];
    assert s[..j] == s[..i] + s[i..j];
  }

  /** Round trip: joining the pieces of a split with its separator gives back the string. */
  lemma {:induction false} SplitJoin(s: string, sep: string)
    requires sep != ""
    decreases |s|
    ensures Join(sep, Split(s, sep)) == s
  {
    match Find(s, sep, 0)
    case None =>
    case Some(i) =>
      var rest := Split(s[i + |sep|..], sep);
      SplitJoin(s[i + |sep|..], sep);
      assert Split(s, sep) == [s[..i]] + rest;
      assert ([s[..i]] + rest)[1..] == rest;
      assert Join(sep, Split(s, sep)) == s[..i] + sep + s[i + |sep|..];
      CutInThree(s, i, i + |sep|);
  }

  /** No piece of a split contains the separator. */
  lemma {:induction false} SplitPiecesLackSeparator(s: string, sep: string, k: nat)
    requires sep != ""
    requires k < |Split(s, sep)|
    decreases |s|
    ensures !Contains(Split(s, sep)[k], sep)
  {
    match Find(s, sep, 0)
    case None =>
      if Contains(s, sep) {
        var j: nat :| j <= |s| && OccursAt(s, sep, j);
        FindIsFirst(s, sep, 0, j);
      }
    case Some(i) =>
      if k == 0 {
        if Contains(s[..i], sep) {
          var j: nat :| j <= |s[..i]| && OccursAt(s[..i], sep, j);
          OccursInPrefix(s, sep, i, j);
          FindIsFirst(s, sep, 0, j);
        }
      } else {
        SplitPiecesLackSeparator(s[i + |sep|..], sep, k - 1);
      }
  }

  /** The first piece of a split is the text before the first separator, or
      the whole string when there is none. */
  lemma SplitFirstPiece(s: string, sep: string)
    requires sep != ""
    ensures Find(s, sep, 0).None? ==> Split(s, sep)[0] == s
    ensures Find(s, sep, 0).Some? ==> Split(s, sep)[0] == s[..Find(s, sep, 0).value]
  {
  }

  /** The last piece of a split is a suffix of `s` that is either the whole
      of `s` or directly preceded by a separator. (That it holds no separator
      is SplitPiecesLackSeparator.) */
  lemma {:induction false} SplitLastPiece(s: string, sep: string)
    requires sep != ""
    decreases |s|
    ensures IsLastSegment(s, sep, Last(Split(s, sep)))
  {
    match Find(s, sep, 0)
    case None =>
    case Some(i) =>
      SplitLastPiece(s[i + |sep|..], sep);
      SplitLastAfterFirst(s, sep, i);
      LastSegmentExtends(s, sep, i, Last(Split(s[i + |sep|..], sep)));
  }

  /** `p` is a suffix of `s` that is either all of `s` or directly preceded by `sep`. */
  predicate IsLastSegment(s: string, sep: string, p: string) {
    && |p| <= |s|
    && p == s[|s| - |p|..]
    && (|p| == |s| || (|p| + |sep| <= |s| && OccursAt(s, sep, |s| - |p| - |sep|)))
  }

  /** Helper for SplitLastPiece: the first separator does not change the last piece. */
  lemma SplitLastAfterFirst(s: string, sep: string, i: nat)
    requires sep != ""
    requires Find(s, sep, 0) == Some(i)
    ensures Last(Split(s, sep)) == Last(Split(s[i + |sep|..], sep))
  {
    var rest := Split(s[i + |sep|..], sep);
    SplitAtFirst(s, sep, i);
    LastOfCons(s[..i], rest);
  }

  /** One step of Split: the text before the first separator, then the split of the rest. */
  lemma SplitAtFirst(s: string, sep: string, i: nat)
    requires sep != ""
    requires Find(s, sep, 0) == Some(i)
    ensures Split(s, sep) == [s[..i]] + Split(s[i + |sep|..], sep)
  {
  }

  /** Putting an element in front does not change the last element. */
  lemma LastOfCons<T>(x: T, xs: seq<T>)
    requires |xs| > 0
    ensures Last([x] + xs) == Last(xs)
  {
  }

  /** Helper for SplitLastPiece: a last segment after a separator is a last segment of the whole. */
  lemma LastSegmentExtends(s: string, sep: string, i: nat, p: string)
    requires OccursAt(s, sep, i)
    requires IsLastSegment(s[i + |sep|..], sep, p)
    ensures IsLastSegment(s, sep, p)
  {
    var t := s[i + |sep|..];
    assert t[|t| - |p|..] == s[|s| - |p|..];
    if |p| < |t| {
      OccursInSuffix(s, sep, i + |sep|, |t| - |p| - |sep|);
    }
  }
}
