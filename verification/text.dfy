/**
 * The two Foundation string operations the URL comparison relies on:
 * `lowercased()`, modelled as ASCII case folding, and
 * `trimmingCharacters(in: "/")`, which strips every '/' from both ends.
 */
module Text {

  /** Folds an ASCII upper-case letter to lower case; every other character is kept. */
  function FoldChar(c: char): (d: char)
    ensures !('A' <= d <= 'Z')
    ensures d == '/' <==> c == '/'
  {
    if 'A' <= c <= 'Z' then (c as int - 'A' as int + 'a' as int) as char else c
  }

  /** `lowercased()`: folds every character of `s`. */
  function Lower(s: string): (r: string)
    ensures |r| == |s|
    ensures forall i :: 0 <= i < |s| ==> r[i] == FoldChar(s[i])
  {
    if s == [] then [] else [FoldChar(s[0])] + Lower(s[1..])
  }

  /** Case-insensitive equality as the source computes it: lower-case both, compare. */
  predicate EqualIgnoringCase(s: string, t: string) {
    Lower(s) == Lower(t)
  }

  /** Reference definition of case-insensitive equality: same length, equal letter by letter up to folding. */
  ghost predicate CharwiseEqualIgnoringCase(s: string, t: string) {
    && |s| == |t|
    && forall i :: 0 <= i < |s| ==> FoldChar(s[i]) == FoldChar(t[i])
  }

  lemma EqualIgnoringCaseIff(s: string, t: string)
    ensures EqualIgnoringCase(s, t) <==> CharwiseEqualIgnoringCase(s, t)
  {
    if CharwiseEqualIgnoringCase(s, t) {
      assert forall i :: 0 <= i < |s| ==> Lower(s)[i] == Lower(t)[i];
    }
  }

  /** Folding twice is folding once. */
  lemma {:induction false} LowerIdempotent(s: string)
    ensures Lower(Lower(s)) == Lower(s)
  {
    var l := Lower(s);
    assert forall i :: 0 <= i < |l| ==> Lower(l)[i] == l[i];
  }

  /** Folding works letter by letter, so it distributes over concatenation. */
  lemma LowerConcat(s: string, t: string)
    ensures Lower(s + t) == Lower(s) + Lower(t)
  {
    assert forall i :: 0 <= i < |s + t| ==> Lower(s + t)[i] == (Lower(s) + Lower(t))[i];
  }

  lemma LowerPrefix(s: string, i: nat)
    requires i <= |s|
    ensures Lower(s[..i]) == Lower(s)[..i]
  {
    var l, m := Lower(s[..i]), Lower(s)[..i];
    forall k | 0 <= k < i
      ensures l[k] == m[k]
    {
      assert s[..i][k] == s[k];
    }
  }

  lemma LowerSuffix(s: string, j: nat)
    requires j <= |s|
    ensures Lower(s[j..]) == Lower(s)[j..]
  {
    var l, m := Lower(s[j..]), Lower(s)[j..];
    forall k | 0 <= k < |s| - j
      ensures l[k] == m[k]
    {
      assert s[j..][k] == s[j + k];
    }
  }

  /** Folding commutes with taking a slice. */
  lemma LowerSlice(s: string, i: nat, j: nat)
    requires i <= j <= |s|
    ensures Lower(s[i..j]) == Lower(s)[i..j]
  {
    LowerPrefix(s, j);
    LowerSuffix(s[..j], i);
    assert s[..j][i..] == s[i..j];
    assert Lower(s)[..j][i..] == Lower(s)[i..j];
  }

  predicate AllSlashes(s: string) {
    forall i :: 0 <= i < |s| ==> s[i] == '/'
  }

  /** Neither the first nor the last character is '/'. */
  predicate NoOuterSlash(s: string) {
    s == [] || (s[0] != '/' && s[|s| - 1] != '/')
  }

  lemma AllSlashesConcat(s: string, t: string)
    requires AllSlashes(s) && AllSlashes(t)
    ensures AllSlashes(s + t)
  {
  }

  lemma AllSlashesJoin(s: string, i: nat)
    requires i <= |s| && AllSlashes(s[..i]) && AllSlashes(s[i..])
    ensures AllSlashes(s)
  {
    assert s == s[..i] + s[i..];
    AllSlashesConcat(s[..i], s[i..]);
  }

  /** Folding leaves slashes alone. */
  lemma LowerKeepsSlashes(s: string)
    ensures AllSlashes(Lower(s)) <==> AllSlashes(s)
    ensures NoOuterSlash(Lower(s)) <==> NoOuterSlash(s)
  {
  }

  /** Slices of a string placed between two others. */
  lemma SliceOfPadded(p: string, s: string, q: string, i: nat, j: nat)
    requires i <= j <= |s|
    ensures (p + s + q)[..|p| + i] == p + s[..i]
    ensures (p + s + q)[|p| + j..] == s[j..] + q
    ensures (p + s + q)[|p| + i..|p| + j] == s[i..j]
  {
  }

  /** `n` slashes. */
  function Slashes(n: nat): (r: string)
    ensures |r| == n && AllSlashes(r)
  {
    seq(n, _ => '/')
  }

  /** Drops the leading run of '/'. */
  function TrimLeadingSlashes(s: string): string {
    if s != [] && s[0] == '/' then TrimLeadingSlashes(s[1..]) else s
  }

  /** Drops the trailing run of '/'. */
  function TrimTrailingSlashes(s: string): string {
    if s != [] && s[|s| - 1] == '/' then TrimTrailingSlashes(s[..|s| - 1]) else s
  }

  /** The front trim only shortens, and stops at a character other than '/'. */
  lemma {:induction false} TrimLeadingStops(s: string)
    ensures |TrimLeadingSlashes(s)| <= |s|
    ensures TrimLeadingSlashes(s) == [] || TrimLeadingSlashes(s)[0] != '/'
  {
    if s != [] && s[0] == '/' {
      TrimLeadingStops(s[1..]);
    }
  }

  /** The back trim keeps a prefix, and stops at a character other than '/'. */
  lemma {:induction false} TrimTrailingStops(s: string)
    ensures TrimTrailingSlashes(s) <= s
    ensures TrimTrailingSlashes(s) == [] || TrimTrailingSlashes(s)[|TrimTrailingSlashes(s)| - 1] != '/'
    decreases |s|
  {
    if s != [] && s[|s| - 1] == '/' {
      TrimTrailingStops(s[..|s| - 1]);
    }
  }

  /** `trimmingCharacters(in: CharacterSet(charactersIn: "/"))`. */
  function TrimSlashes(s: string): (r: string)
    ensures |r| <= |s|
    ensures NoOuterSlash(r)
  {
    var l := TrimLeadingSlashes(s);
    TrimLeadingStops(s);
    TrimTrailingStops(l);
    TrimTrailingSlashes(l)
  }

  /** Trimming the front cuts a run of slashes and stops at the first other character. */
  lemma {:induction false} TrimLeadingShape(s: string) returns (i: nat)
    ensures i <= |s| && TrimLeadingSlashes(s) == s[i..]
    ensures AllSlashes(s[..i])
    ensures i == |s| || s[i] != '/'
  {
    if s != [] && s[0] == '/' {
      var k := TrimLeadingShape(s[1..]);
      i := k + 1;
      assert s[1..][k..] == s[i..];
      assert s[..i] == [s[0]] + s[1..][..k];
    } else {
      i := 0;
    }
  }

  /** Trimming the back cuts a run of slashes and stops at the last other character. */
  lemma {:induction false} TrimTrailingShape(s: string) returns (j: nat)
    ensures j <= |s| && TrimTrailingSlashes(s) == s[..j]
    ensures AllSlashes(s[j..])
    ensures j == 0 || s[j - 1] != '/'
    decreases |s|
  {
    if s != [] && s[|s| - 1] == '/' {
      var t := s[..|s| - 1];
      j := TrimTrailingShape(t);
      assert t[..j] == s[..j];
      assert s[j..] == t[j..] + [s[|s| - 1]];
    } else {
      j := |s|;
    }
  }

  /** The trimmed string is a slice of the input with only slashes cut off on either side. */
  lemma TrimSlashesIsSlice(s: string) returns (i: nat, j: nat)
    ensures i <= j <= |s|
    ensures TrimSlashes(s) == s[i..j]
    ensures AllSlashes(s[..i]) && AllSlashes(s[j..])
    ensures NoOuterSlash(s[i..j])
  {
    i := TrimLeadingShape(s);
    var l := s[i..];
    var k := TrimTrailingShape(l);
    j := i + k;
    assert s[j..] == l[k..];
    assert s[i..j] == l[..k];
    if k > 0 {
      assert s[i] == l[0] && s[j - 1] == l[k - 1];
    }
  }

  lemma {:induction false} TrimLeadingUnique(s: string, i: nat)
    requires i <= |s| && AllSlashes(s[..i])
    requires i == |s| || s[i] != '/'
    ensures TrimLeadingSlashes(s) == s[i..]
    decreases i
  {
    if i > 0 {
      assert s[0] == s[..i][0];
      assert s[1..][..i - 1] == s[1..i];
      TrimLeadingUnique(s[1..], i - 1);
      assert s[1..][i - 1..] == s[i..];
    }
  }

  lemma {:induction false} TrimTrailingUnique(s: string, j: nat)
    requires j <= |s| && AllSlashes(s[j..])
    requires j == 0 || s[j - 1] != '/'
    ensures TrimTrailingSlashes(s) == s[..j]
    decreases |s| - j
  {
    if j < |s| {
      assert s[|s| - 1] == s[j..][|s| - 1 - j];
      var t := s[..|s| - 1];
      assert t[j..] == s[j..|s| - 1];
      TrimTrailingUnique(t, j);
      assert t[..j] == s[..j];
    }
  }

  /** A string of slashes only trims to nothing. */
  lemma TrimAllSlashes(s: string)
    requires AllSlashes(s)
    ensures TrimSlashes(s) == []
  {
    assert s[..|s|] == s;
    TrimLeadingUnique(s, |s|);
  }

  lemma TrimSlashesUniqueNonEmpty(s: string, i: nat, j: nat)
    requires i < j <= |s|
    requires AllSlashes(s[..i]) && AllSlashes(s[j..])
    requires s[i] != '/' && s[j - 1] != '/'
    ensures TrimSlashes(s) == s[i..j]
  {
    TrimLeadingUnique(s, i);
    var l := s[i..];
    assert l[j - i..] == s[j..];
    TrimTrailingUnique(l, j - i);
    assert l[..j - i] == s[i..j];
  }

  /**
   * Trimming is characterised by its result alone: any slice that has only
   * slashes outside it and no slash at either of its own ends is the result.
   */
  lemma TrimSlashesUnique(s: string, i: nat, j: nat)
    requires i <= j <= |s|
    requires AllSlashes(s[..i]) && AllSlashes(s[j..])
    requires NoOuterSlash(s[i..j])
    ensures TrimSlashes(s) == s[i..j]
  {
    if i < j {
      assert s[i] == s[i..j][0] && s[j - 1] == s[i..j][j - i - 1];
      TrimSlashesUniqueNonEmpty(s, i, j);
    } else {
      AllSlashesJoin(s, i);
      TrimAllSlashes(s);
    }
  }

  /** A string with no slash at either end is left alone, so interior slashes survive trimming. */
  lemma TrimSlashesKeepsClean(s: string)
    requires NoOuterSlash(s)
    ensures TrimSlashes(s) == s
  {
    assert s[..0] == [] && s[|s|..] == [] && s[0..|s|] == s;
    TrimSlashesUnique(s, 0, |s|);
  }

  lemma TrimSlashesIdempotent(s: string)
    ensures TrimSlashes(TrimSlashes(s)) == TrimSlashes(s)
  {
    var i, j := TrimSlashesIsSlice(s);
    TrimSlashesKeepsClean(TrimSlashes(s));
  }

  lemma TrimSlashesIgnoresSlashRuns(p: string, s: string, q: string)
    requires AllSlashes(p) && AllSlashes(q)
    ensures TrimSlashes(p + s + q) == TrimSlashes(s)
  {
    var i, j := TrimSlashesIsSlice(s);
    SliceOfPadded(p, s, q, i, j);
    AllSlashesConcat(p, s[..i]);
    AllSlashesConcat(s[j..], q);
    TrimSlashesUnique(p + s + q, |p| + i, |p| + j);
  }

  /** Any number of extra slashes on either side is trimmed away. */
  lemma TrimSlashesIgnoresPadding(s: string, before: nat, after: nat)
    ensures TrimSlashes(Slashes(before) + s + Slashes(after)) == TrimSlashes(s)
  {
    TrimSlashesIgnoresSlashRuns(Slashes(before), s, Slashes(after));
  }

  /** Lower-casing and trimming slashes can be done in either order. */
  lemma LowerTrimCommute(s: string)
    ensures TrimSlashes(Lower(s)) == Lower(TrimSlashes(s))
  {
    var i, j := TrimSlashesIsSlice(s);
    var l := Lower(s);
    LowerPrefix(s, i);
    LowerKeepsSlashes(s[..i]);
    LowerSuffix(s, j);
    LowerKeepsSlashes(s[j..]);
    LowerSlice(s, i, j);
    LowerKeepsSlashes(s[i..j]);
    TrimSlashesUnique(l, i, j);
  }
}
