/**
 * `URL.isSameWithURL(_:)`: a loose equivalence of two URLs. The URL is given
 * by the components Foundation's parser extracts from it; parsing itself is
 * outside this model.
 */
module UrlCompare {
  import opened Wrappers
  import opened Text

  /** The components of a URL that the comparison reads. `path` is always present (possibly empty). */
  datatype Url = Url(
    scheme: Option<string>,
    host: Option<string>,
    port: Option<int>,
    path: string,
    query: Option<string>)

  const WwwPrefix: string := "www."

  /** Optional chaining `x?.lowercased()`: absent stays absent. */
  function LowerOpt(x: Option<string>): (r: Option<string>)
    ensures r.Some? <==> x.Some?
    ensures r.Some? ==> |r.value| == |x.value|
  {
    match x
    case None => None
    case Some(s) => Some(Lower(s))
  }

  /** Host normalisation: prefix "www." unless the host already starts with it. */
  function WithWww(host: string): (r: string)
    ensures WwwPrefix <= r
  {
    if WwwPrefix <= host then host else WwwPrefix + host
  }

  /**
   * The path as compared: lower-cased, then stripped of '/' on both ends.
   * The key has no '/' at either end, and the two steps may be taken in
   * either order.
   */
  function PathKey(path: string): (r: string)
    ensures NoOuterSlash(r)
    ensures r == Lower(TrimSlashes(path))
  {
    LowerTrimCommute(path);
    TrimSlashes(Lower(path))
  }

  /** `self.isSameWithURL(other)`, check by check in the source's order. */
  function IsSame(a: Url, b: Url): (same: bool)
    ensures same ==> a.port == b.port
    ensures same ==> (a.scheme.Some? <==> b.scheme.Some?)
    ensures same ==> (a.query.Some? <==> b.query.Some?)
  {
    if a == b then true
    else if LowerOpt(a.scheme) != LowerOpt(b.scheme) then false
    else if a.host.Some? && b.host.Some? && WithWww(a.host.value) != WithWww(b.host.value) then false
    else if PathKey(a.path) != PathKey(b.path) then false
    else if a.port != b.port then false
    else if LowerOpt(a.query) != LowerOpt(b.query) then false
    else true
  }

  // ---------------------------------------------------------------------------
  // Reference definitions, stated without the source's normalising functions
  // ---------------------------------------------------------------------------

  /** Two optional strings match ignoring case: both absent, or both present and equal letter by letter up to folding. */
  ghost predicate OptMatchIgnoringCase(x: Option<string>, y: Option<string>) {
    || (x.None? && y.None?)
    || (x.Some? && y.Some? && CharwiseEqualIgnoringCase(x.value, y.value))
  }

  /** Two hosts name the same site: equal, or one is the other with a "www." put in front of it. */
  ghost predicate HostAlias(h1: string, h2: string) {
    || h1 == h2
    || (h1 == WwwPrefix + h2 && !(WwwPrefix <= h2))
    || (h2 == WwwPrefix + h1 && !(WwwPrefix <= h1))
  }

  /** The equivalence the comparison decides, component by component. */
  ghost predicate Equivalent(a: Url, b: Url) {
    && OptMatchIgnoringCase(a.scheme, b.scheme)
    && (a.host.Some? && b.host.Some? ==> HostAlias(a.host.value, b.host.value))
    && CharwiseEqualIgnoringCase(TrimSlashes(a.path), TrimSlashes(b.path))
    && a.port == b.port
    && OptMatchIgnoringCase(a.query, b.query)
  }

  // ---------------------------------------------------------------------------
  // Each normalisation against its reference
  // ---------------------------------------------------------------------------

  lemma LowerOptIff(x: Option<string>, y: Option<string>)
    ensures LowerOpt(x) == LowerOpt(y) <==> OptMatchIgnoringCase(x, y)
  {
    if x.Some? && y.Some? {
      EqualIgnoringCaseIff(x.value, y.value);
    }
  }

  /** The "www." normalisation identifies exactly the host aliases. */
  lemma WithWwwIff(h1: string, h2: string)
    ensures WithWww(h1) == WithWww(h2) <==> HostAlias(h1, h2)
  {
    var p1, p2 := WwwPrefix <= h1, WwwPrefix <= h2;
    if !p1 {
      assert (WwwPrefix + h1)[..4] == WwwPrefix;
      assert (WwwPrefix + h1)[4..] == h1;
    }
    if !p2 {
      assert (WwwPrefix + h2)[..4] == WwwPrefix;
      assert (WwwPrefix + h2)[4..] == h2;
    }
  }

  lemma PathKeyIff(p1: string, p2: string)
    ensures PathKey(p1) == PathKey(p2) <==> CharwiseEqualIgnoringCase(TrimSlashes(p1), TrimSlashes(p2))
  {
    LowerTrimCommute(p1);
    LowerTrimCommute(p2);
    EqualIgnoringCaseIff(TrimSlashes(p1), TrimSlashes(p2));
  }

  // ---------------------------------------------------------------------------
  // Properties of the comparison
  // ---------------------------------------------------------------------------

  /**
   * The comparison decides exactly the component-wise equivalence. In
   * particular the leading identity short-circuit never changes the answer:
   * identical URLs pass every later check anyway.
   */
  lemma IsSameIffEquivalent(a: Url, b: Url)
    ensures IsSame(a, b) <==> Equivalent(a, b)
  {
    LowerOptIff(a.scheme, b.scheme);
    LowerOptIff(a.query, b.query);
    PathKeyIff(a.path, b.path);
    if a.host.Some? && b.host.Some? {
      WithWwwIff(a.host.value, b.host.value);
    }
  }

  lemma IsSameReflexive(u: Url)
    ensures IsSame(u, u)
  {
  }

  /** Every check is symmetric, including the "both hosts present" guard. */
  lemma IsSameSymmetric(a: Url, b: Url)
    ensures IsSame(a, b) == IsSame(b, a)
  {
    IsSameIffEquivalent(a, b);
    IsSameIffEquivalent(b, a);
  }

  /** Schemes that differ after folding, or a scheme on one side only, make the URLs different. */
  lemma SchemeMismatch(a: Url, b: Url)
    requires !OptMatchIgnoringCase(a.scheme, b.scheme)
    ensures !IsSame(a, b)
  {
    IsSameIffEquivalent(a, b);
  }

  /** A host and the same host with "www." in front are the same host. */
  lemma WwwAlias(u: Url, h: string)
    requires !(WwwPrefix <= h)
    ensures IsSame(u.(host := Some(h)), u.(host := Some(WwwPrefix + h)))
  {
    WithWwwIff(h, WwwPrefix + h);
  }

  /** Two present hosts that are not aliases make the URLs different. */
  lemma HostMismatch(a: Url, b: Url)
    requires a.host.Some? && b.host.Some?
    requires !HostAlias(a.host.value, b.host.value)
    ensures !IsSame(a, b)
  {
    IsSameIffEquivalent(a, b);
  }

  /** When one side has no host, the other side's host cannot change the outcome. */
  lemma AbsentHostNeverDecides(a: Url, b: Url, h: Option<string>)
    requires a.host.None?
    ensures IsSame(a, b) == IsSame(a, b.(host := h))
  {
    IsSameIffEquivalent(a, b);
    IsSameIffEquivalent(a, b.(host := h));
  }

  /** Paths that differ only in letter case and in extra '/' at either end, on either side, compare equal. */
  lemma PathCaseAndOuterSlashes(u: Url, p: string, q: string, before1: nat, after1: nat, before2: nat, after2: nat)
    requires EqualIgnoringCase(p, q)
    ensures IsSame(u.(path := Slashes(before1) + p + Slashes(after1)),
                   u.(path := Slashes(before2) + q + Slashes(after2)))
  {
    var a := u.(path := Slashes(before1) + p + Slashes(after1));
    var b := u.(path := Slashes(before2) + q + Slashes(after2));
    TrimSlashesIgnoresPadding(p, before1, after1);
    TrimSlashesIgnoresPadding(q, before2, after2);
    LowerTrimCommute(p);
    LowerTrimCommute(q);
    EqualIgnoringCaseIff(TrimSlashes(p), TrimSlashes(q));
    IsSameIffEquivalent(a, b);
  }

  /** Paths whose trimmed forms differ beyond letter case make the URLs different. */
  lemma PathMismatch(a: Url, b: Url)
    requires !CharwiseEqualIgnoringCase(TrimSlashes(a.path), TrimSlashes(b.path))
    ensures !IsSame(a, b)
  {
    IsSameIffEquivalent(a, b);
  }

  /** Slashes inside a path are significant: "a/b" and "a//b" differ. */
  lemma InteriorSlashesMatter(u: Url)
    ensures !IsSame(u.(path := "a/b"), u.(path := "a//b"))
  {
    TrimSlashesKeepsClean("a/b");
    TrimSlashesKeepsClean("a//b");
    PathMismatch(u.(path := "a/b"), u.(path := "a//b"));
  }

  /** Any port difference, including a port on one side only, makes the URLs different. */
  lemma PortMismatch(a: Url, b: Url)
    requires a.port != b.port
    ensures !IsSame(a, b)
  {
  }

  /** Queries are compared ignoring case; a query on one side only makes the URLs different. */
  lemma QueryMismatch(a: Url, b: Url)
    requires !OptMatchIgnoringCase(a.query, b.query)
    ensures !IsSame(a, b)
  {
    IsSameIffEquivalent(a, b);
  }

  /** Changing only the case of the query keeps two URLs the same. */
  lemma QueryCaseIgnored(u: Url, q1: string, q2: string)
    requires EqualIgnoringCase(q1, q2)
    ensures IsSame(u.(query := Some(q1)), u.(query := Some(q2)))
  {
  }
}
