/** Worked comparisons on concrete URLs. */
module UrlExamples {
  import opened Wrappers
  import opened Text
  import opened UrlCompare

  lemma HttpSchemeFolds()
    ensures Lower("HTTP") == Lower("http")
  {
    EqualIgnoringCaseIff("HTTP", "http");
    assert CharwiseEqualIgnoringCase("HTTP", "http") by {
      assert FoldChar('H') == FoldChar('h') && FoldChar('T') == FoldChar('t') && FoldChar('P') == FoldChar('p');
    }
  }

  lemma TrailingSlashTrimmed()
    ensures PathKey("/path/") == PathKey("/path")
  {
    assert "/path/" == "/path" + "/";
    LowerConcat("/path", "/");
    assert Lower("/") == "/";
    TrimSlashesIgnoresSlashRuns([], Lower("/path"), "/");
    assert [] + Lower("/path") + "/" == Lower("/path/");
  }

  /** Scheme case and a trailing slash are ignored and a missing "www." is supplied. */
  lemma WwwSchemeAndSlashIgnored()
    ensures IsSame(Url(Some("http"), Some("example.com"), None, "/path/", None),
                   Url(Some("HTTP"), Some("www.example.com"), None, "/path", None))
  {
    var a := Url(Some("http"), Some("example.com"), None, "/path/", None);
    var b := Url(Some("HTTP"), Some("www.example.com"), None, "/path", None);
    HttpSchemeFolds();
    assert LowerOpt(a.scheme) == LowerOpt(b.scheme);
    assert "example.com"[0] != WwwPrefix[0];
    assert WithWww(a.host.value) == WithWww(b.host.value);
    TrailingSlashTrimmed();
    assert PathKey(a.path) == PathKey(b.path);
  }

  /**
   * Host letters are compared as written: "WWW.EXAMPLE.COM" does not start
   * with the lower-case prefix, becomes "www.WWW.EXAMPLE.COM", and does not
   * match "example.com".
   */
  lemma HostCaseIsSignificant()
    ensures !IsSame(Url(Some("http"), Some("example.com"), None, "/path/", None),
                    Url(Some("HTTP"), Some("WWW.EXAMPLE.COM"), None, "/path", None))
  {
    assert !(WwwPrefix <= "WWW.EXAMPLE.COM") by {
      assert "WWW.EXAMPLE.COM"[0] != WwwPrefix[0];
    }
    assert !(WwwPrefix <= "example.com") by {
      assert "example.com"[0] != WwwPrefix[0];
    }
    assert !HostAlias("example.com", "WWW.EXAMPLE.COM") by {
      assert "example.com"[0] != "WWW.EXAMPLE.COM"[0];
      assert |"example.com"| != |WwwPrefix + "WWW.EXAMPLE.COM"|;
      assert "WWW.EXAMPLE.COM"[0] != (WwwPrefix + "example.com")[0];
    }
    HostMismatch(Url(Some("http"), Some("example.com"), None, "/path/", None),
                 Url(Some("HTTP"), Some("WWW.EXAMPLE.COM"), None, "/path", None));
  }

  /** "x=1" and "X=1" match; a query on one side only does not. */
  lemma QueryExamples()
    ensures IsSame(Url(Some("http"), Some("example.com"), None, "/a", Some("x=1")),
                   Url(Some("http"), Some("example.com"), None, "/a", Some("X=1")))
    ensures !IsSame(Url(Some("http"), Some("example.com"), None, "/a", None),
                    Url(Some("http"), Some("example.com"), None, "/a", Some("x=1")))
  {
    assert Lower("x=1") == Lower("X=1");
  }

  /** Different explicit ports never match. */
  lemma PortExample()
    ensures !IsSame(Url(Some("http"), Some("example.com"), Some(8080), "/", None),
                    Url(Some("http"), Some("example.com"), Some(9090), "/", None))
  {
  }
}
