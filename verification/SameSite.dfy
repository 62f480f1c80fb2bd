/** Which hosts count as the operator's own: comparison by the last two labels. */
module SameSite {
  import opened Options
  import opened Text

  predicate DigitOrDot(c: char) {
    c == '.' || '0' <= c <= '9'
  }

  predicate AllDigitsOrDots(s: string) {
    s != "" && forall i :: 0 <= i < |s| ==> DigitOrDot(s[i])
  }

  function SsoCookieDomain(host: string): Option<string> {
    if host == "localhost" || AllDigitsOrDots(host) || ':' in host then None
    else
      var parts := Split(host, '.');
      if |parts| < 2 then None else Some("." + JoinWith(parts[|parts| - 2..], "."))
  }

  predicate IsSameSiteHost(hostname: string, self: string) {
    if hostname == "" then false
    else if hostname == self then true
    else
      var base := SsoCookieDomain(self);
      if base.None? || base.value == "" then hostname == self
      else
        var bare := base.value[1..];
        hostname == bare || EndsWith(hostname, base.value)
  }

  // ----- labels

  /** The last two dot-separated labels. */
  function LastTwo(host: string): Option<(string, string)> {
    var parts := Split(host, '.');
    if |parts| < 2 then None else Some((parts[|parts| - 2], parts[|parts| - 1]))
  }

  lemma {:induction false} JoinConcat(a: seq<string>, b: seq<string>, sep: string)
    requires a != [] && b != []
    ensures JoinWith(a + b, sep) == JoinWith(a, sep) + (sep + JoinWith(b, sep))
  {
    if |a| == 1 {
      assert (a + b)[1..] == b;
    } else {
      assert (a + b)[1..] == a[1..] + b;
      JoinConcat(a[1..], b, sep);
    }
  }

  function TwoLabels(x: string, y: string): string {
    x + "." + y
  }

  lemma JoinTwo(x: string, y: string)
    ensures JoinWith([x, y], ".") == TwoLabels(x, y)
  {}

  /** A host with these last two labels is those labels, or ends in a dot and those labels. */
  lemma LastTwoSuffix(host: string, x: string, y: string)
    requires LastTwo(host) == Some((x, y))
    ensures host == TwoLabels(x, y) || EndsWith(host, "." + TwoLabels(x, y))
  {
    var parts := Split(host, '.');
    var n := |parts|;
    JoinSplit(host, '.');
    JoinTwo(x, y);
    assert parts[n - 2..] == [x, y];
    if n == 2 {
      assert parts == [x, y];
    } else {
      JoinConcat(parts[..n - 2], [x, y], ".");
      assert parts == parts[..n - 2] + [x, y];
      assert host == JoinWith(parts[..n - 2], ".") + ("." + TwoLabels(x, y));
    }
  }

  lemma {:induction false} SplitSuffix(front: string, x: string, y: string)
    requires '.' !in x && '.' !in y
    ensures LastTwo(front + ("." + TwoLabels(x, y))) == Some((x, y))
    decreases |front|
  {
    var s := front + ("." + TwoLabels(x, y));
    SplitTwo(x, y);
    if front == "" {
      assert s == "." + TwoLabels(x, y) && s[1..] == TwoLabels(x, y);
    } else {
      assert s[1..] == front[1..] + ("." + TwoLabels(x, y));
      SplitSuffix(front[1..], x, y);
      var rest := Split(s[1..], '.');
      SplitAtLeastThree(front[1..], x, y);
    }
  }

  lemma SplitTwo(x: string, y: string)
    requires '.' !in x && '.' !in y
    ensures Split(TwoLabels(x, y), '.') == [x, y]
  {
    SplitAfter(x, '.', y);
    SplitFree(y, '.');
    assert x + ['.'] + y == TwoLabels(x, y);
  }

  lemma {:induction false} SplitAtLeastThree(front: string, x: string, y: string)
    requires '.' !in x && '.' !in y
    ensures |Split(front + ("." + TwoLabels(x, y)), '.')| >= 3
    decreases |front|
  {
    var s := front + ("." + TwoLabels(x, y));
    SplitTwo(x, y);
    if front == "" {
      assert s == "." + TwoLabels(x, y) && s[1..] == TwoLabels(x, y);
    } else {
      assert s[1..] == front[1..] + ("." + TwoLabels(x, y));
      SplitAtLeastThree(front[1..], x, y);
    }
  }

  lemma SuffixLastTwo(host: string, x: string, y: string)
    requires '.' !in x && '.' !in y
    requires host == TwoLabels(x, y) || EndsWith(host, "." + TwoLabels(x, y))
    ensures LastTwo(host) == Some((x, y))
  {
    if host == TwoLabels(x, y) {
      SplitTwo(x, y);
    } else {
      var suffix := "." + TwoLabels(x, y);
      SplitSuffix(host[..|host| - |suffix|], x, y);
      assert host == host[..|host| - |suffix|] + suffix;
    }
  }

  // ----- the property

  /** Seen from a host that has a cookie domain, a host is same-site exactly when its last two labels are the same. */
  lemma SameSiteIsLastTwo(hostname: string, self: string)
    requires SsoCookieDomain(self).Some?
    ensures IsSameSiteHost(hostname, self) <==> LastTwo(hostname) == LastTwo(self)
  {
    var parts := Split(self, '.');
    var x, y := parts[|parts| - 2], parts[|parts| - 1];
    assert parts[|parts| - 2..] == [x, y];
    JoinTwo(x, y);
    assert x in parts && y in parts;
    assert SsoCookieDomain(self) == Some("." + TwoLabels(x, y));
    assert ("." + TwoLabels(x, y))[1..] == TwoLabels(x, y);
    if LastTwo(hostname) == Some((x, y)) {
      LastTwoSuffix(hostname, x, y);
    }
    if hostname == TwoLabels(x, y) || EndsWith(hostname, "." + TwoLabels(x, y)) {
      SuffixLastTwo(hostname, x, y);
    }
  }

  /** A host without a cookie domain matches only itself. */
  lemma WithoutDomainOnlySelf(hostname: string, self: string)
    requires SsoCookieDomain(self).None?
    ensures IsSameSiteHost(hostname, self) <==> hostname == self && hostname != ""
  {}

  /** Among hosts with a cookie domain, same-site is an equivalence. */
  lemma SameSiteEquivalence(a: string, b: string, c: string)
    requires SsoCookieDomain(a).Some? && SsoCookieDomain(b).Some? && SsoCookieDomain(c).Some?
    ensures IsSameSiteHost(a, a)
    ensures IsSameSiteHost(a, b) <==> IsSameSiteHost(b, a)
    ensures IsSameSiteHost(a, b) && IsSameSiteHost(b, c) ==> IsSameSiteHost(a, c)
  {
    SameSiteIsLastTwo(a, a);
    SameSiteIsLastTwo(a, b);
    SameSiteIsLastTwo(b, a);
    SameSiteIsLastTwo(b, c);
    SameSiteIsLastTwo(a, c);
  }

  /**
   * Symmetry fails for distinct hosts only when exactly one of the two has a cookie domain,
   * and then exactly when the last two labels agree.
   */
  lemma SameSiteAsymmetry(a: string, b: string)
    requires a != b
    ensures (IsSameSiteHost(a, b) != IsSameSiteHost(b, a))
      <==> (SsoCookieDomain(a).Some? != SsoCookieDomain(b).Some? && LastTwo(a) == LastTwo(b))
  {
    if SsoCookieDomain(a).Some? { SameSiteIsLastTwo(b, a); }
    if SsoCookieDomain(b).Some? { SameSiteIsLastTwo(a, b); }
  }

  // ----- hosts without a cookie domain

  lemma {:induction false} SplitParts(s: string, c: char)
    ensures |Split(s, c)| >= 2 <==> c in s
  {
    if s != "" { SplitParts(s[1..], c); }
  }

  /** No cookie domain: "localhost", an address of digits and dots, a text with a colon, and a name without a dot. */
  lemma NoDomainHosts(host: string)
    ensures SsoCookieDomain(host).None? <==>
      || host == "localhost"
      || (host != "" && forall k :: k in host ==> k == '.' || '0' <= k <= '9')
      || ':' in host
      || '.' !in host
  {
    SplitParts(host, '.');
    if AllDigitsOrDots(host) { assert forall k :: k in host ==> DigitOrDot(k); }
    if host != "" && !AllDigitsOrDots(host) {
      var i :| 0 <= i < |host| && !DigitOrDot(host[i]);
      assert host[i] in host;
    }
  }
}
