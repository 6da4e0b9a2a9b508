/**
 Extraction from cluster-local addresses. What follows an address is tried by the patterns before the
 first one that matches the address itself, and this decides exactly when the address is read right.
 */
module HostAddress {
  import opened HostExtract
  import opened HostNames
  import opened Options

  function Address(scheme: string, svc: string, ns: string, rest: string): string {
    scheme + svc + "." + ns + CLUSTER + rest
  }

  lemma AddressIsHost(scheme: string, svc: string, ns: string, rest: string)
    ensures Address(scheme, svc, ns, rest) == Host(scheme, svc, ns, CLUSTER + rest)
  {
  }

  /** The first six patterns are the cluster-local ones. */
  lemma ClusterPatterns(k: nat)
    requires k <= 5
    ensures var p := PATTERNS[k];
            p.two && p.tail == CLUSTER && (p.http <==> k % 2 == 0) && (p.port <==> k < 4) && (p.star <==> k < 2)
  {
  }

  /** Begins neither with a label character nor with a dot: the suffix before it ends here. */
  predicate Detached(rest: string) { rest == "" || (!IsLabelChar(rest[0]) && rest[0] != '.') }

  /** Nothing in `s` looks like the suffix of an address. */
  ghost predicate NoCluster(s: string) { forall i: nat :: !LiteralAt(s, i, CLUSTER) }

  lemma ClusterChars(s: string, f: nat)
    requires LiteralAt(s, f, CLUSTER)
    ensures s[f] == '.' && s[f + 1] == 's' && s[f + 4] == '.' && s[f + 5] == 'c' && s[f + 12] == '.' && s[f + 13] == 'l'
    ensures s[f + 17] == 'l' && forall k :: f <= k < f + 18 && s[k] == '.' ==> k in {f, f + 4, f + 12}
  {
    assert forall k :: f <= k < f + 18 ==> s[k] == s[f..f + 18][k - f] == CLUSTER[k - f];
  }

  /** Two occurrences of the suffix do not overlap. */
  lemma ClusterApart(s: string, f: nat, g: nat)
    requires LiteralAt(s, f, CLUSTER) && LiteralAt(s, g, CLUSTER) && f < g
    ensures f + 18 <= g
  {
    ClusterChars(s, f);
    ClusterChars(s, g);
  }

  /** `m` label characters and the suffix begin `t`. */
  ghost predicate Suffixed(t: string, m: nat) {
    m <= |t| && (forall k :: 0 <= k < m ==> IsLabelChar(t[k])) && LiteralAt(t, m, CLUSTER)
  }

  /** A match of a cluster-local pattern needs a suffix of its own, and two labels before it. */
  lemma ClusterMatch(p: Pattern, t: string, m: nat, i: nat) returns (e: nat, f: nat)
    requires Suffixed(t, m) && p.two && p.tail == CLUSTER && i <= |t| && MatchAt(p, t, i).Some?
    ensures m + 18 <= f && LiteralAt(t, f, CLUSTER) && e < f && t[e] == '.' && forall k :: e < k < f ==> IsLabelChar(t[k])
    ensures SchemeEnd(p, i) < e && (p.http ==> LiteralAt(t, i, "http://"))
    ensures forall k :: SchemeEnd(p, i) <= k < e ==> IsLabelChar(t[k])
  {
    var j;
    j, e, f := MatchParts(p, t, i);
    ClusterChars(t, f);
    if f > m {
      ClusterApart(t, m, f);
    }
  }

  lemma MatchNeedsCluster(p: Pattern, t: string, m: nat, i: nat)
    requires Suffixed(t, m) && p.two && p.tail == CLUSTER && i <= |t| && MatchAt(p, t, i).Some?
    ensures !NoCluster(t[m + 18..])
  {
    var e, f := ClusterMatch(p, t, m, i);
    LiteralShift(t, t[m + 18..], m + 18, f - m - 18, CLUSTER);
  }

  lemma NoClusterMatch(p: Pattern, t: string, m: nat)
    requires Suffixed(t, m) && p.two && p.tail == CLUSTER && NoCluster(t[m + 18..])
    ensures Find(p, t).None?
  {
    forall i: nat | i <= |t| ensures Matcher(p, t)(i).None? {
      if MatchAt(p, t, i).Some? {
        MatchNeedsCluster(p, t, m, i);
      }
    }
    FindAt(p, t, |t|);
  }

  /** After a detached rest begins, no label reaches back over it. */
  lemma DetachedLabels(t: string, c: nat, e: nat, f: nat)
    requires c <= f < |t| && e < f && t[e] == t[f] == '.' && Detached(t[c..])
    requires forall k :: e < k < f ==> IsLabelChar(t[k])
    ensures c < e
  {
    assert t[c] == t[c..][0];
  }

  lemma DetachedMatch(p: Pattern, t: string, m: nat, i: nat)
    requires Suffixed(t, m) && p.two && p.tail == CLUSTER && Detached(t[m + 18..]) && i <= |t| && MatchAt(p, t, i).Some?
    ensures m + 18 <= i
  {
    var e, f := ClusterMatch(p, t, m, i);
    ClusterChars(t, f);
    DetachedLabels(t, m + 18, e, f);
    if p.http {
      SchemeAfter(t, m, i);
    }
  }

  /** A scheme does not begin in the suffix, and no label reaches into the rest from there. */
  lemma SchemeAfter(t: string, m: nat, i: nat)
    requires LiteralAt(t, m, CLUSTER) && LiteralAt(t, i, "http://") && m + 18 < i + 7
    ensures m + 18 <= i
  {
    SchemeChars(t, i);
    ClusterChars(t, m);
  }

  lemma DetachedFind(p: Pattern, t: string, m: nat)
    requires Suffixed(t, m) && p.two && p.tail == CLUSTER && Detached(t[m + 18..])
    ensures Find(p, t) == Find(p, t[m + 18..])
  {
    forall i: nat | i < m + 18 ensures Matcher(p, t)(i).None? {
      if MatchAt(p, t, i).Some? {
        DetachedMatch(p, t, m, i);
      }
    }
    FindSuffix(p, t, t[m + 18..], m + 18);
  }

  lemma AddressSuffixed(ns: string, rest: string)
    requires Label(ns)
    ensures var t := ns + (CLUSTER + rest); Suffixed(t, |ns|) && t[|ns| + 18..] == rest
  {
  }

  lemma {:induction false} EarliestDetached(t: string, m: nat, n: nat)
    requires Suffixed(t, m) && Detached(t[m + 18..]) && n <= 6
    ensures Earliest(t, n) == Earliest(t[m + 18..], n)
  {
    if n == 0 {
    } else {
      ClusterPatterns(n - 1);
      DetachedFind(PATTERNS[n - 1], t, m);
      EarliestDetached(t, m, n - 1);
    }
  }

  lemma {:induction false} EarliestNothing(t: string, m: nat, n: nat)
    requires Suffixed(t, m) && NoCluster(t[m + 18..]) && n <= 6
    ensures Earliest(t, n).None?
  {
    if n == 0 {
    } else {
      ClusterPatterns(n - 1);
      NoClusterMatch(PATTERNS[n - 1], t, m);
      EarliestNothing(t, m, n - 1);
    }
  }

  lemma OnlyRest(ns: string, rest: string, n: nat)
    requires Label(ns) && Detached(rest) && n <= 6
    ensures Earliest(ns + (CLUSTER + rest), n) == Earliest(rest, n)
  {
    AddressSuffixed(ns, rest);
    EarliestDetached(ns + (CLUSTER + rest), |ns|, n);
  }

  lemma NothingElse(ns: string, rest: string, n: nat)
    requires Label(ns) && NoCluster(rest) && n <= 6
    ensures Earliest(ns + (CLUSTER + rest), n).None?
  {
    AddressSuffixed(ns, rest);
    EarliestNothing(ns + (CLUSTER + rest), |ns|, n);
  }

  /** The first pattern that matches an address: by its port and wildcard, then by its scheme. */
  function AddressPattern(http: bool, rest: string): nat {
    (if PortAt(PATTERNS[0], rest, 0) then 0 else if PortAt(PATTERNS[2], rest, 0) then 2 else 4) + if http then 0 else 1
  }

  lemma TailOfAddress(p: Pattern, rest: string)
    requires p.tail == CLUSTER
    ensures TailAt(p, CLUSTER + rest, 0) <==> (p.port ==> PortAt(p, rest, 0))
  {
    var t := CLUSTER + rest;
    assert t[..18] == CLUSTER && t[18..] == rest;
    PortShift(p, t, rest, 18, 0);
  }

  /** Which of the cluster-local patterns match an address. */
  lemma OwnsAddress(k: nat, http: bool, rest: string)
    requires k <= 5
    ensures Owns(PATTERNS[k], http, CLUSTER + rest) <==>
            (k % 2 == 0 ==> http) && (k < 2 ==> PortAt(PATTERNS[0], rest, 0)) && (2 <= k < 4 ==> PortAt(PATTERNS[2], rest, 0))
  {
    ClusterPatterns(0);
    ClusterPatterns(2);
    ClusterPatterns(k);
    TailOfAddress(PATTERNS[k], rest);
  }

  lemma OwnAddress(scheme: string, rest: string)
    ensures Own(scheme, CLUSTER + rest) == AddressPattern(scheme == "http://", rest)
  {
    var http, own := scheme == "http://", AddressPattern(scheme == "http://", rest);
    ClusterPatterns(0);
    ClusterPatterns(2);
    forall k: nat | k <= 5 ensures Owns(PATTERNS[k], http, CLUSTER + rest) ==> own <= k {
      OwnsAddress(k, http, rest);
    }
    OwnsAddress(own, http, rest);
    var least := Own(scheme, CLUSTER + rest);
    assert least <= own;
  }

  lemma ExtractAddressIs(scheme: string, svc: string, ns: string, rest: string)
    requires Scheme(scheme) && Label(svc) && Label(ns)
    ensures var own := AddressPattern(scheme == "http://", rest);
            Extract(Address(scheme, svc, ns, rest)) == Named(Else(Earliest(ns + (CLUSTER + rest), own), svc, ns))
  {
    AddressIsHost(scheme, svc, ns, rest);
    ExtractIs(scheme, svc, ns, CLUSTER + rest);
    OwnAddress(scheme, rest);
  }

  /** What a pattern before the one that matches the address finds in the rest. */
  function Other(scheme: string, rest: string): Option<Captured> {
    Earliest(rest, AddressPattern(scheme == "http://", rest))
  }

  /** Nothing, or the same. */
  predicate ReadRight(scheme: string, svc: string, ns: string, rest: string) {
    Other(scheme, rest) in {None, Some(Captured(svc, Some(ns)))}
  }

  /** Exactly what extraction gives for an address and whatever follows it. */
  lemma ExtractAddressIff(scheme: string, svc: string, ns: string, rest: string)
    requires Scheme(scheme) && Label(svc) && Label(ns) && Detached(rest)
    ensures var r := Extract(Address(scheme, svc, ns, rest));
            && r == Named(Else(Other(scheme, rest), svc, ns))
            && (r == Found(svc, ns) <==> ReadRight(scheme, svc, ns, rest))
  {
    ExtractAddressIs(scheme, svc, ns, rest);
    OnlyRest(ns, rest, AddressPattern(scheme == "http://", rest));
    ReadIff(Other(scheme, rest), svc, ns);
  }

  /** In particular with no second suffix in the rest, whatever it begins with. */
  lemma ExtractAddress(scheme: string, svc: string, ns: string, rest: string)
    requires Scheme(scheme) && Label(svc) && Label(ns) && NoCluster(rest)
    ensures Extract(Address(scheme, svc, ns, rest)) == Found(svc, ns)
  {
    ExtractAddressIs(scheme, svc, ns, rest);
    NothingElse(ns, rest, AddressPattern(scheme == "http://", rest));
  }

  // ----- a second address in the path

  lemma SlashFind(p: Pattern, u: string)
    requires p.two
    ensures Find(p, "/" + u) == Find(p, u)
  {
    var s := "/" + u;
    assert s[1..] == u;
    assert MatchAt(p, s, 0).None? by {
      assert LiteralAt(s, 0, "http://") ==> s[0] == s[0..7][0];
    }
    FindSuffix(p, s, u, 1);
  }

  /** What a cluster-local pattern finds in an address without a scheme and with one suffix. */
  lemma FindInAddress(p: Pattern, svc: string, ns: string, rest: string)
    requires p.two && p.tail == CLUSTER && Label(svc) && Label(ns) && NoCluster(rest)
    ensures Find(p, Address("", svc, ns, rest)) ==
            if Owns(p, false, CLUSTER + rest) then Some(Captured(svc, Some(ns))) else None
  {
    var s, d1 := Host("", svc, ns, CLUSTER + rest), |svc|;
    AddressIsHost("", svc, ns, rest);
    HostPlaced("", svc, ns, CLUSTER + rest, s, d1, d1 + 1 + |ns|);
    FindPlaced(p, "", svc, ns, CLUSTER + rest, s, d1, d1 + 1 + |ns|);
    AddressSuffixed(ns, rest);
    NoClusterMatch(p, ns + (CLUSTER + rest), |ns|);
  }

  lemma {:induction false} EarliestSecond(svc: string, ns: string, rest: string, n: nat)
    requires Label(svc) && Label(ns) && NoCluster(rest) && n <= 5
    ensures Earliest("/" + Address("", svc, ns, rest), n) ==
            if (n >= 2 && PortAt(PATTERNS[0], rest, 0)) || (n >= 4 && PortAt(PATTERNS[2], rest, 0))
            then Some(Captured(svc, Some(ns))) else None
  {
    if n == 0 {
    } else {
      EarliestSecond(svc, ns, rest, n - 1);
      ClusterPatterns(n - 1);
      OwnsAddress(n - 1, false, rest);
      SlashFind(PATTERNS[n - 1], Address("", svc, ns, rest));
      FindInAddress(PATTERNS[n - 1], svc, ns, rest);
    }
  }

  /** With a second address in the path, that one is read if and only if it has a port. */
  lemma SecondAddressWins(scheme: string, svc: string, ns: string, svc2: string, ns2: string, rest: string)
    requires Scheme(scheme) && Label(svc) && Label(ns) && Label(svc2) && Label(ns2) && NoCluster(rest)
    ensures Extract(Address(scheme, svc, ns, "/" + Address("", svc2, ns2, rest))) ==
            if PortAt(PATTERNS[3], rest, 0) then Found(svc2, ns2) else Found(svc, ns)
  {
    var path := "/" + Address("", svc2, ns2, rest);
    ExtractAddressIff(scheme, svc, ns, path);
    ClusterPatterns(0);
    ClusterPatterns(2);
    ClusterPatterns(3);
    assert path[0] == '/';
    EarliestSecond(svc2, ns2, rest, AddressPattern(scheme == "http://", path));
  }
}
