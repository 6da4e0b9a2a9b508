/** Rewriting the host of a request to its private service. */
module HostRewrite {
  import opened HostAddress
  import opened HostExtract
  import opened HostNames
  import opened Names
  import opened Options
  import opened Strings

  function AddHTTP(url: string): string {
    if !("http://" <= url) && !("https://" <= url) then "http://" + url else url
  }

  function RemoveWildcard(url: string): string {
    if |url| >= 2 && url[|url| - 2..] == "/*" then url[..|url| - 2] else url
  }

  /** Everything before the first slash. */
  function RemovePath(url: string): string {
    if url == "" || url[0] == '/' then "" else [url[0]] + RemovePath(url[1..])
  }

  /** The first of at least three dot-separated parts replaced. */
  function ReplaceServiceName(url: string, service: string): string {
    var parts := Split(url, '.');
    if |parts| < 3 then url else Join(parts[0 := service], '.')
  }

  function SourceHost(incoming: string): string {
    AddHTTP(RemovePath(RemoveWildcard(incoming)))
  }

  function TargetHost(incoming: string, service: string): string {
    AddHTTP(ReplaceServiceName(SourceHost(incoming), service))
  }

  // ----- what they compute

  /** A scheme is added exactly where none is: the result has one, and what has one stays. */
  lemma AddHTTPIs(url: string)
    ensures AddHTTP("http://" + url) == "http://" + url && AddHTTP("https://" + url) == "https://" + url
    ensures !("http://" <= url) && !("https://" <= url) ==> AddHTTP(url) == "http://" + url
  {
  }

  /** Only a wildcard at the very end is removed. */
  lemma RemoveWildcardIs(url: string)
    ensures RemoveWildcard(url + "/*") == url
    ensures (forall s: string :: url != s + "/*") ==> RemoveWildcard(url) == url
  {
    var s := url + "/*";
    assert s[|s| - 2..] == "/*" && s[..|s| - 2] == url;
    if |url| >= 2 && url[|url| - 2..] == "/*" {
      assert url == url[..|url| - 2] + "/*";
    }
  }

  lemma {:induction false} RemovePathIs(host: string, path: string)
    requires '/' !in host && (path == "" || path[0] == '/')
    ensures RemovePath(host + path) == host
  {
    var s := host + path;
    if host == "" {
    } else {
      assert s[1..] == host[1..] + path;
      RemovePathIs(host[1..], path);
    }
  }

  /** Only the host is left of a host and a path, wildcard or not. */
  lemma HostOnly(host: string, path: string)
    requires '/' !in host && (path == "" || path[0] == '/')
    ensures RemovePath(RemoveWildcard(host + path)) == host
  {
    var s := host + path;
    if RemoveWildcard(s) == s {
      RemovePathIs(host, path);
    } else {
      assert s[|s| - 2] == '/';
      assert |path| >= 2;
      assert s[..|s| - 2] == host + path[..|path| - 2];
      RemovePathIs(host, path[..|path| - 2]);
    }
  }

  lemma {:induction false} SplitCount(a: string, b: string, sep: char)
    ensures |Split(a + [sep] + b, sep)| == |Split(a, sep)| + |Split(b, sep)|
  {
    var s := a + [sep] + b;
    if a == "" {
      assert s[1..] == b;
    } else {
      assert s[1..] == a[1..] + [sep] + b;
      SplitCount(a[1..], b, sep);
    }
  }

  /** With at least two dots, exactly what stands before the first one is replaced. */
  lemma ReplaceIs(first: string, second: string, third: string, service: string)
    requires '.' !in first
    ensures ReplaceServiceName(first + "." + (second + "." + third), service) == service + "." + (second + "." + third)
  {
    var rest := second + "." + third;
    SplitFirst(first, rest, '.');
    SplitCount(second, third, '.');
    JoinSplit(rest, '.');
    var parts := Split(first + "." + rest, '.');
    assert parts[0 := service] == [service] + Split(rest, '.');
    assert parts[0 := service][1..] == Split(rest, '.');
  }

  lemma ReplaceNothing(first: string, second: string, service: string)
    requires '.' !in first && '.' !in second
    ensures ReplaceServiceName(first + "." + second, service) == first + "." + second
  {
    SplitFirst(first, second, '.');
    SplitOne(second, '.');
  }

  // ----- the hosts the resolver sees

  predicate Port(s: string) {
    s == "" || (|s| > 1 && s[0] == ':' && forall i :: 0 < i < |s| ==> IsDigit(s[i]))
  }

  predicate Path(s: string) { s == "" || s[0] == '/' }

  predicate Tail(s: string) { s in {"", ".svc", CLUSTER} }

  function HostOf(svc: string, ns: string, tail: string, port: string): string {
    svc + "." + (ns + tail + port)
  }

  ghost predicate Parts(svc: string, ns: string, tail: string, port: string, path: string) {
    Label(svc) && Label(ns) && Tail(tail) && Port(port) && Path(path)
  }

  lemma NoSlash(svc: string, ns: string, tail: string, port: string)
    requires Parts(svc, ns, tail, port, "")
    ensures '/' !in HostOf(svc, ns, tail, port) && '.' !in svc && '.' !in ns && '.' !in port
  {
  }

  lemma PrefixKeeps(p: string, s: string, c: char)
    requires p <= s && c in p
    ensures c in s
  {
  }

  /** A host without a slash has no scheme, so it gets one. */
  lemma AddHTTPTo(host: string)
    requires '/' !in host
    ensures AddHTTP(host) == "http://" + host
  {
    assert "http://"[5] == '/' && "https://"[6] == '/';
    if "http://" <= host {
      PrefixKeeps("http://", host, '/');
    } else if "https://" <= host {
      PrefixKeeps("https://", host, '/');
    }
  }

  lemma SourceHostIs(svc: string, ns: string, tail: string, port: string, path: string)
    requires Parts(svc, ns, tail, port, path)
    ensures SourceHost(HostOf(svc, ns, tail, port) + path) == "http://" + HostOf(svc, ns, tail, port)
  {
    NoSlash(svc, ns, tail, port);
    HostOnly(HostOf(svc, ns, tail, port), path);
    AddHTTPTo(HostOf(svc, ns, tail, port));
  }

  lemma Regroup(svc: string, ns: string, tail: string, port: string)
    requires tail != "" && tail[0] == '.'
    ensures "http://" + HostOf(svc, ns, tail, port) == ("http://" + svc) + "." + (ns + "." + (tail[1..] + port))
    ensures HostOf(svc, ns, tail, port) == svc + "." + (ns + "." + (tail[1..] + port))
  {
  }

  /** With a suffix after the namespace, the target is the same address with only the service replaced. */
  lemma TargetHostIs(svc: string, ns: string, tail: string, port: string, path: string, service: string)
    requires Parts(svc, ns, tail, port, path) && tail != "" && Label(service)
    ensures TargetHost(HostOf(svc, ns, tail, port) + path, service) == "http://" + HostOf(service, ns, tail, port)
  {
    SourceHostIs(svc, ns, tail, port, path);
    ReplacesFirst(svc, ns, tail, port, service);
    NoSlash(service, ns, tail, port);
    AddHTTPTo(HostOf(service, ns, tail, port));
  }

  lemma ReplacesFirst(svc: string, ns: string, tail: string, port: string, service: string)
    requires Parts(svc, ns, tail, port, "") && tail != ""
    ensures ReplaceServiceName("http://" + HostOf(svc, ns, tail, port), service) == HostOf(service, ns, tail, port)
  {
    NoSlash(svc, ns, tail, port);
    Regroup(svc, ns, tail, port);
    Regroup(service, ns, tail, port);
    ReplaceIs("http://" + svc, ns, tail[1..] + port, service);
  }

  /** A host of two labels is not rewritten: the request would go back to the public service. */
  lemma TwoLabelsStay(svc: string, ns: string, port: string, path: string, service: string)
    requires Parts(svc, ns, "", port, path)
    ensures TargetHost(HostOf(svc, ns, "", port) + path, service) == SourceHost(HostOf(svc, ns, "", port) + path)
  {
    SourceHostIs(svc, ns, "", port, path);
    NoSlash(svc, ns, "", port);
    var first := "http://" + svc;
    assert "http://" + HostOf(svc, ns, "", port) == first + "." + (ns + "" + port);
    ReplaceNothing(first, ns + "" + port, service);
  }

  /** A host that comes with a scheme is cut inside the scheme. */
  lemma SchemeIsCut(scheme: string, rest: string, service: string)
    requires scheme == "http://" || scheme == "https://"
    ensures var cut := "http://" + scheme[..|scheme| - 2];
            SourceHost(scheme + rest) == cut && TargetHost(scheme + rest, service) == cut && '.' !in cut
  {
    var s, name := scheme + rest, scheme[..|scheme| - 2];
    assert s == name + ("//" + rest);
    HostOnly(name, "//" + rest);
    AddHTTPTo(name);
    SplitOne("http://" + name, '.');
  }

  lemma SchemeNotRewritten(scheme: string, svc: string, ns: string, tail: string, port: string, path: string, service: string)
    requires scheme == "http://" || scheme == "https://"
    ensures TargetHost(scheme + HostOf(svc, ns, tail, port) + path, service) != "http://" + HostOf(service, ns, tail, port)
  {
    var rest, t := HostOf(svc, ns, tail, port) + path, "http://" + HostOf(service, ns, tail, port);
    assert scheme + HostOf(svc, ns, tail, port) + path == scheme + rest;
    SchemeIsCut(scheme, rest, service);
    assert t[7 + |service|] == '.';
  }

  lemma FirstLabel(a: string, b: string, x: string, y: string)
    requires Label(a) && Label(b) && a != b
    ensures a + "." + x != b + "." + y
  {
    var s, t := a + "." + x, b + "." + y;
    if |a| == |b| {
      assert s[..|a|] == a && t[..|b|] == b;
    } else if |a| < |b| {
      assert s[|a|] == '.' && t[|a|] == b[|a|];
    } else {
      assert t[|b|] == '.' && s[|b|] == a[|b|];
    }
  }

  lemma TwoLabelsNotRewritten(svc: string, ns: string, port: string, path: string, service: string)
    requires Parts(svc, ns, "", port, path) && Label(service) && service != svc
    ensures TargetHost(HostOf(svc, ns, "", port) + path, service) != "http://" + HostOf(service, ns, "", port)
  {
    TwoLabelsStay(svc, ns, port, path, service);
    SourceHostIs(svc, ns, "", port, path);
    FirstLabel(svc, service, ns + "" + port, ns + "" + port);
    assert ("http://" + HostOf(svc, ns, "", port))[7..] == HostOf(svc, ns, "", port);
    assert ("http://" + HostOf(service, ns, "", port))[7..] == HostOf(service, ns, "", port);
  }

  /** Exactly which hosts are rewritten to the private service. */
  lemma RewrittenIff(scheme: string, svc: string, ns: string, tail: string, port: string, path: string, service: string)
    requires Scheme(scheme) && Parts(svc, ns, tail, port, path) && Label(service) && service != svc
    ensures TargetHost(scheme + HostOf(svc, ns, tail, port) + path, service) == "http://" + HostOf(service, ns, tail, port)
            <==> scheme == "" && tail != ""
  {
    if scheme != "" {
      SchemeNotRewritten(scheme, svc, ns, tail, port, path, service);
    } else {
      assert scheme + HostOf(svc, ns, tail, port) + path == HostOf(svc, ns, tail, port) + path;
      if tail != "" {
        TargetHostIs(svc, ns, tail, port, path, service);
      } else {
        TwoLabelsNotRewritten(svc, ns, port, path, service);
      }
    }
  }

  // ----- what such hosts are read as

  lemma HostIs(scheme: string, svc: string, ns: string, tail: string, port: string, path: string)
    ensures scheme + HostOf(svc, ns, tail, port) + path == Host(scheme, svc, ns, tail + (port + path))
  {
    assert svc + "." + (ns + tail + port) == svc + "." + ns + (tail + port);
  }

  /** What follows the two labels ends them, and what follows the suffix ends that. */
  lemma RestEnds(tail: string, port: string, path: string)
    requires Tail(tail) && Port(port) && Path(path)
    ensures Detached(port + path)
    ensures var rest := tail + (port + path); rest == "" || !IsLabelChar(rest[0])
  {
    var r := port + path;
    assert r != "" ==> r[0] == if port != "" then port[0] else path[0];
  }

  lemma TailBegins(p: Pattern, t: string, f: nat)
    requires p.tail != "" && TailAt(p, t, f)
    ensures f < |t| && t[f] == p.tail[0]
  {
    assert t[f] == t[f..f + |p.tail|][0];
  }

  lemma NoDotsNoMatch(p: Pattern, t: string)
    requires p.two && (forall i, j :: 0 <= i < j < |t| && t[i] == '.' ==> t[j] != '.')
    requires '.' !in t || (p.tail != "" && p.tail[0] == '.')
    ensures Find(p, t).None?
  {
    forall i: nat | i <= |t| ensures Matcher(p, t)(i).None? {
      if MatchAt(p, t, i).Some? {
        var j, e, f := MatchParts(p, t, i);
        if p.tail != "" {
          TailBegins(p, t, f);
        }
      }
    }
    FindAt(p, t, |t|);
  }

  /** The two-label patterns before the last two have a suffix. */
  lemma SuffixPatterns(k: nat)
    requires k <= 7
    ensures PATTERNS[k].tail != "" && PATTERNS[k].tail[0] == '.'
  {
  }

  lemma {:induction false} NoDotsNothing(t: string, n: nat)
    requires n <= 9 && (forall i, j :: 0 <= i < j < |t| && t[i] == '.' ==> t[j] != '.') && ('.' !in t || n <= 8)
    ensures Earliest(t, n).None?
  {
    if n == 0 {
    } else {
      TwoLabelPatterns(n - 1);
      if n <= 8 {
        SuffixPatterns(n - 1);
      }
      NoDotsNoMatch(PATTERNS[n - 1], t);
      NoDotsNothing(t, n - 1);
    }
  }

  /** A rest that begins with `.svc` is matched by the eighth pattern at the latest. */
  lemma OwnSvc(scheme: string, rest: string)
    ensures Own(scheme, ".svc" + rest) <= 7
  {
    var t := ".svc" + rest;
    assert t[0..4] == ".svc";
    assert Owns(PATTERNS[7], scheme == "http://", t);
  }

  lemma NoDotNoCluster(s: string)
    requires '.' !in s
    ensures NoCluster(s)
  {
    assert forall i: nat :: LiteralAt(s, i, CLUSTER) ==> s[i] == s[i..i + 18][0];
  }

  lemma ExtractCluster(scheme: string, svc: string, ns: string, r: string)
    requires Scheme(scheme) && Label(svc) && Label(ns) && '.' !in r
    ensures Extract(Host(scheme, svc, ns, CLUSTER + r)) == Found(svc, ns)
  {
    NoDotNoCluster(r);
    AddressIsHost(scheme, svc, ns, r);
    ExtractAddress(scheme, svc, ns, r);
  }

  lemma ExtractShort(scheme: string, svc: string, ns: string, tail: string, r: string)
    requires HostOk(scheme, svc, ns, tail + r) && '.' !in r && (tail == "" || tail == ".svc")
    ensures Extract(Host(scheme, svc, ns, tail + r)) == Found(svc, ns)
  {
    ExtractIs(scheme, svc, ns, tail + r);
    if tail == ".svc" {
      OwnSvc(scheme, r);
    }
    OneDot(ns, tail, r);
    NoDotsNothing(ns + (tail + r), Own(scheme, tail + r));
  }

  lemma OneDot(ns: string, tail: string, r: string)
    requires Label(ns) && '.' !in r && (tail == "" || tail == ".svc")
    ensures var t := ns + (tail + r);
            (forall k :: 0 <= k < |t| && t[k] == '.' ==> k == |ns|) && (tail == "" ==> '.' !in t)
  {
    var t := ns + (tail + r);
    assert forall k :: 0 <= k < |ns| ==> t[k] == ns[k];
    assert forall k :: |ns| + |tail| <= k < |t| ==> t[k] == r[k - |ns| - |tail|];
    assert forall k :: |ns| <= k < |ns| + |tail| ==> t[k] == tail[k - |ns|];
  }

  /** With any of the three suffixes, any port and a path without dots, the two labels are read. */
  lemma ExtractHost(scheme: string, svc: string, ns: string, tail: string, port: string, path: string)
    requires Scheme(scheme) && Parts(svc, ns, tail, port, path) && '.' !in path
    ensures Extract(scheme + HostOf(svc, ns, tail, port) + path) == Found(svc, ns)
  {
    HostIs(scheme, svc, ns, tail, port, path);
    RestEnds(tail, port, path);
    if tail == CLUSTER {
      ExtractCluster(scheme, svc, ns, port + path);
    } else {
      ExtractShort(scheme, svc, ns, tail, port + path);
    }
  }

  lemma PrivateIsLabel(h: Hash, svc: string)
    requires Hexadecimal(h) && LabelChars(svc)
    ensures Label(PrivateServiceName(h, svc)) && ValidLabel(PrivateServiceName(h, svc))
  {
  }

  /** A cluster-local host is read right exactly under the condition of `ExtractAddressIff`. */
  lemma HostReadIff(svc: string, ns: string, port: string, path: string)
    requires Parts(svc, ns, CLUSTER, port, path)
    ensures Extract(HostOf(svc, ns, CLUSTER, port) + path) == Found(svc, ns) <==> ReadRight("", svc, ns, port + path)
  {
    HostIs("", svc, ns, CLUSTER, port, path);
    assert "" + HostOf(svc, ns, CLUSTER, port) + path == HostOf(svc, ns, CLUSTER, port) + path;
    AddressIsHost("", svc, ns, port + path);
    RestEnds(CLUSTER, port, path);
    ExtractAddressIff("", svc, ns, port + path);
  }

  /** The round trip: a cluster-local host names its service and namespace exactly if it is read right,
      its target is the same address of the private service, and that always names the private service
      and the namespace. */
  lemma RoundTrip(h: Hash, svc: string, ns: string, port: string, path: string)
    requires Hexadecimal(h) && Parts(svc, ns, CLUSTER, port, path) && LabelChars(svc)
    ensures var incoming, private := HostOf(svc, ns, CLUSTER, port) + path, PrivateServiceName(h, svc);
            && (Extract(incoming) == Found(svc, ns) <==> ReadRight("", svc, ns, port + path))
            && TargetHost(incoming, private) == "http://" + HostOf(private, ns, CLUSTER, port)
            && Extract(TargetHost(incoming, private)) == Found(private, ns)
            && ValidLabel(private)
  {
    var private := PrivateServiceName(h, svc);
    PrivateIsLabel(h, svc);
    HostReadIff(svc, ns, port, path);
    TargetHostIs(svc, ns, CLUSTER, port, path, private);
    ExtractHost("http://", private, ns, CLUSTER, port, "");
    assert "http://" + HostOf(private, ns, CLUSTER, port) + "" == "http://" + HostOf(private, ns, CLUSTER, port);
  }
}
