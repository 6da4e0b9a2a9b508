/**
 What extraction reads out of a host that begins, after an optional scheme, with two labels. Each
 pattern is searched over the whole text before the next is tried, so a later part of the text can be
 preferred to the beginning: it is, exactly if an earlier pattern finds something there.
 */
module HostExtract {
  import opened HostNames
  import opened Options

  // ----- matching does not depend on what stands before

  lemma RunIs(s: string, i: nat, e: nat, ok: char -> bool)
    requires i <= e <= |s| && (forall k :: i <= k < e ==> ok(s[k])) && (e < |s| ==> !ok(s[e]))
    ensures RunEnd(s, i, ok) == e
  {
  }

  /** `t` is `s` from `d` on. */
  ghost predicate Suffix(s: string, t: string, d: nat) {
    |s| == d + |t| && forall k :: 0 <= k < |t| ==> s[d + k] == t[k]
  }

  lemma RunShift(s: string, t: string, d: nat, i: nat, ok: char -> bool)
    requires Suffix(s, t, d) && i <= |t|
    ensures RunEnd(s, d + i, ok) == d + RunEnd(t, i, ok)
  {
    var e := RunEnd(t, i, ok);
    assert forall k :: d + i <= k < d + e ==> s[k] == t[k - d];
    RunIs(s, d + i, d + e, ok);
  }

  lemma SliceShift(s: string, t: string, d: nat, i: nat, j: nat)
    requires Suffix(s, t, d) && i <= j <= |t|
    ensures s[d + i..d + j] == t[i..j]
  {
    assert forall k :: d + i <= k < d + j ==> s[k] == t[k - d];
  }

  lemma LiteralShift(s: string, t: string, d: nat, i: nat, lit: string)
    requires Suffix(s, t, d)
    ensures LiteralAt(s, d + i, lit) <==> LiteralAt(t, i, lit)
  {
    if i + |lit| <= |t| {
      SliceShift(s, t, d, i, i + |lit|);
    }
  }

  lemma PortShift(p: Pattern, s: string, t: string, d: nat, i: nat)
    requires Suffix(s, t, d)
    ensures PortAt(p, s, d + i) <==> PortAt(p, t, i)
  {
    LiteralShift(s, t, d, i, ":");
    if i + 1 <= |t| {
      RunShift(s, t, d, i + 1, IsDigit);
      LiteralShift(s, t, d, RunEnd(t, i + 1, IsDigit), "/*");
    }
  }

  lemma TailShift(p: Pattern, s: string, t: string, d: nat, i: nat)
    requires Suffix(s, t, d)
    ensures TailAt(p, s, d + i) <==> TailAt(p, t, i)
  {
    LiteralShift(s, t, d, i, p.tail);
    PortShift(p, s, t, d, i + |p.tail|);
  }

  lemma NamespaceShift(p: Pattern, s: string, t: string, d: nat, e: nat, service: string)
    requires Suffix(s, t, d) && e <= |t|
    ensures NamespaceFrom(p, s, d + e, service) == NamespaceFrom(p, t, e, service)
  {
    LiteralShift(s, t, d, e, ".");
    if e + 1 <= |t| {
      var f := RunEnd(t, e + 1, IsLabelChar);
      RunShift(s, t, d, e + 1, IsLabelChar);
      TailShift(p, s, t, d, f);
      SliceShift(s, t, d, e + 1, f);
    }
  }

  lemma LabelsShift(p: Pattern, s: string, t: string, d: nat, j: nat)
    requires Suffix(s, t, d) && j <= |t| && p.two
    ensures LabelsFrom(p, s, d + j) == LabelsFrom(p, t, j)
  {
    var e := RunEnd(t, j, IsLabelChar);
    RunShift(s, t, d, j, IsLabelChar);
    SliceShift(s, t, d, j, e);
    NamespaceShift(p, s, t, d, e, t[j..e]);
  }

  /** Two positions match alike if the schemes there and the labels after them do. */
  lemma MatchesAlike(p: Pattern, s: string, t: string, d: nat, i: nat, j: nat)
    requires |s| == d + |t| && i <= |t| && j == SchemeEnd(p, i) && (LiteralAt(s, d + i, "http://") <==> LiteralAt(t, i, "http://"))
    requires j <= |t| ==> LabelsFrom(p, s, d + j) == LabelsFrom(p, t, j)
    ensures Matcher(p, s)(d + i) == Matcher(p, t)(i)
  {
    assert SchemeEnd(p, d + i) == d + j;
  }

  lemma MatchShift(p: Pattern, s: string, t: string, d: nat, i: nat)
    requires p.two && Suffix(s, t, d) && i <= |t|
    ensures Matcher(p, s)(d + i) == Matcher(p, t)(i)
  {
    var j := SchemeEnd(p, i);
    LiteralShift(s, t, d, i, "http://");
    if j <= |t| {
      LabelsShift(p, s, t, d, j);
    }
    MatchesAlike(p, s, t, d, i, j);
  }

  // ----- the leftmost match

  lemma {:induction false} LeftmostIs<T>(at: nat -> Option<T>, i: nat, n: nat) returns (j: nat)
    requires i <= n
    ensures i <= j <= n && Leftmost(at, i, n) == at(j)
    ensures forall k :: i <= k < j ==> at(k).None?
    ensures at(j).None? ==> j == n
    decreases n - i
  {
    j := i;
    if at(i).Some? || i == n {
    } else {
      j := LeftmostIs(at, i + 1, n);
    }
  }

  ghost predicate NoneBelow<T>(at: nat -> Option<T>, d: nat) {
    forall i: nat :: i < d ==> at(i).None?
  }

  /** `at` from `d` on is `from`, as far as `n`. */
  ghost predicate Agree<T(!new)>(at: nat -> Option<T>, from: nat -> Option<T>, d: nat, n: nat) {
    forall i: nat :: i <= n ==> at(d + i) == from(i)
  }

  lemma LeftmostAt<T>(at: nat -> Option<T>, n: nat, o: nat)
    requires o <= n && NoneBelow(at, o) && (o == n || at(o).Some?)
    ensures Leftmost(at, 0, n) == at(o)
  {
    var j := LeftmostIs(at, 0, n);
  }

  lemma LeftmostShift<T(!new)>(at: nat -> Option<T>, from: nat -> Option<T>, d: nat, n: nat)
    requires NoneBelow(at, d) && Agree(at, from, d, n)
    ensures Leftmost(at, 0, d + n) == Leftmost(from, 0, n)
  {
    var o := LeftmostIs(from, 0, n);
    forall i: nat | i < d + o ensures at(i).None? {
      assert i >= d ==> at(d + (i - d)) == from(i - d);
    }
    LeftmostAt(at, d + n, d + o);
  }

  lemma FindAt(p: Pattern, s: string, o: nat)
    requires o <= |s| && NoneBelow(Matcher(p, s), o) && (o == |s| || MatchAt(p, s, o).Some?)
    ensures Find(p, s) == MatchAt(p, s, o)
  {
    LeftmostAt(Matcher(p, s), |s|, o);
  }

  lemma MatchersAgree(p: Pattern, s: string, t: string, d: nat)
    requires p.two && Suffix(s, t, d)
    ensures Agree(Matcher(p, s), Matcher(p, t), d, |t|)
  {
    forall i: nat | i <= |t| ensures Matcher(p, s)(d + i) == Matcher(p, t)(i) {
      MatchShift(p, s, t, d, i);
    }
  }

  /** If no match begins before `d`, it can be searched from there. */
  lemma FindSuffix(p: Pattern, s: string, t: string, d: nat)
    requires p.two && Suffix(s, t, d) && NoneBelow(Matcher(p, s), d)
    ensures Find(p, s) == Find(p, t)
  {
    MatchersAgree(p, s, t, d);
    LeftmostShift(Matcher(p, s), Matcher(p, t), d, |t|);
  }

  // ----- a host that begins with two labels

  /** A scheme of `n` characters, a label up to `d1`, a dot and a label up to `d2`, as long as it goes. */
  ghost predicate Shape(s: string, n: nat, d1: nat, d2: nat) {
    && n < d1 && d1 + 1 < d2 <= |s|
    && (forall k :: 0 <= k < n ==> s[k] != '.') && (n > 0 ==> s[n - 1] == '/')
    && (forall k :: n <= k < d1 ==> IsLabelChar(s[k])) && s[d1] == '.'
    && (forall k :: d1 < k < d2 ==> IsLabelChar(s[k])) && (d2 < |s| ==> !IsLabelChar(s[d2]))
  }

  lemma ShapeRuns(s: string, n: nat, d1: nat, d2: nat)
    requires Shape(s, n, d1, d2)
    ensures RunEnd(s, n, IsLabelChar) == d1 && RunEnd(s, d1 + 1, IsLabelChar) == d2
  {
    RunIs(s, n, d1, IsLabelChar);
    RunIs(s, d1 + 1, d2, IsLabelChar);
  }

  /** A match of a two-label pattern is two runs of label characters with a dot between. */
  lemma MatchParts(p: Pattern, s: string, i: nat) returns (j: nat, e: nat, f: nat)
    requires p.two && i <= |s| && MatchAt(p, s, i).Some?
    ensures j == SchemeEnd(p, i) && (p.http ==> LiteralAt(s, i, "http://"))
    ensures j < e < f <= |s| && e == RunEnd(s, j, IsLabelChar) && s[e] == '.' && f == RunEnd(s, e + 1, IsLabelChar)
    ensures MatchAt(p, s, i) == Some(Captured(s[j..e], Some(s[e + 1..f]))) && TailAt(p, s, f)
  {
    j := SchemeEnd(p, i);
    e := RunEnd(s, j, IsLabelChar);
    assert s[e..e + 1] == ".";
    f := RunEnd(s, e + 1, IsLabelChar);
  }

  lemma SchemeChars(s: string, i: nat)
    requires LiteralAt(s, i, "http://")
    ensures s[i] == 'h' && s[i + 6] == '/' && forall k :: i <= k < i + 7 ==> s[k] != '.'
  {
    assert forall k :: i <= k < i + 7 ==> s[k] == s[i..i + 7][k - i];
  }

  lemma LabelAtDot(s: string, n: nat, d1: nat, d2: nat, j: nat, e: nat)
    requires Shape(s, n, d1, d2) && j < e < |s| && e == RunEnd(s, j, IsLabelChar) && s[e] == '.' && j <= d1
    ensures e == d1 && n <= j && RunEnd(s, e + 1, IsLabelChar) == d2
    ensures j > 0 && !IsLabelChar(s[j - 1]) ==> j == n
  {
    ShapeRuns(s, n, d1, d2);
    assert forall k :: j <= k < e ==> IsLabelChar(s[k]);
  }

  predicate HasHttp(s: string, n: nat) { n >= 7 && LiteralAt(s, n - 7, "http://") }

  /** The pattern matches the beginning itself. */
  predicate Owned(p: Pattern, s: string, n: nat, d2: nat) {
    (p.http ==> HasHttp(s, n)) && TailAt(p, s, d2)
  }

  /** A match that begins before the first dot is one of the beginning itself. */
  lemma MatchLies(p: Pattern, s: string, n: nat, d1: nat, d2: nat, i: nat)
    requires Shape(s, n, d1, d2) && p.two && i <= d1 && MatchAt(p, s, i).Some?
    ensures Owned(p, s, n, d2) && n <= SchemeEnd(p, i)
  {
    var j, e, f := MatchParts(p, s, i);
    if p.http {
      SchemeChars(s, i);
    }
    LabelAtDot(s, n, d1, d2, j, e);
  }

  lemma OwnLabels(p: Pattern, s: string, n: nat, d1: nat, d2: nat)
    requires Shape(s, n, d1, d2) && p.two && TailAt(p, s, d2)
    ensures LabelsFrom(p, s, n) == Some(Captured(s[n..d1], Some(s[d1 + 1..d2])))
  {
    ShapeRuns(s, n, d1, d2);
    assert s[d1..d1 + 1] == ".";
  }

  lemma OwnMatch(p: Pattern, s: string, n: nat, d1: nat, d2: nat)
    requires Shape(s, n, d1, d2) && p.two && Owned(p, s, n, d2)
    ensures MatchAt(p, s, if p.http then n - 7 else n) == Some(Captured(s[n..d1], Some(s[d1 + 1..d2])))
  {
    OwnLabels(p, s, n, d1, d2);
  }

  /** A pattern that matches the beginning finds it. */
  lemma FindOwn(p: Pattern, s: string, n: nat, d1: nat, d2: nat)
    requires Shape(s, n, d1, d2) && p.two && Owned(p, s, n, d2)
    ensures Find(p, s) == Some(Captured(s[n..d1], Some(s[d1 + 1..d2])))
  {
    var o := if p.http then n - 7 else n;
    forall i: nat | i < o ensures Matcher(p, s)(i).None? {
      if MatchAt(p, s, i).Some? {
        MatchLies(p, s, n, d1, d2, i);
      }
    }
    OwnMatch(p, s, n, d1, d2);
    FindAt(p, s, o);
  }

  /** One that does not finds what it finds after the first dot. */
  lemma FindLater(p: Pattern, s: string, n: nat, d1: nat, d2: nat, t: string)
    requires Shape(s, n, d1, d2) && p.two && !Owned(p, s, n, d2) && Suffix(s, t, d1 + 1)
    ensures Find(p, s) == Find(p, t)
  {
    forall i: nat | i < d1 + 1 ensures Matcher(p, s)(i).None? {
      if MatchAt(p, s, i).Some? {
        MatchLies(p, s, n, d1, d2, i);
      }
    }
    FindSuffix(p, s, t, d1 + 1);
  }

  // ----- which pattern reads the beginning, and what an earlier one finds

  /** `http` says that the host has the scheme `http`, `rest` is what follows its two labels. */
  predicate Owns(p: Pattern, http: bool, rest: string) {
    (p.http ==> http) && TailAt(p, rest, 0)
  }

  /** The two-label patterns are the first ten; the last of them asks for nothing more. */
  lemma TwoLabelPatterns(k: nat)
    requires k <= 9
    ensures PATTERNS[k].two && (k == 9 ==> !PATTERNS[k].http && PATTERNS[k].tail == "" && !PATTERNS[k].port)
  {
  }

  /** The first pattern, from `k` on, that matches the beginning. */
  function OwnFrom(http: bool, rest: string, k: nat): (own: nat)
    requires k <= 9
    ensures k <= own <= 9 && Owns(PATTERNS[own], http, rest)
    ensures forall m :: k <= m < own ==> !Owns(PATTERNS[m], http, rest)
    decreases 9 - k
  {
    TwoLabelPatterns(k);
    if Owns(PATTERNS[k], http, rest) then k else OwnFrom(http, rest, k + 1)
  }

  function Own(scheme: string, rest: string): nat { OwnFrom(scheme == "http://", rest, 0) }

  function Host(scheme: string, svc: string, ns: string, rest: string): string {
    scheme + svc + "." + ns + rest
  }

  predicate HostOk(scheme: string, svc: string, ns: string, rest: string) {
    Scheme(scheme) && Label(svc) && Label(ns) && (rest == "" || !IsLabelChar(rest[0]))
  }

  /** Where the parts of a host are. */
  ghost predicate Placed(scheme: string, svc: string, ns: string, rest: string, s: string, d1: nat, d2: nat) {
    && Shape(s, |scheme|, d1, d2) && (HasHttp(s, |scheme|) <==> scheme == "http://")
    && s[|scheme|..d1] == svc && s[d1 + 1..d2] == ns && Suffix(s, rest, d2) && Suffix(s, ns + rest, d1 + 1)
  }

  lemma HostParts(scheme: string, svc: string, ns: string, rest: string, s: string, d1: nat, d2: nat)
    requires s == Host(scheme, svc, ns, rest) && d1 == |scheme| + |svc| && d2 == d1 + 1 + |ns|
    ensures d2 <= |s| && s[..|scheme|] == scheme && s[|scheme|..d1] == svc && s[d1] == '.' && s[d1 + 1..d2] == ns
    ensures Suffix(s, rest, d2) && Suffix(s, ns + rest, d1 + 1)
  {
  }

  lemma SchemeOf(scheme: string, s: string)
    requires Scheme(scheme) && scheme <= s
    ensures (forall k :: 0 <= k < |scheme| ==> s[k] != '.') && (scheme != "" ==> s[|scheme| - 1] == '/')
    ensures HasHttp(s, |scheme|) <==> scheme == "http://"
  {
    assert forall k :: 0 <= k < |scheme| ==> s[k] == scheme[k];
    if HasHttp(s, |scheme|) {
      SchemeChars(s, |scheme| - 7);
    }
    if scheme == "http://" {
      assert s[0..7] == scheme;
    }
  }

  lemma HostPlaced(scheme: string, svc: string, ns: string, rest: string, s: string, d1: nat, d2: nat)
    requires HostOk(scheme, svc, ns, rest) && s == Host(scheme, svc, ns, rest)
    requires d1 == |scheme| + |svc| && d2 == d1 + 1 + |ns|
    ensures Placed(scheme, svc, ns, rest, s, d1, d2)
  {
    HostParts(scheme, svc, ns, rest, s, d1, d2);
    SchemeOf(scheme, s);
    assert forall k :: |scheme| <= k < d1 ==> s[k] == s[|scheme|..d1][k - |scheme|];
    assert forall k :: d1 < k < d2 ==> s[k] == s[d1 + 1..d2][k - d1 - 1];
    assert d2 < |s| ==> s[d2] == s[d2 + 0] == rest[0];
  }

  lemma OwnsIsOwned(p: Pattern, scheme: string, svc: string, ns: string, rest: string, s: string, d1: nat, d2: nat)
    requires Placed(scheme, svc, ns, rest, s, d1, d2)
    ensures Owns(p, scheme == "http://", rest) <==> Owned(p, s, |scheme|, d2)
  {
    TailShift(p, s, rest, d2, 0);
  }

  /** A pattern finds the two labels if it matches them, and else what it finds after the first dot. */
  lemma FindPlaced(p: Pattern, scheme: string, svc: string, ns: string, rest: string, s: string, d1: nat, d2: nat)
    requires Placed(scheme, svc, ns, rest, s, d1, d2) && p.two
    ensures Find(p, s) == if Owns(p, scheme == "http://", rest) then Some(Captured(svc, Some(ns))) else Find(p, ns + rest)
  {
    OwnsIsOwned(p, scheme, svc, ns, rest, s, d1, d2);
    if Owned(p, s, |scheme|, d2) {
      FindOwn(p, s, |scheme|, d1, d2);
    } else {
      FindLater(p, s, |scheme|, d1, d2, ns + rest);
    }
  }

  /** Up to its own pattern, a host is matched as what follows its first dot is. */
  lemma {:induction false} EarliestBefore(scheme: string, svc: string, ns: string, rest: string,
                                          s: string, d1: nat, d2: nat, n: nat)
    requires Placed(scheme, svc, ns, rest, s, d1, d2) && n <= Own(scheme, rest)
    ensures Earliest(s, n) == Earliest(ns + rest, n)
  {
    if n == 0 {
    } else {
      EarliestBefore(scheme, svc, ns, rest, s, d1, d2, n - 1);
      TwoLabelPatterns(n - 1);
      FindPlaced(PATTERNS[n - 1], scheme, svc, ns, rest, s, d1, d2);
    }
  }

  lemma EarliestOwn(scheme: string, svc: string, ns: string, rest: string, s: string, d1: nat, d2: nat, own: nat)
    requires Placed(scheme, svc, ns, rest, s, d1, d2) && own == Own(scheme, rest)
    ensures Earliest(s, own + 1) == Else(Earliest(ns + rest, own), svc, ns)
  {
    EarliestBefore(scheme, svc, ns, rest, s, d1, d2, own);
    TwoLabelPatterns(own);
    FindPlaced(PATTERNS[own], scheme, svc, ns, rest, s, d1, d2);
  }

  function Else(other: Option<Captured>, svc: string, ns: string): Option<Captured> {
    if other.Some? then other else Some(Captured(svc, Some(ns)))
  }

  /** Every host that begins with two labels: they are read, unless a pattern tried before the first one
      that matches them finds something after the first dot; then that is. */
  lemma ExtractIs(scheme: string, svc: string, ns: string, rest: string)
    requires HostOk(scheme, svc, ns, rest)
    ensures Extract(Host(scheme, svc, ns, rest)) == Named(Else(Earliest(ns + rest, Own(scheme, rest)), svc, ns))
  {
    var s, d1 := Host(scheme, svc, ns, rest), |scheme| + |svc|;
    HostPlaced(scheme, svc, ns, rest, s, d1, d1 + 1 + |ns|);
    EarliestOwn(scheme, svc, ns, rest, s, d1, d1 + 1 + |ns|, Own(scheme, rest));
    EarliestStays(s, Own(scheme, rest) + 1, |PATTERNS|);
  }

  /** So they are read exactly if nothing else is found, or the same. */
  lemma ReadIff(other: Option<Captured>, svc: string, ns: string)
    ensures Named(Else(other, svc, ns)) == Found(svc, ns) <==> other.None? || other == Some(Captured(svc, Some(ns)))
  {
  }

  // ----- which texts are read at all

  /** Two label characters with a dot between. */
  ghost predicate HasPair(s: string) {
    exists i: nat :: PairAt(s, i)
  }

  predicate PairAt(s: string, i: nat) {
    i + 2 < |s| && IsLabelChar(s[i]) && s[i + 1] == '.' && IsLabelChar(s[i + 2])
  }

  lemma FindSome(p: Pattern, s: string, i: nat)
    requires i <= |s| && MatchAt(p, s, i).Some?
    ensures Find(p, s).Some?
  {
    var j := LeftmostIs(Matcher(p, s), 0, |s|);
    assert Matcher(p, s)(i).Some?;
  }

  lemma FoundAt(p: Pattern, s: string) returns (i: nat)
    requires Find(p, s).Some?
    ensures i <= |s| && MatchAt(p, s, i) == Find(p, s)
  {
    i := LeftmostIs(Matcher(p, s), 0, |s|);
  }

  /** A two-label pattern finds only pairs, and the last of them finds every pair. */
  lemma FindsPair(p: Pattern, s: string)
    requires p.two && Find(p, s).Some?
    ensures HasPair(s) && Find(p, s).value.namespace.Some?
  {
    var i := FoundAt(p, s);
    var j, e, f := MatchParts(p, s, i);
    assert PairAt(s, e - 1);
  }

  lemma PairFound(p: Pattern, s: string, i: nat)
    requires p.two && !p.http && p.tail == "" && !p.port && PairAt(s, i)
    ensures Find(p, s).Some?
  {
    RunIs(s, i, i + 1, IsLabelChar);
    assert s[i + 1..i + 2] == ".";
    FindSome(p, s, i);
  }

  lemma {:induction false} EarliestPair(s: string, n: nat)
    requires n <= 10
    ensures Earliest(s, n).Some? ==> HasPair(s) && Earliest(s, n).value.namespace.Some?
  {
    if n == 0 {
    } else {
      EarliestPair(s, n - 1);
      TwoLabelPatterns(n - 1);
      if Find(PATTERNS[n - 1], s).Some? {
        FindsPair(PATTERNS[n - 1], s);
      }
    }
  }

  /** The last six patterns have one label, and the very last asks for nothing more. */
  lemma OneLabelPatterns(k: nat)
    requires 10 <= k < |PATTERNS|
    ensures !PATTERNS[k].two && (k == |PATTERNS| - 1 ==> !PATTERNS[k].http && PATTERNS[k].tail == "" && !PATTERNS[k].port)
  {
  }

  lemma FindsLabel(p: Pattern, s: string)
    requires !p.two && Find(p, s).Some?
    ensures Find(p, s).value.namespace.None? && exists i :: 0 <= i < |s| && IsLabelChar(s[i])
  {
    var i := FoundAt(p, s);
    var j := SchemeEnd(p, i);
    assert RunEnd(s, j, IsLabelChar) > j;
    assert IsLabelChar(s[j]);
  }

  lemma {:induction false} EarliestLabel(s: string, n: nat)
    requires 10 <= n <= |PATTERNS| && Earliest(s, 10).None?
    ensures Earliest(s, n).Some? ==> Earliest(s, n).value.namespace.None? && exists i :: 0 <= i < |s| && IsLabelChar(s[i])
  {
    if n == 10 {
    } else {
      EarliestLabel(s, n - 1);
      OneLabelPatterns(n - 1);
      if Find(PATTERNS[n - 1], s).Some? {
        FindsLabel(PATTERNS[n - 1], s);
      }
    }
  }

  lemma LabelFound(p: Pattern, s: string, i: nat)
    requires !p.two && !p.http && p.tail == "" && !p.port && i < |s| && IsLabelChar(s[i])
    ensures Find(p, s).Some?
  {
    FindSome(p, s, i);
  }

  lemma EarliestCovers(s: string, m: nat, n: nat)
    requires m < n <= |PATTERNS| && Find(PATTERNS[m], s).Some?
    ensures Earliest(s, n).Some?
  {
    EarliestStays(s, m + 1, n);
  }

  /** Every text: a service and a namespace are found exactly if it holds two labels with a dot between,
      nothing exactly if it holds no label character, and otherwise a service without a namespace. */
  lemma ExtractKinds(s: string)
    ensures Extract(s).Found? <==> HasPair(s)
    ensures Extract(s).Invalid? <==> forall i :: 0 <= i < |s| ==> !IsLabelChar(s[i])
  {
    EarliestPair(s, 10);
    if Earliest(s, 10).Some? {
      EarliestStays(s, 10, |PATTERNS|);
    } else {
      EarliestLabel(s, |PATTERNS|);
    }
    if i: nat :| PairAt(s, i) {
      TwoLabelPatterns(9);
      PairFound(PATTERNS[9], s, i);
      EarliestCovers(s, 9, 10);
    }
    if i: nat :| i < |s| && IsLabelChar(s[i]) {
      OneLabelPatterns(15);
      LabelFound(PATTERNS[15], s, i);
      EarliestCovers(s, 15, |PATTERNS|);
    }
  }
}
