/** Reading a service and a namespace out of a host. */
module HostNames {
  import opened Options

  // ----- the sixteen patterns

  /** A pattern `[http://]label[.label]tail[:digits][wildcard]`, each label captured. */
  datatype Pattern = Pattern(http: bool, two: bool, tail: string, port: bool, star: bool)

  const CLUSTER := ".svc.cluster.local"

  const PATTERNS: seq<Pattern> := [
    Pattern(true, true, CLUSTER, true, true),
    Pattern(false, true, CLUSTER, true, true),
    Pattern(true, true, CLUSTER, true, false),
    Pattern(false, true, CLUSTER, true, false),
    Pattern(true, true, CLUSTER, false, false),
    Pattern(false, true, CLUSTER, false, false),
    Pattern(true, true, ".svc", false, false),
    Pattern(false, true, ".svc", false, false),
    Pattern(true, true, "", false, false),
    Pattern(false, true, "", false, false),
    Pattern(true, false, CLUSTER, false, false),
    Pattern(false, false, CLUSTER, false, false),
    Pattern(true, false, ".svc", false, false),
    Pattern(false, false, ".svc", false, false),
    Pattern(true, false, "", false, false),
    Pattern(false, false, "", false, false)
  ]

  /** The order of the patterns: with the scheme before without, two labels before one, the longer suffix
      before the shorter, and for the longest with two labels port and wildcard, then port, then neither. */
  lemma PatternOrder(k: nat)
    requires k < 16
    ensures |PATTERNS| == 16
    ensures var p := PATTERNS[k];
            && (p.http <==> k % 2 == 0) && (p.two <==> k < 10) && (p.port <==> k < 4) && (p.star <==> k < 2)
            && p.tail == (if k < 6 || k in {10, 11} then ".svc.cluster.local" else if k in {6, 7, 12, 13} then ".svc" else "")
  {
  }

  predicate IsDigit(c: char) { '0' <= c <= '9' }

  predicate IsLabelChar(c: char) { IsDigit(c) || 'a' <= c <= 'z' || 'A' <= c <= 'Z' || c == '-' }

  /** The characters of `[a-zA-Z0-9-]` and of `\d`, by their codes. */
  lemma CharactersAre(c: char)
    ensures IsDigit(c) <==> 48 <= c as int <= 57
    ensures IsLabelChar(c) <==> c as int == 45 || 48 <= c as int <= 57 || 65 <= c as int <= 90 || 97 <= c as int <= 122
  {
  }

  /** The end of the longest run of `ok` characters from `i`. */
  function RunEnd(s: string, i: nat, ok: char -> bool): (e: nat)
    requires i <= |s|
    ensures i <= e <= |s| && (forall k :: i <= k < e ==> ok(s[k])) && (e < |s| ==> !ok(s[e]))
    decreases |s| - i
  {
    if i < |s| && ok(s[i]) then RunEnd(s, i + 1, ok) else i
  }

  predicate LiteralAt(s: string, i: nat, lit: string) {
    i + |lit| <= |s| && s[i..i + |lit|] == lit
  }

  datatype Captured = Captured(service: string, namespace: Option<string>)

  /** A colon and digits, as many as there are, then the wildcard if the pattern has one. */
  predicate PortAt(p: Pattern, s: string, i: nat) {
    LiteralAt(s, i, ":") &&
    var d := RunEnd(s, i + 1, IsDigit);
    i + 1 < d && (p.star ==> LiteralAt(s, d, "/*"))
  }

  /** What follows the last label matches. */
  predicate TailAt(p: Pattern, s: string, i: nat) {
    LiteralAt(s, i, p.tail) && (p.port ==> PortAt(p, s, i + |p.tail|))
  }

  function SchemeEnd(p: Pattern, i: nat): nat { if p.http then i + 7 else i }

  /** A dot at `e`, the label after it and what follows. */
  function NamespaceFrom(p: Pattern, s: string, e: nat, service: string): Option<Captured>
    requires e <= |s|
  {
    if !LiteralAt(s, e, ".") then None
    else
      var f := RunEnd(s, e + 1, IsLabelChar);
      if e + 1 < f && TailAt(p, s, f) then Some(Captured(service, Some(s[e + 1..f]))) else None
  }

  /** The labels from `j` and what follows them. Each run is taken as long as it goes; `HostMatch` shows
      that no shorter one is ever needed. */
  function LabelsFrom(p: Pattern, s: string, j: nat): Option<Captured>
    requires j <= |s|
  {
    var e := RunEnd(s, j, IsLabelChar);
    if e == j then None
    else if p.two then NamespaceFrom(p, s, e, s[j..e])
    else if TailAt(p, s, e) then Some(Captured(s[j..e], None))
    else None
  }

  /** The match of `p` that begins at `i`, if any. */
  function MatchAt(p: Pattern, s: string, i: nat): Option<Captured>
    requires i <= |s|
  {
    if p.http && !LiteralAt(s, i, "http://") then None else LabelsFrom(p, s, SchemeEnd(p, i))
  }

  /** The first result of `at` from `i` up to `n`. */
  function Leftmost<T>(at: nat -> Option<T>, i: nat, n: nat): Option<T>
    requires i <= n
    decreases n - i
  {
    if at(i).Some? then at(i) else if i < n then Leftmost(at, i + 1, n) else None
  }

  function Matcher(p: Pattern, s: string): nat -> Option<Captured> {
    (i: nat) => if i <= |s| then MatchAt(p, s, i) else None
  }

  /** The leftmost match of `p`. */
  function Find(p: Pattern, s: string): Option<Captured> {
    Leftmost(Matcher(p, s), 0, |s|)
  }

  /** What the first of the first `n` patterns to match captures. */
  function Earliest(s: string, n: nat): Option<Captured>
    requires n <= |PATTERNS|
  {
    if n == 0 then None
    else if Earliest(s, n - 1).Some? then Earliest(s, n - 1)
    else Find(PATTERNS[n - 1], s)
  }

  /** `NoNamespace` is an error that still names a service and the namespace "default". */
  datatype Extracted = Found(service: string, namespace: string) | NoNamespace(service: string) | Invalid

  function Named(c: Option<Captured>): Extracted {
    match c
    case None => Invalid
    case Some(Captured(service, Some(namespace))) => Found(service, namespace)
    case Some(Captured(service, None)) => NoNamespace(service)
  }

  function Extract(s: string): Extracted { Named(Earliest(s, |PATTERNS|)) }

  /** Once a pattern has matched, the later ones do not matter. */
  lemma {:induction false} EarliestStays(s: string, m: nat, n: nat)
    requires m <= n <= |PATTERNS| && Earliest(s, m).Some?
    ensures Earliest(s, n) == Earliest(s, m)
  {
    if m == n {
    } else {
      EarliestStays(s, m, n - 1);
    }
  }

  lemma FirstMatchDecides(s: string, k: nat)
    requires k < |PATTERNS| && Earliest(s, k).None? && Find(PATTERNS[k], s).Some?
    ensures Extract(s) == Named(Find(PATTERNS[k], s))
  {
    EarliestStays(s, k + 1, |PATTERNS|);
  }

  method ExtractNamespaceAndService(url: string) returns (r: Extracted)
    ensures r == Extract(url)
  {
    for k := 0 to |PATTERNS|
      invariant Earliest(url, k).None?
    {
      var matches := Find(PATTERNS[k], url);
      if matches.Some? {
        FirstMatchDecides(url, k);
        if matches.value.namespace.Some? {
          return Found(matches.value.service, matches.value.namespace.value);
        }
        return NoNamespace(matches.value.service);
      }
    }
    return Invalid;
  }

  predicate Label(s: string) {
    s != "" && forall i :: 0 <= i < |s| ==> IsLabelChar(s[i])
  }

  predicate Scheme(s: string) { s in {"", "http://", "https://"} }
}
