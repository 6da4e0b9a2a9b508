/**
 The matcher of `HostNames` against the regular expressions it stands for. A match is any way to cut
 the text into the runs and literals of the pattern; among the matches from one position the leftmost
 group prefers the longest run, then the next. `MatchAt` takes each run as long as it goes and never
 looks back, and this is the preferred match, and finds one whenever there is one.
 */
module HostMatch {
  import opened HostNames
  import opened Options

  /** One or more `ok` characters, not necessarily as many as there are. */
  predicate RunAt(s: string, i: nat, e: nat, ok: char -> bool) {
    i < e <= |s| && forall k :: i <= k < e ==> ok(s[k])
  }

  /** A port up to `d`, and the wildcard if the pattern has one. */
  predicate PortCut(p: Pattern, s: string, i: nat, d: nat) {
    LiteralAt(s, i, ":") && RunAt(s, i + 1, d, IsDigit) && (p.star ==> LiteralAt(s, d, "/*"))
  }

  ghost predicate PortMatches(p: Pattern, s: string, i: nat) {
    exists d: nat :: PortCut(p, s, i, d)
  }

  ghost predicate TailMatches(p: Pattern, s: string, i: nat) {
    LiteralAt(s, i, p.tail) && (p.port ==> PortMatches(p, s, i + |p.tail|))
  }

  /** `p` up to its last label matches from `i`, its first label up to `e` and its last up to `f`. */
  predicate Labels(p: Pattern, s: string, i: nat, e: nat, f: nat) {
    && (p.http ==> LiteralAt(s, i, "http://"))
    && RunAt(s, SchemeEnd(p, i), e, IsLabelChar)
    && (if p.two then LiteralAt(s, e, ".") && RunAt(s, e + 1, f, IsLabelChar) else f == e)
  }

  ghost predicate Cut(p: Pattern, s: string, i: nat, e: nat, f: nat) {
    Labels(p, s, i, e, f) && TailMatches(p, s, f)
  }

  /** The match of greedy runs: no other has a longer first run, or as long a one and a longer second. */
  ghost predicate Preferred(p: Pattern, s: string, i: nat, e: nat, f: nat) {
    Cut(p, s, i, e, f) && forall e': nat, f': nat | Cut(p, s, i, e', f') :: e' < e || (e' == e && f' <= f)
  }

  function Captures(p: Pattern, s: string, i: nat, e: nat, f: nat): Captured
    requires SchemeEnd(p, i) <= e <= |s| && (p.two ==> e + 1 <= f <= |s|)
  {
    Captured(s[SchemeEnd(p, i)..e], if p.two then Some(s[e + 1..f]) else None)
  }

  /** What follows a label in a pattern is the end or not a label character. */
  predicate Delimited(p: Pattern) { p.tail == "" || p.tail[0] == '.' }

  lemma PatternsDelimited(k: nat)
    requires k < |PATTERNS|
    ensures Delimited(PATTERNS[k])
  {
  }

  lemma LongestRun(s: string, i: nat, e: nat, ok: char -> bool)
    requires i <= |s| && RunAt(s, i, e, ok)
    ensures e <= RunEnd(s, i, ok) && (e < RunEnd(s, i, ok) ==> ok(s[e]))
  {
  }

  /** If a run of digits ends at the end of the pattern or at a slash, so does the longest. */
  lemma PortIsLongest(p: Pattern, s: string, i: nat, d: nat)
    requires PortCut(p, s, i, d)
    ensures PortAt(p, s, i)
  {
    LongestRun(s, i + 1, d, IsDigit);
    if p.star {
      assert s[d] == s[d..d + 2][0] == '/';
    }
  }

  lemma PortAgrees(p: Pattern, s: string, i: nat)
    ensures PortAt(p, s, i) <==> PortMatches(p, s, i)
  {
    if PortAt(p, s, i) {
      assert PortCut(p, s, i, RunEnd(s, i + 1, IsDigit));
    }
    if d: nat :| PortCut(p, s, i, d) {
      PortIsLongest(p, s, i, d);
    }
  }

  lemma TailAgrees(p: Pattern, s: string, i: nat)
    ensures TailAt(p, s, i) <==> TailMatches(p, s, i)
  {
    PortAgrees(p, s, i + |p.tail|);
  }

  /** A label that the tail follows is as long as it can be, or nothing need follow it. */
  lemma LabelEnds(p: Pattern, s: string, i: nat, f: nat)
    requires Delimited(p) && i <= |s| && RunAt(s, i, f, IsLabelChar) && TailMatches(p, s, f)
    ensures var e := RunEnd(s, i, IsLabelChar); f <= e && TailMatches(p, s, e)
  {
    LongestRun(s, i, f, IsLabelChar);
    if p.tail != "" {
      assert s[f] == s[f..f + |p.tail|][0] == '.';
    } else if p.port {
      assert PortMatches(p, s, f);
      assert s[f] == s[f..f + 1][0] == ':';
    }
  }

  /** A label that a dot follows is as long as it can be. */
  lemma DotEnds(s: string, i: nat, e: nat)
    requires i <= |s| && RunAt(s, i, e, IsLabelChar) && LiteralAt(s, e, ".")
    ensures e == RunEnd(s, i, IsLabelChar)
  {
    LongestRun(s, i, e, IsLabelChar);
    assert s[e] == s[e..e + 1][0] == '.';
  }

  /** Where `MatchAt` cuts, if it matches. */
  function FirstEnd(p: Pattern, s: string, i: nat): nat {
    if SchemeEnd(p, i) <= |s| then RunEnd(s, SchemeEnd(p, i), IsLabelChar) else 0
  }

  function LastEnd(p: Pattern, s: string, i: nat): nat {
    var e := FirstEnd(p, s, i);
    if p.two && e + 1 <= |s| then RunEnd(s, e + 1, IsLabelChar) else e
  }

  /** Every match from `i` is at most as long, run for run, as the greedy cut, which is one too. */
  lemma CutIsGreedy(p: Pattern, s: string, i: nat, e: nat, f: nat)
    requires Delimited(p) && Cut(p, s, i, e, f)
    ensures var e', f' := FirstEnd(p, s, i), LastEnd(p, s, i);
            Cut(p, s, i, e', f') && (e < e' || (e == e' && f <= f'))
  {
    if p.two {
      DotEnds(s, SchemeEnd(p, i), e);
      LabelEnds(p, s, e + 1, f);
    } else {
      LabelEnds(p, s, SchemeEnd(p, i), f);
    }
  }

  lemma LabelsAt(p: Pattern, s: string, i: nat)
    requires i <= |s|
    ensures var e, f := FirstEnd(p, s, i), LastEnd(p, s, i);
            && f <= |s|
            && MatchAt(p, s, i) == if Labels(p, s, i, e, f) && TailAt(p, s, f) then Some(Captures(p, s, i, e, f)) else None
  {
  }

  /** The matcher succeeds exactly if its own cut is a match, and returns what that cut captures. */
  lemma MatchAtIsCut(p: Pattern, s: string, i: nat)
    requires i <= |s|
    ensures var e, f := FirstEnd(p, s, i), LastEnd(p, s, i);
            if Cut(p, s, i, e, f) then MatchAt(p, s, i) == Some(Captures(p, s, i, e, f)) else MatchAt(p, s, i).None?
  {
    LabelsAt(p, s, i);
    TailAgrees(p, s, LastEnd(p, s, i));
  }

  /** For each of the sixteen patterns: the matcher fails if and only if there is no match from `i`, and
      otherwise returns what the preferred one captures. */
  lemma MatchesRegexp(k: nat, s: string, i: nat)
    requires k < |PATTERNS| && i <= |s|
    ensures var p := PATTERNS[k];
            if exists e: nat, f: nat :: Cut(p, s, i, e, f)
            then exists e: nat, f: nat :: Preferred(p, s, i, e, f) && MatchAt(p, s, i) == Some(Captures(p, s, i, e, f))
            else MatchAt(p, s, i).None?
  {
    var p := PATTERNS[k];
    PatternsDelimited(k);
    MatchAtIsCut(p, s, i);
    var e', f' := FirstEnd(p, s, i), LastEnd(p, s, i);
    forall e: nat, f: nat | Cut(p, s, i, e, f)
      ensures Cut(p, s, i, e', f') && (e < e' || (e == e' && f <= f'))
    {
      CutIsGreedy(p, s, i, e, f);
    }
    if e: nat, f: nat :| Cut(p, s, i, e, f) {
      assert Preferred(p, s, i, e', f');
    }
  }
}
