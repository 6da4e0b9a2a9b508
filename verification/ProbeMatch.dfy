/**
 Matching a request against the probe-response rules of an ElastiService. Regular expressions and
 header-name canonicalisation come from libraries and are parameters; strings are ASCII.
 */
module ProbeMatch {
  import opened Options
  import opened Strings

  // ----- strings

  predicate IsSpace(c: char) { c in "\t\n\r " || c == '\U{000B}' || c == '\U{000C}' }

  function TrimLeft(s: string): string {
    if s != "" && IsSpace(s[0]) then TrimLeft(s[1..]) else s
  }

  function TrimRight(s: string): string {
    if s != "" && IsSpace(s[|s| - 1]) then TrimRight(s[..|s| - 1]) else s
  }

  function Trim(s: string): string { TrimRight(TrimLeft(s)) }

  predicate EqualFold(a: string, b: string) {
    |a| == |b| && forall i :: 0 <= i < |a| ==> Lower(a[i]) == Lower(b[i])
  }

  // ----- path prefixes

  predicate PathPrefix(path: string, prefix: string) {
    if prefix == "" || prefix == "/" then "/" <= path
    else if path == prefix then true
    else if !(prefix <= path) then false
    else if prefix[|prefix| - 1] == '/' then true
    else |path| > |prefix| && path[|prefix|] == '/'
  }

  /** Matching is by whole path elements, as PathPrefix of the Gateway API asks. */
  lemma ElementWise(path: string, prefix: string)
    requires prefix != "" && prefix[|prefix| - 1] != '/'
    ensures PathPrefix(path, prefix) <==> Split(prefix, '/') <= Split(path, '/')
  {
    SplitPrefix(prefix, path, '/');
    if prefix + ['/'] <= path {
      assert path[|prefix|] == (prefix + ['/'])[|prefix|];
      assert prefix <= path;
    }
  }

  /** An empty prefix and "/" match every path that begins with a slash, and no other. */
  lemma RootPrefix(path: string)
    ensures PathPrefix(path, "") <==> path != "" && path[0] == '/'
    ensures PathPrefix(path, "/") <==> path != "" && path[0] == '/'
  {
  }

  /** A trailing slash is not ignored: it asks for the same elements and at least a slash after them. */
  lemma TrailingSlash(path: string, prefix: string)
    requires prefix != "" && prefix[|prefix| - 1] != '/'
    ensures PathPrefix(path, prefix + "/") <==> PathPrefix(path, prefix) && path != prefix
  {
  }

  /** What matches a matching prefix matches, for every prefix. */
  lemma Transitive(a: string, b: string, c: string)
    requires PathPrefix(b, a) && PathPrefix(c, b)
    ensures PathPrefix(c, a)
  {
  }

  // ----- rules

  datatype PathMatch = PathMatch(kind: string, value: string)
  datatype ValueMatch = ValueMatch(name: string, kind: string, value: string)
  datatype Rule = Rule(verb: Option<string>, path: Option<PathMatch>, headers: seq<ValueMatch>,
                       queryParams: seq<ValueMatch>, status: int, body: string)
  datatype Request = Request(verb: string, path: string, headers: map<string, seq<string>>,
                             query: map<string, seq<string>>)

  /** `compile` gives the matcher of a regular expression, if it is one. */
  datatype Library = Library(compile: string -> Option<string -> bool>, canonical: string -> string)

  predicate VerbOk(rule: Option<string>, verb: string) {
    rule.None? || Trim(rule.value) == "" || EqualFold(Trim(rule.value), verb)
  }

  /** The white space of ASCII: tab, line feed, vertical tab, form feed, carriage return and space. */
  lemma SpacesAre(c: char)
    ensures IsSpace(c) <==> c as int in {9, 10, 11, 12, 13, 32}
  {
  }

  ghost predicate Blank(s: string) { forall i :: 0 <= i < |s| ==> IsSpace(s[i]) }

  lemma {:induction false} TrimLeftIs(s: string) returns (lead: string)
    ensures s == lead + TrimLeft(s) && Blank(lead) && (TrimLeft(s) != "" ==> !IsSpace(TrimLeft(s)[0]))
  {
    if s == "" || !IsSpace(s[0]) {
      lead := "";
    } else {
      lead := TrimLeftIs(s[1..]);
      lead := [s[0]] + lead;
    }
  }

  lemma {:induction false} TrimRightIs(s: string) returns (trail: string)
    ensures s == TrimRight(s) + trail && Blank(trail) && (TrimRight(s) != "" ==> !IsSpace(TrimRight(s)[|TrimRight(s)| - 1]))
  {
    if s == "" || !IsSpace(s[|s| - 1]) {
      trail := "";
    } else {
      trail := TrimRightIs(s[..|s| - 1]);
      trail := trail + [s[|s| - 1]];
    }
  }

  /** Trimming removes the white space at both ends, all of it, and nothing else. */
  lemma TrimIs(s: string) returns (lead: string, trail: string)
    ensures s == lead + Trim(s) + trail && Blank(lead) && Blank(trail)
    ensures Trim(s) != "" ==> !IsSpace(Trim(s)[0]) && !IsSpace(Trim(s)[|Trim(s)| - 1])
  {
    lead := TrimLeftIs(s);
    trail := TrimRightIs(TrimLeft(s));
    var m := TrimLeft(s);
    assert Trim(s) != "" ==> Trim(s)[0] == m[0];
  }

  lemma {:induction false} FoldIsLower(a: string, b: string)
    ensures EqualFold(a, b) <==> ToLower(a) == ToLower(b)
  {
    LowerAt(a);
    LowerAt(b);
    if ToLower(a) == ToLower(b) {
      assert forall i :: 0 <= i < |a| ==> ToLower(a)[i] == ToLower(b)[i];
    }
  }

  lemma {:induction false} LowerAt(a: string)
    ensures |ToLower(a)| == |a| && forall i :: 0 <= i < |a| ==> ToLower(a)[i] == Lower(a[i])
  {
  }

  /** No method, or a blank one, admits every verb; else the verb is the method's in upper or lower case. */
  lemma VerbIff(rule: Option<string>, verb: string)
    ensures VerbOk(rule, verb) <==> rule.None? || Blank(rule.value) || ToLower(Trim(rule.value)) == ToLower(verb)
  {
    if rule.Some? {
      FoldIsLower(Trim(rule.value), verb);
      var lead, trail := TrimIs(rule.value);
      assert Trim(rule.value) != "" ==> rule.value[|lead|] == Trim(rule.value)[0];
    }
  }

  /** Which test a path match stands for, by its kind in upper or lower case. */
  lemma PathKinds(l: Library, path: string, p: PathMatch)
    ensures PathOk(l, path, None) <==> "/" <= path
    ensures ToLower(Trim(p.kind)) == ToLower("Exact") ==> (PathOk(l, path, Some(p)) <==> path == p.value)
    ensures ToLower(Trim(p.kind)) == ToLower("RegularExpression") ==>
              (PathOk(l, path, Some(p)) <==> l.compile(p.value).Some? && l.compile(p.value).value(path))
    ensures ToLower(Trim(p.kind)) !in {ToLower("Exact"), ToLower("RegularExpression")} ==>
              (PathOk(l, path, Some(p)) <==> PathPrefix(path, p.value))
  {
    FoldIsLower(Trim(p.kind), "Exact");
    FoldIsLower(Trim(p.kind), "RegularExpression");
    FoldIsLower("Exact", "RegularExpression");
  }

  predicate RegexOk(l: Library, pattern: string, s: string) {
    l.compile(pattern).Some? && l.compile(pattern).value(s)
  }

  /** An omitted path is the prefix "/", an unknown kind is PathPrefix. */
  predicate PathOk(l: Library, path: string, p: Option<PathMatch>) {
    if p.None? then "/" <= path
    else
      var kind := Trim(p.value.kind);
      if EqualFold(kind, "Exact") then path == p.value.value
      else if EqualFold(kind, "RegularExpression") then RegexOk(l, p.value.value, path)
      else PathPrefix(path, p.value.value)
  }

  /** Some value of the header or parameter equals the rule's value or matches its expression. */
  predicate ValueOk(l: Library, m: ValueMatch, values: seq<string>) {
    exists v :: v in values && Hit(l, m, v)
  }

  predicate Hit(l: Library, m: ValueMatch, v: string) {
    if EqualFold(Trim(m.kind), "RegularExpression") then RegexOk(l, m.value, v) else v == m.value
  }

  /** A value is tried as an expression exactly if the kind says so, in upper or lower case; else it is compared. */
  lemma HitKinds(l: Library, m: ValueMatch, v: string)
    ensures ToLower(Trim(m.kind)) == ToLower("RegularExpression") ==>
              (Hit(l, m, v) <==> l.compile(m.value).Some? && l.compile(m.value).value(v))
    ensures ToLower(Trim(m.kind)) != ToLower("RegularExpression") ==> (Hit(l, m, v) <==> v == m.value)
  {
    FoldIsLower(Trim(m.kind), "RegularExpression");
  }

  function Values(m: map<string, seq<string>>, key: string): seq<string> {
    if key in m then m[key] else []
  }

  ghost predicate HeaderOk(l: Library, m: ValueMatch, headers: map<string, seq<string>>) {
    var key := l.canonical(Trim(m.name));
    Trim(m.name) != "" && key in headers && ValueOk(l, m, headers[key])
  }

  ghost predicate ParamOk(l: Library, m: ValueMatch, query: map<string, seq<string>>) {
    Trim(m.name) != "" && m.name in query && ValueOk(l, m, query[m.name])
  }

  ghost predicate RuleOk(l: Library, r: Rule, req: Request) {
    && VerbOk(r.verb, req.verb)
    && PathOk(l, req.path, r.path)
    && (forall m :: m in r.headers ==> HeaderOk(l, m, req.headers))
    && (forall m :: m in r.queryParams ==> ParamOk(l, m, req.query))
  }

  datatype Outcome = Matches | Differs | Error

  method PathMatches(l: Library, path: string, p: Option<PathMatch>) returns (o: Outcome)
    ensures o.Matches? <==> PathOk(l, path, p)
    ensures o.Error? <==> p.Some? && EqualFold(Trim(p.value.kind), "RegularExpression") && l.compile(p.value.value).None?
  {
    var kind, value := "PathPrefix", "/";
    if p.Some? {
      kind, value := Trim(p.value.kind), p.value.value;
      if kind == "" {
        kind := "PathPrefix";
      }
    }
    if EqualFold(kind, "Exact") {
      o := if path == value then Matches else Differs;
    } else if EqualFold(kind, "RegularExpression") {
      var re := l.compile(value);
      o := if re.None? then Error else if re.value(path) then Matches else Differs;
    } else {
      o := if PathPrefix(path, if value == "" then "/" else value) then Matches else Differs;
    }
  }

  /** The rule's own fault: its expression does not compile, and there are values to try it on. */
  predicate BadRegex(l: Library, m: ValueMatch, values: seq<string>) {
    values != [] && EqualFold(Trim(m.kind), "RegularExpression") && l.compile(m.value).None?
  }

  method ValueMatches(l: Library, m: ValueMatch, values: seq<string>) returns (o: Outcome)
    ensures o.Matches? <==> ValueOk(l, m, values)
    ensures o.Error? <==> BadRegex(l, m, values)
  {
    if |values| == 0 {
      return Differs;
    }
    var regex := EqualFold(Trim(m.kind), "RegularExpression");
    if regex && l.compile(m.value).None? {
      return Error;
    }
    for i := 0 to |values|
      invariant forall v :: v in values[..i] ==> !Hit(l, m, v)
    {
      if (if regex then l.compile(m.value).value(values[i]) else values[i] == m.value) {
        assert Hit(l, m, values[i]);
        return Matches;
      }
    }
    assert values[..|values|] == values;
    return Differs;
  }

  predicate BadHeader(l: Library, m: ValueMatch, headers: map<string, seq<string>>) {
    var key := l.canonical(Trim(m.name));
    Trim(m.name) == "" || (key in headers && BadRegex(l, m, headers[key]))
  }

  method HeadersMatch(l: Library, rules: seq<ValueMatch>, headers: map<string, seq<string>>) returns (o: Outcome)
    ensures o.Matches? <==> forall m :: m in rules ==> HeaderOk(l, m, headers)
    ensures o.Error? <==> exists k :: 0 <= k < |rules| && BadHeader(l, rules[k], headers)
                                      && (forall m :: m in rules[..k] ==> HeaderOk(l, m, headers))
  {
    for i := 0 to |rules|
      invariant forall m :: m in rules[..i] ==> HeaderOk(l, m, headers)
    {
      if Trim(rules[i].name) == "" {
        assert !HeaderOk(l, rules[i], headers);
        return Error;
      }
      o := ValueMatches(l, rules[i], Values(headers, l.canonical(Trim(rules[i].name))));
      if !o.Matches? {
        assert !HeaderOk(l, rules[i], headers);
        assert forall k :: i < k < |rules| ==> rules[i] in rules[..k];
        assert forall k :: 0 <= k < i ==> rules[k] in rules[..i];
        return;
      }
    }
    assert rules[..|rules|] == rules;
    assert forall k :: 0 <= k < |rules| ==> rules[k] in rules;
    return Matches;
  }

  method QueryParamsMatch(l: Library, rules: seq<ValueMatch>, query: map<string, seq<string>>) returns (ok: bool)
    ensures ok <==> forall m :: m in rules ==> ParamOk(l, m, query)
  {
    for i := 0 to |rules|
      invariant forall m :: m in rules[..i] ==> ParamOk(l, m, query)
    {
      if Trim(rules[i].name) == "" {
        assert !ParamOk(l, rules[i], query);
        return false;
      }
      var o := ValueMatches(l, rules[i], Values(query, rules[i].name));
      if !o.Matches? {
        assert !ParamOk(l, rules[i], query);
        return false;
      }
    }
    assert rules[..|rules|] == rules;
    return true;
  }

  datatype Response = Response(body: string, status: int)

  /** A status left out of the rule is 200. */
  function Reply(r: Rule): Response { Response(r.body, if r.status == 0 then 200 else r.status) }

  /** The response of the first rule that matches in full; a rule in error is passed over. */
  method MatchProbeResponse(l: Library, rules: seq<Rule>, req: Request) returns (r: Option<Response>)
    ensures r.None? <==> forall k :: 0 <= k < |rules| ==> !RuleOk(l, rules[k], req)
    ensures r.Some? ==> exists k :: 0 <= k < |rules| && RuleOk(l, rules[k], req)
                                    && (forall j :: 0 <= j < k ==> !RuleOk(l, rules[j], req))
                                    && r.value.body == rules[k].body
                                    && r.value.status == if rules[k].status == 0 then 200 else rules[k].status
  {
    for i := 0 to |rules|
      invariant forall j :: 0 <= j < i ==> !RuleOk(l, rules[j], req)
    {
      var rule := rules[i];
      if !VerbOk(rule.verb, req.verb) {
        continue;
      }
      var path := PathMatches(l, req.path, rule.path);
      if !path.Matches? {
        continue;
      }
      var headers := HeadersMatch(l, rule.headers, req.headers);
      if !headers.Matches? {
        continue;
      }
      var query := QueryParamsMatch(l, rule.queryParams, req.query);
      if !query {
        continue;
      }
      assert RuleOk(l, rules[i], req);
      return Some(Reply(rule));
    }
    return None;
  }
}
