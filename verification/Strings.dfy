/** The string operations of the Go standard library that the models use, on ASCII strings. */
module Strings {

  function Split(s: string, sep: char): (parts: seq<string>)
    ensures |parts| > 0
  {
    if s == "" then [""]
    else
      var rest := Split(s[1..], sep);
      if s[0] == sep then [""] + rest else [[s[0]] + rest[0]] + rest[1..]
  }

  function Join(parts: seq<string>, sep: char): string {
    if |parts| == 0 then "" else if |parts| == 1 then parts[0] else parts[0] + [sep] + Join(parts[1..], sep)
  }

  lemma {:induction false} JoinSplit(s: string, sep: char)
    ensures Join(Split(s, sep), sep) == s
  {
    if s == "" {
    } else {
      JoinSplit(s[1..], sep);
      var rest := Split(s[1..], sep);
      if s[0] == sep {
        assert ([""] + rest)[1..] == rest;
        assert s == "" + [sep] + s[1..];
      } else {
        assert ([[s[0]] + rest[0]] + rest[1..])[1..] == rest[1..];
        assert s == [s[0]] + s[1..];
      }
    }
  }

  /** An element without the separator comes off the front whole. */
  lemma {:induction false} SplitFirst(a: string, b: string, sep: char)
    requires sep !in a
    ensures Split(a + [sep] + b, sep) == [a] + Split(b, sep)
  {
    var s := a + [sep] + b;
    if a == "" {
      assert s[1..] == b;
    } else {
      assert s[1..] == a[1..] + [sep] + b;
      SplitFirst(a[1..], b, sep);
      assert [a[0]] + a[1..] == a;
    }
  }

  lemma {:induction false} SplitOne(s: string, sep: char)
    requires sep !in s
    ensures Split(s, sep) == [s]
  {
    if s == "" {
    } else {
      SplitOne(s[1..], sep);
      assert [s[0]] + s[1..] == s;
    }
  }

  /** The elements of `p` start those of `s` exactly if `s` is `p` or goes on after `p` and a separator. */
  lemma {:induction false} SplitPrefix(p: string, s: string, sep: char)
    ensures Split(p, sep) <= Split(s, sep) <==> s == p || p + [sep] <= s
  {
    if p == "" {
      if s != "" && s[0] != sep {
        assert Split(s, sep)[0] != "";
      } else if s != "" {
        assert Split(s, sep)[0] == "";
      }
    } else if s == "" {
      assert Split(p, sep)[0] != "" || |Split(p, sep)| > 1;
    } else {
      SplitPrefix(p[1..], s[1..], sep);
      assert p == [p[0]] + p[1..] && s == [s[0]] + s[1..];
      assert p + [sep] == [p[0]] + (p[1..] + [sep]);
      SplitHead(p, sep);
      SplitHead(s, sep);
      if p[0] == s[0] {
        SamePrefix(p, s, sep);
      }
    }
  }

  /** The first element starts with the first character, unless that is the separator. */
  lemma SplitHead(s: string, sep: char)
    requires s != ""
    ensures s[0] == sep ==> Split(s, sep)[0] == ""
    ensures s[0] != sep ==> Split(s, sep)[0] != "" && Split(s, sep)[0][0] == s[0]
  {
  }

  lemma SamePrefix(p: string, s: string, sep: char)
    requires p != "" && s != "" && p[0] == s[0]
    ensures Split(p, sep) <= Split(s, sep) <==> Split(p[1..], sep) <= Split(s[1..], sep)
  {
    if p[0] == sep {
      PrefixCons("", Split(p[1..], sep), "", Split(s[1..], sep));
    } else {
      GrowHead([p[0]], Split(p[1..], sep), Split(s[1..], sep));
    }
  }

  lemma GrowHead(c: string, p: seq<string>, s: seq<string>)
    requires p != [] && s != []
    ensures [c + p[0]] + p[1..] <= [c + s[0]] + s[1..] <==> p <= s
  {
    assert c + p[0] == c + s[0] ==> p[0] == s[0] by {
      assert (c + p[0])[|c|..] == p[0] && (c + s[0])[|c|..] == s[0];
    }
    PrefixCons(p[0], p[1..], s[0], s[1..]);
    PrefixCons(c + p[0], p[1..], c + s[0], s[1..]);
    assert p == [p[0]] + p[1..] && s == [s[0]] + s[1..];
  }

  lemma PrefixCons<T>(a: T, as': seq<T>, b: T, bs: seq<T>)
    ensures [a] + as' <= [b] + bs <==> a == b && as' <= bs
  {
    if [a] + as' <= [b] + bs {
      assert ([a] + as')[0] == ([b] + bs)[0];
      assert forall i :: 0 <= i < |as'| ==> as'[i] == ([a] + as')[i + 1] && bs[i] == ([b] + bs)[i + 1];
    }
  }

  function Lower(c: char): char {
    if 'A' <= c <= 'Z' then c + 32 as char else c
  }

  /** Exactly the 26 capitals change, each to its small letter. */
  lemma LowerIs(c: char)
    ensures Lower(c) as int == if 65 <= c as int <= 90 then c as int + 32 else c as int
  {
  }

  function ToLower(s: string): (r: string)
    ensures |r| == |s|
  {
    seq(|s|, i requires 0 <= i < |s| => Lower(s[i]))
  }
}
