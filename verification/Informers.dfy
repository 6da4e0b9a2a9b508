/**
 The operator's informer manager: one informer per resource and CRD, each with a stop channel that
 is closed once. Each method runs without interruption. Names are Kubernetes names, so they hold
 no slash.
 */
module Informers {
  import opened Strings

  /** A request to watch a resource on behalf of a CRD. `apiVersion` is not part of the key. */
  datatype Watch = Watch(crd: string, namespace: string, resource: string, name: string, apiVersion: string)

  datatype Info = Info(stopCh: nat, watch: Watch)

  function Key(crd: string, namespace: string, resource: string, name: string): string {
    ToLower(crd) + "/" + (ToLower(namespace) + "/" + (ToLower(resource) + "/" + ToLower(name)))
  }

  function KeyOf(w: Watch): string { Key(w.crd, w.namespace, w.resource, w.name) }

  predicate SlashFree(w: Watch) {
    '/' !in w.crd && '/' !in w.namespace && '/' !in w.resource && '/' !in w.name
  }

  /** The test by which `StopForCRD` picks its informers. */
  predicate HasPrefix(key: string, crd: string, namespace: string) {
    ToLower(crd) + "/" + ToLower(namespace) + "/" <= key
  }

  predicate BelongsTo(w: Watch, crd: string, namespace: string) {
    ToLower(w.crd) == ToLower(crd) && ToLower(w.namespace) == ToLower(namespace)
  }

  lemma LowerNoSlash(s: string)
    requires '/' !in s
    ensures '/' !in ToLower(s)
  {
  }

  lemma KeyParts(w: Watch)
    requires SlashFree(w)
    ensures Split(KeyOf(w), '/') == [ToLower(w.crd), ToLower(w.namespace), ToLower(w.resource), ToLower(w.name)]
  {
    LowerNoSlash(w.crd);
    LowerNoSlash(w.namespace);
    LowerNoSlash(w.resource);
    LowerNoSlash(w.name);
    var c := ToLower(w.resource) + "/" + ToLower(w.name);
    var b := ToLower(w.namespace) + "/" + c;
    SplitFirst(ToLower(w.crd), b, '/');
    SplitFirst(ToLower(w.namespace), c, '/');
    SplitFirst(ToLower(w.resource), ToLower(w.name), '/');
    SplitOne(ToLower(w.name), '/');
  }

  /** The prefix test finds exactly the informers of that CRD and namespace. */
  lemma PrefixIff(w: Watch, crd: string, namespace: string)
    requires SlashFree(w) && '/' !in crd && '/' !in namespace
    ensures HasPrefix(KeyOf(w), crd, namespace) <==> BelongsTo(w, crd, namespace)
  {
    var p := ToLower(crd) + "/" + ToLower(namespace);
    LowerNoSlash(crd);
    LowerNoSlash(namespace);
    SplitFirst(ToLower(crd), ToLower(namespace), '/');
    SplitOne(ToLower(namespace), '/');
    KeyParts(w);
    SplitPrefix(p, KeyOf(w), '/');
    PairPrefix(Split(p, '/'), Split(KeyOf(w), '/'));
  }

  lemma PairPrefix(p: seq<string>, k: seq<string>)
    requires |p| == 2 && |k| == 4
    ensures p <= k <==> p[0] == k[0] && p[1] == k[1]
    ensures p != k
  {
  }

  /** Keys are equal exactly if all four lower-cased parts are. */
  lemma KeyIff(v: Watch, w: Watch)
    requires SlashFree(v) && SlashFree(w)
    ensures KeyOf(v) == KeyOf(w) <==>
            BelongsTo(v, w.crd, w.namespace) && ToLower(v.resource) == ToLower(w.resource) && ToLower(v.name) == ToLower(w.name)
  {
    KeyParts(v);
    KeyParts(w);
    if KeyOf(v) == KeyOf(w) {
      var a, b := Split(KeyOf(v), '/'), Split(KeyOf(w), '/');
      assert a[0] == b[0] && a[1] == b[1] && a[2] == b[2] && a[3] == b[3];
    }
  }

  // ----- the stop channels of a map of informers

  ghost function Channels(m: map<string, Info>): set<nat> { set k | k in m :: m[k].stopCh }

  ghost predicate Distinct(m: map<string, Info>) {
    forall j, k :: j in m && k in m && m[j].stopCh == m[k].stopCh ==> j == k
  }

  ghost predicate Keyed(m: map<string, Info>) {
    forall k :: k in m ==> SlashFree(m[k].watch) && k == KeyOf(m[k].watch)
  }

  lemma WithoutKey(m: map<string, Info>, key: string)
    requires Distinct(m) && key in m
    ensures Distinct(m - {key}) && Channels(m - {key}) == Channels(m) - {m[key].stopCh}
  {
    forall c | c in Channels(m) - {m[key].stopCh} ensures c in Channels(m - {key}) {
      var k :| k in m && m[k].stopCh == c;
      assert k in m - {key};
    }
  }

  lemma WithKey(m: map<string, Info>, key: string, i: Info)
    requires Distinct(m) && key !in m && i.stopCh !in Channels(m)
    ensures Distinct(m[key := i]) && Channels(m[key := i]) == Channels(m) + {i.stopCh}
  {
    var m' := m[key := i];
    forall k | k in m' ensures k == key || m'[k].stopCh in Channels(m) {
    }
    forall c | c in Channels(m) + {i.stopCh} ensures c in Channels(m') {
      if c == i.stopCh {
        assert m'[key].stopCh == c;
      } else {
        var k :| k in m && m[k].stopCh == c;
        assert k in m' && m'[k].stopCh == c;
      }
    }
  }

  /** `m` is `before` without the informers of the CRD and namespace, as far as the keys outside `todo`. */
  ghost predicate Sifted(before: map<string, Info>, m: map<string, Info>, todo: set<string>, crd: string, namespace: string) {
    && todo <= m.Keys
    && (forall k :: k in m ==> k in before && m[k] == before[k])
    && (forall k :: k in before && k !in m ==> BelongsTo(before[k].watch, crd, namespace))
    && (forall k :: k in m && k !in todo ==> !BelongsTo(m[k].watch, crd, namespace))
  }

  lemma SiftOne(before: map<string, Info>, m: map<string, Info>, todo: set<string>, k: string, crd: string, namespace: string)
    requires Sifted(before, m, todo, crd, namespace) && Keyed(m) && k in todo && '/' !in crd && '/' !in namespace
    ensures Sifted(before, if HasPrefix(k, crd, namespace) then m - {k} else m, todo - {k}, crd, namespace)
  {
    PrefixIff(m[k].watch, crd, namespace);
  }

  class Manager {
    var informers: map<string, Info>
    ghost var open: set<nat>
    ghost var closed: set<nat>
    var next: nat

    /** The open stop channels are exactly those in the map, each there once; none was closed. */
    ghost predicate Valid()
      reads this
    {
      && Keyed(informers) && Distinct(informers)
      && open == Channels(informers) && open !! closed
      && (forall c :: c in open ==> c < next) && (forall c :: c in closed ==> c < next)
    }

    constructor ()
      ensures Valid() && informers == map[] && open == {} && closed == {}
    {
      informers, open, closed, next := map[], {}, {}, 0;
    }

    /** Closing a channel twice would panic. */
    ghost method Close(c: nat)
      requires c in open
      modifies this`open, this`closed
      ensures open == old(open) - {c} && closed == old(closed) + {c}
    {
      open, closed := open - {c}, closed + {c};
    }

    method StopInformer(key: string) returns (ok: bool)
      requires Valid()
      modifies this
      ensures Valid() && ok == (key in old(informers)) && informers == old(informers) - {key}
      ensures closed == if ok then old(closed) + {old(informers)[key].stopCh} else old(closed)
      ensures next == old(next)
    {
      if key !in informers {
        assert informers == informers - {key};
        return false;
      }
      WithoutKey(informers, key);
      assert informers[key].stopCh in Channels(informers);
      Close(informers[key].stopCh);
      informers := informers - {key};
      return true;
    }

    /** Starts an informer unless one with the key runs. `found`, `handled` and `synced` are the
        answers of the cluster; if any is no, no informer is left behind. */
    method Add(w: Watch, found: bool, handled: bool, synced: bool) returns (ok: bool)
      requires Valid() && SlashFree(w)
      modifies this
      ensures Valid() && ok == (KeyOf(w) in old(informers) || (found && handled && synced))
      ensures informers == if ok && KeyOf(w) !in old(informers) then old(informers)[KeyOf(w) := Info(old(next), w)] else old(informers)
    {
      if KeyOf(w) in informers {
        return true;
      }
      if !found {
        return false;
      }
      ok := EnableInformer(w, handled, synced);
    }

    method EnableInformer(w: Watch, handled: bool, synced: bool) returns (ok: bool)
      requires Valid() && SlashFree(w) && KeyOf(w) !in informers
      modifies this
      ensures Valid() && ok == (handled && synced)
      ensures informers == if ok then old(informers)[KeyOf(w) := Info(old(next), w)] else old(informers)
      ensures closed == if handled && !synced then old(closed) + {old(next)} else old(closed)
    {
      if !handled {
        return false;
      }
      var key := KeyOf(w);
      var stopCh := RunAndStore(key, w);
      ok := synced;
      if !synced {
        WithoutKey(informers, key);
        Close(stopCh);
        informers := informers - {key};
        assert informers == old(informers);
      }
    }

    method RunAndStore(key: string, w: Watch) returns (stopCh: nat)
      requires Valid() && SlashFree(w) && key == KeyOf(w) && key !in informers
      modifies this
      ensures Valid() && stopCh == old(next) && informers == old(informers)[key := Info(stopCh, w)]
      ensures open == old(open) + {stopCh} && closed == old(closed)
    {
      stopCh := next;
      WithKey(informers, key, Info(stopCh, w));
      next, open := next + 1, open + {stopCh};
      informers := informers[key := Info(stopCh, w)];
    }

    /** Stops the informers of the CRD and namespace, and no others. */
    method StopForCRD(crd: string, namespace: string)
      requires Valid() && '/' !in crd && '/' !in namespace
      modifies this
      ensures Valid()
      ensures informers == map k | k in old(informers) && !BelongsTo(old(informers)[k].watch, crd, namespace) :: old(informers)[k]
    {
      var todo := informers.Keys;
      while todo != {}
        invariant Valid() && Sifted(old(informers), informers, todo, crd, namespace)
        decreases todo
      {
        var k :| k in todo;
        SiftOne(old(informers), informers, todo, k, crd, namespace);
        todo := todo - {k};
        if HasPrefix(k, crd, namespace) {
          var ok := StopInformer(k);
        }
      }
    }

    method Stop()
      requires Valid()
      modifies this
      ensures Valid() && informers == map[] && open == {}
    {
      var todo := informers.Keys;
      while todo != {}
        invariant Valid() && informers.Keys == todo
        decreases todo
      {
        var k :| k in todo;
        todo := todo - {k};
        var ok := StopInformer(KeyOf(informers[k].watch));
      }
    }
  }
}
