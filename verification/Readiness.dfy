/**
 The throttler's readiness cache. Goroutines look a service up, ask the cluster on a miss, store
 the answer and arm a timer that deletes it again; each of these is a step of its own, so misses
 of one service overlap freely.

 A goroutine with the answer in hand takes at most `lag` to store it and arm its timer, and a
 timer fires when it is due; the clock does not pass either.
 */
module Readiness {

  datatype Config = Config(duration: nat, lag: nat)

  /** `answered` is when the cluster said the service is active. */
  datatype Pc =
    | Idle
    | Asking(key: string)
    | Storing(key: string, answered: nat)
    | Arming(key: string, answered: nat)

  datatype Timer = Timer(key: string, due: nat)

  /** `ready` maps a present key to the time of the answer it stands for. */
  datatype State = State(now: nat, ready: map<string, nat>, timers: multiset<Timer>, procs: seq<Pc>)

  datatype Action = Lookup(i: nat, key: string) | Active(i: nat) | Inactive(i: nat) | Advance(i: nat)
                  | Fire(timer: Timer) | Tick(to: nat)

  function Goto(s: State, i: nat, pc: Pc): State
    requires i < |s.procs|
  {
    s.(procs := s.procs[i := pc])
  }

  predicate MayTick(c: Config, s: State, to: nat) {
    && s.now <= to
    && (forall t :: t in s.timers ==> to <= t.due)
    && (forall i :: 0 <= i < |s.procs| && (s.procs[i].Storing? || s.procs[i].Arming?) ==> to <= s.procs[i].answered + c.lag)
  }

  function Step(c: Config, s: State, a: Action): State {
    match a
    case Lookup(i, key) =>
      if i < |s.procs| && s.procs[i].Idle? && key !in s.ready then Goto(s, i, Asking(key)) else s
    case Inactive(i) =>
      if i < |s.procs| && s.procs[i].Asking? then Goto(s, i, Idle) else s
    case Active(i) =>
      if i < |s.procs| && s.procs[i].Asking? then Goto(s, i, Storing(s.procs[i].key, s.now)) else s
    case Advance(i) =>
      if i >= |s.procs| then s else
      (match s.procs[i]
       case Storing(key, answered) => Goto(s, i, Arming(key, answered)).(ready := s.ready[key := answered])
       case Arming(key, _) => Goto(s, i, Idle).(timers := s.timers + multiset{Timer(key, s.now + c.duration)})
       case _ => s)
    case Fire(t) =>
      if t in s.timers && t.due <= s.now then s.(timers := s.timers - multiset{t}, ready := s.ready - {t.key}) else s
    case Tick(to) =>
      if MayTick(c, s, to) then s.(now := to) else s
  }

  function Exec(c: Config, s: State, run: seq<Action>): State {
    if run == [] then s else Step(c, Exec(c, s, run[..|run| - 1]), run[|run| - 1])
  }

  function Init(n: nat): State {
    State(0, map[], multiset{}, seq(n, _ => Idle))
  }

  /** A timer that will delete `key` in time, or the goroutine about to arm it. */
  ghost predicate Covered(c: Config, s: State, key: string, answered: nat) {
    || (exists t :: t in s.timers && t.key == key && t.due <= answered + c.lag + c.duration)
    || (exists i :: 0 <= i < |s.procs| && s.procs[i] == Arming(key, answered))
  }

  ghost predicate AllCovered(c: Config, s: State) {
    forall key :: key in s.ready ==> s.ready[key] <= s.now && Covered(c, s, key, s.ready[key])
  }

  ghost predicate OnTime(c: Config, s: State) {
    && (forall t :: t in s.timers ==> s.now <= t.due)
    && (forall i :: 0 <= i < |s.procs| && (s.procs[i].Storing? || s.procs[i].Arming?) ==>
          s.procs[i].answered <= s.now <= s.procs[i].answered + c.lag)
  }

  ghost predicate Inv(c: Config, s: State) {
    AllCovered(c, s) && OnTime(c, s)
  }

  lemma LookupOnTime(c: Config, s: State, a: Action)
    requires OnTime(c, s) && (a.Lookup? || a.Active? || a.Inactive? || a.Tick?)
    ensures OnTime(c, Step(c, s, a))
  {
  }

  lemma AdvanceOnTime(c: Config, s: State, i: nat)
    requires OnTime(c, s)
    ensures OnTime(c, Step(c, s, Advance(i)))
  {
  }

  lemma FireOnTime(c: Config, s: State, t: Timer)
    requires OnTime(c, s)
    ensures OnTime(c, Step(c, s, Fire(t)))
  {
  }

  lemma StepOnTime(c: Config, s: State, a: Action)
    requires OnTime(c, s)
    ensures OnTime(c, Step(c, s, a))
  {
    match a
    case Advance(i) => AdvanceOnTime(c, s, i);
    case Fire(t) => FireOnTime(c, s, t);
    case _ => LookupOnTime(c, s, a);
  }

  /** A timer leaves only by firing, and then its key is gone. */
  lemma TimerStays(c: Config, s: State, a: Action, t: Timer)
    requires t in s.timers
    ensures var s' := Step(c, s, a); t in s'.timers || t.key !in s'.ready
  {
  }

  lemma ArmingStays(c: Config, s: State, a: Action, i: nat)
    requires i < |s.procs| && s.procs[i].Arming?
    ensures var s' := Step(c, s, a);
            || (i < |s'.procs| && s'.procs[i] == s.procs[i])
            || Timer(s.procs[i].key, s.now + c.duration) in s'.timers
  {
  }

  /** A present key either kept its answer or was stored by this step. */
  lemma WhoStored(c: Config, s: State, a: Action, key: string)
    requires key in Step(c, s, a).ready && OnTime(c, s)
    ensures var s' := Step(c, s, a);
            || (key in s.ready && s'.ready[key] == s.ready[key] && s.now <= s'.now)
            || (s'.ready[key] <= s'.now
                && exists i :: 0 <= i < |s'.procs| && s'.procs[i] == Arming(key, s'.ready[key]))
  {
    var s' := Step(c, s, a);
    if a.Advance? && a.i < |s.procs| && s.procs[a.i].Storing? && s.procs[a.i].key == key {
      assert s'.procs[a.i] == Arming(key, s'.ready[key]);
    }
  }

  lemma StepInv(c: Config, s: State, a: Action)
    requires Inv(c, s)
    ensures Inv(c, Step(c, s, a))
  {
    StepOnTime(c, s, a);
    var s' := Step(c, s, a);
    forall key | key in s'.ready
      ensures s'.ready[key] <= s'.now && Covered(c, s', key, s'.ready[key])
    {
      WhoStored(c, s, a, key);
      if key in s.ready && s'.ready[key] == s.ready[key] {
        StaysCovered(c, s, a, key);
      }
    }
  }

  lemma StaysCovered(c: Config, s: State, a: Action, key: string)
    requires OnTime(c, s) && key in s.ready && Covered(c, s, key, s.ready[key]) && key in Step(c, s, a).ready
    ensures Covered(c, Step(c, s, a), key, s.ready[key])
  {
    var answered := s.ready[key];
    if t :| t in s.timers && t.key == key && t.due <= answered + c.lag + c.duration {
      TimerStays(c, s, a, t);
    } else {
      var i :| 0 <= i < |s.procs| && s.procs[i] == Arming(key, answered);
      ArmingStays(c, s, a, i);
    }
  }

  lemma {:induction false} Reachable(c: Config, n: nat, run: seq<Action>)
    ensures Inv(c, Exec(c, Init(n), run))
  {
    if run == [] {
    } else {
      Reachable(c, n, run[..|run| - 1]);
      StepInv(c, Exec(c, Init(n), run[..|run| - 1]), run[|run| - 1]);
    }
  }

  /** However misses interleave, a hit never serves an answer older than the duration (and the lag). */
  lemma NeverStale(c: Config, n: nat, run: seq<Action>, key: string)
    ensures var s := Exec(c, Init(n), run);
            key in s.ready ==> 0 <= s.now - s.ready[key] <= c.duration + c.lag
  {
    Reachable(c, n, run);
    var s := Exec(c, Init(n), run);
    if key in s.ready {
      assert Covered(c, s, key, s.ready[key]);
    }
  }

  /** A present key has a delete pending no later than its age allows, unless the goroutine that
      stored its answer is about to arm it. */
  lemma DeletePending(c: Config, n: nat, run: seq<Action>, key: string)
    ensures var s := Exec(c, Init(n), run);
            key in s.ready && (forall i :: 0 <= i < |s.procs| ==> s.procs[i] != Arming(key, s.ready[key])) ==>
              exists t :: t in s.timers && t.key == key && s.now <= t.due <= s.ready[key] + c.lag + c.duration
  {
    Reachable(c, n, run);
    var s := Exec(c, Init(n), run);
    if key in s.ready {
      assert Covered(c, s, key, s.ready[key]);
    }
  }

  /** Uninterrupted, a miss that finds the service active caches the answer and arms its deletion. */
  lemma SoloMiss(c: Config, s: State, i: nat, key: string)
    requires i < |s.procs| && s.procs[i].Idle? && key !in s.ready
    ensures var asked := Step(c, Step(c, s, Lookup(i, key)), Active(i));
            Step(c, Step(c, asked, Advance(i)), Advance(i))
            == s.(ready := s.ready[key := s.now], timers := s.timers + multiset{Timer(key, s.now + c.duration)})
  {
  }

  // ----- only active answers are cached

  /** Step `m` of the run is an active answer, at clock `answered`, to a goroutine that asked for `key`. */
  ghost predicate AnsweredAt(c: Config, n: nat, run: seq<Action>, m: nat, key: string, answered: nat) {
    && m < |run| && run[m].Active?
    && var s := Exec(c, Init(n), run[..m]);
       run[m].i < |s.procs| && s.procs[run[m].i] == Asking(key) && s.now == answered
  }

  ghost predicate Answered(c: Config, n: nat, run: seq<Action>, key: string, answered: nat) {
    exists m: nat :: AnsweredAt(c, n, run, m, key, answered)
  }

  lemma AnsweredStays(c: Config, n: nat, run: seq<Action>, a: Action, key: string, answered: nat)
    requires Answered(c, n, run, key, answered)
    ensures Answered(c, n, run + [a], key, answered)
  {
    var m: nat :| AnsweredAt(c, n, run, m, key, answered);
    assert (run + [a])[..m] == run[..m];
    assert AnsweredAt(c, n, run + [a], m, key, answered);
  }

  /** Every cached answer, and every one about to be cached, was an active one. */
  ghost predicate AllAnswered(c: Config, n: nat, run: seq<Action>) {
    var s := Exec(c, Init(n), run);
    && (forall key :: key in s.ready ==> Answered(c, n, run, key, s.ready[key]))
    && (forall i :: 0 <= i < |s.procs| && (s.procs[i].Storing? || s.procs[i].Arming?) ==>
          Answered(c, n, run, s.procs[i].key, s.procs[i].answered))
  }

  /** What a step caches was about to be cached, and what it is about to cache was just answered. */
  lemma StepSource(c: Config, s: State, a: Action)
    ensures var t := Step(c, s, a);
            && (forall key :: key in t.ready ==>
                  || (key in s.ready && t.ready[key] == s.ready[key])
                  || exists i :: 0 <= i < |s.procs| && s.procs[i] == Storing(key, t.ready[key]))
            && (forall i :: 0 <= i < |t.procs| && (t.procs[i].Storing? || t.procs[i].Arming?) ==>
                  && i < |s.procs|
                  && (|| ((s.procs[i].Storing? || s.procs[i].Arming?)
                          && s.procs[i].key == t.procs[i].key && s.procs[i].answered == t.procs[i].answered)
                      || (a == Active(i) && s.procs[i] == Asking(t.procs[i].key) && s.now == t.procs[i].answered)))
  {
  }

  lemma {:induction false} RunAnswered(c: Config, n: nat, run: seq<Action>)
    ensures AllAnswered(c, n, run)
  {
    if run == [] {
    } else {
      var m := |run| - 1;
      var before, a := run[..m], run[m];
      RunAnswered(c, n, before);
      assert run == before + [a];
      OneMoreAnswered(c, n, before, a);
    }
  }

  lemma OneMoreAnswered(c: Config, n: nat, run: seq<Action>, a: Action)
    requires AllAnswered(c, n, run)
    ensures AllAnswered(c, n, run + [a])
  {
    var s := Exec(c, Init(n), run);
    assert (run + [a])[..|run|] == run;
    var t := Exec(c, Init(n), run + [a]);
    StepSource(c, s, a);
    forall i | 0 <= i < |t.procs| && (t.procs[i].Storing? || t.procs[i].Arming?)
      ensures Answered(c, n, run + [a], t.procs[i].key, t.procs[i].answered)
    {
      if a == Active(i) && s.procs[i] == Asking(t.procs[i].key) && s.now == t.procs[i].answered {
        assert AnsweredAt(c, n, run + [a], |run|, t.procs[i].key, t.procs[i].answered);
      } else {
        AnsweredStays(c, n, run, a, t.procs[i].key, t.procs[i].answered);
      }
    }
    forall key | key in t.ready ensures Answered(c, n, run + [a], key, t.ready[key]) {
      AnsweredStays(c, n, run, a, key, t.ready[key]);
    }
  }

  /** In every run, a key is cached only if the cluster answered at that time, to a goroutine that asked
      for it, that the service is active. */
  lemma OnlyActiveCached(c: Config, n: nat, run: seq<Action>, key: string)
    ensures var s := Exec(c, Init(n), run);
            key in s.ready ==> exists m: nat :: AnsweredAt(c, n, run, m, key, s.ready[key])
  {
    RunAnswered(c, n, run);
  }

  /** An undisturbed miss that finds the service inactive leaves no trace, and a hit asks nobody. */
  lemma SoloInactive(c: Config, s: State, i: nat, key: string)
    requires i < |s.procs| && s.procs[i].Idle?
    ensures key in s.ready ==> Step(c, s, Lookup(i, key)) == s
    ensures key !in s.ready ==> Step(c, s, Lookup(i, key)).procs[i] == Asking(key)
                                && Step(c, Step(c, s, Lookup(i, key)), Inactive(i)) == s
  {
    if key !in s.ready {
      assert s.procs[i := Asking(key)][i := Idle] == s.procs;
    }
  }

  /** A timer that fires deletes its key and nothing else; one that is not due does nothing. */
  lemma SoloFires(c: Config, s: State, t: Timer)
    requires t in s.timers
    ensures Step(c, s, Fire(t)) == if t.due <= s.now then s.(ready := s.ready - {t.key}, timers := s.timers - multiset{t}) else s
  {
  }

  /** A run is its steps; time goes forward, and past nothing that is due. */
  lemma Primitives(c: Config, s: State, run: seq<Action>, a: Action, to: nat)
    ensures Exec(c, s, run + [a]) == Step(c, Exec(c, s, run), a)
    ensures s.now <= to && (forall t :: t in s.timers ==> to <= t.due)
            && (forall i :: 0 <= i < |s.procs| && (s.procs[i].Storing? || s.procs[i].Arming?) ==> to <= s.procs[i].answered + c.lag)
            ==> Step(c, s, Tick(to)) == s.(now := to)
    ensures Step(c, s, Tick(to)).now >= s.now
  {
    assert (run + [a])[..|run|] == run;
  }
}
