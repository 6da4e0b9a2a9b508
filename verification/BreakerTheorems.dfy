/** The breaker's in-flight counter, for every run of the admission machine. */
module BreakerTheorems {
  import opened Admission
  import opened AdmissionSafety
  import opened Counting

  /** This step is a slot release whose compare-and-swap loses a race. */
  predicate RacedRelease(s: State, i: nat, a: Action) {
    a.Run? && i < |s.procs| && s.procs[i].LeaveCas? && s.procs[i].cur != s.inFlight
  }

  /** How many slot releases of the run lost a race. */
  function RacedReleases(c: Config, s: State, sched: Schedule): nat
    requires c.Valid()
  {
    if sched == [] then 0
    else
      var k := |sched| - 1;
      RacedReleases(c, s, sched[..k])
      + if RacedRelease(Exec(c, s, sched[..k]), sched[k].0, sched[k].1) then 1 else 0
  }

  lemma {:induction false} LeakCounted(c: Config, s: State, sched: Schedule)
    requires c.Valid()
    ensures Exec(c, s, sched).leaked == s.leaked + RacedReleases(c, s, sched)
  {
    if sched == [] {
    } else {
      LeakCounted(c, s, sched[..|sched| - 1]);
    }
  }

  /** The counter is the live calls plus the releases that lost a race, within the slots. */
  lemma Conservation(c: Config, n: nat, sched: Schedule)
    requires c.Valid() && c.totalSlots >= 0
    ensures var s := Exec(c, Init(n), sched);
            && s.inFlight == LiveCalls(s) + RacedReleases(c, Init(n), sched)
            && LiveCalls(s) <= s.inFlight <= c.totalSlots
  {
    Reachable(c, n, sched);
    LeakCounted(c, Init(n), sched);
  }

  lemma {:induction false} ExecAppend(c: Config, s: State, a: Schedule, b: Schedule)
    requires c.Valid()
    ensures Exec(c, s, a + b) == Exec(c, Exec(c, s, a), b)
  {
    if b == [] {
      assert a + b == a;
    } else {
      var k := |b| - 1;
      ExecAppend(c, s, a, b[..k]);
      assert (a + b)[..|a + b| - 1] == a + b[..k];
    }
  }

  /** Lost slots never come back: the room left for live calls only shrinks along a run. */
  lemma LeakIsPermanent(c: Config, n: nat, sched: Schedule, more: Schedule)
    requires c.Valid() && c.totalSlots >= 0
    ensures var s, t := Exec(c, Init(n), sched), Exec(c, Init(n), sched + more);
            && s.leaked <= t.leaked
            && LiveCalls(t) <= c.totalSlots - s.leaked
  {
    ExecAppend(c, Init(n), sched, more);
    LeakCounted(c, Exec(c, Init(n), sched), more);
    Reachable(c, n, sched + more);
  }

  lemma After2(c: Config, s: State, sched: Schedule) returns (t: State)
    requires c.Valid() && |sched| == 2
    ensures t == Exec(c, s, sched)
    ensures t == Step(c, Step(c, s, sched[0].0, sched[0].1), sched[1].0, sched[1].1)
  {
    assert sched[..1][..0] == [];
    assert Exec(c, s, sched[..1]) == Step(c, s, sched[0].0, sched[0].1);
    t := Exec(c, s, sched);
  }
}
