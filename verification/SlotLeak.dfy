/**
 How many slots the breaker can lose. A release whose compare-and-swap fails loses one for good; on
 the runs of the resolver every number short of the last slot can be lost, and the last one cannot.
 */
module SlotLeak {
  import opened Admission
  import opened AdmissionSafety
  import opened AdmissionTheorems
  import opened BreakerTheorems
  import opened Counting
  import opened Starvation
  import opened StarvationWitness
  import opened Word

  // ----- the last slot is never lost

  /** Is past the slot check, and its release, if begun, has loaded the current counter. */
  predicate Sound(s: State, pc: Pc) {
    Live(pc) == 1 && (pc.LeaveCas? ==> pc.cur == s.inFlight)
  }

  /** Not every slot is taken, or one is taken by a call that will give it back. */
  ghost predicate Spare(c: Config, s: State) {
    s.inFlight < c.totalSlots || exists i :: 0 <= i < |s.procs| && Sound(s, s.procs[i])
  }

  /** What a step does to the counter, and who does it. */
  lemma AdvanceCounter(c: Config, s: State, i: nat)
    requires i < |s.procs|
    ensures var s' := Advance(c, s, i);
            || s'.inFlight == s.inFlight || s'.inFlight == s.inFlight - 1
            || (s'.inFlight == s.inFlight + 1 && Sound(s', s'.procs[i]))
  {
  }

  /** A sound call stays sound until it gives its slot back. */
  lemma AdvanceSound(c: Config, s: State, i: nat)
    requires i < |s.procs| && Sound(s, s.procs[i])
    ensures var s' := Advance(c, s, i);
            s'.inFlight == s.inFlight - 1 || (s'.inFlight == s.inFlight && Sound(s', s'.procs[i]))
  {
  }

  lemma AdvanceSpare(c: Config, s: State, i: nat)
    requires s.inFlight <= c.totalSlots && Spare(c, s) && i < |s.procs|
    ensures Spare(c, Advance(c, s, i))
  {
    var s' := Advance(c, s, i);
    AdvanceCounter(c, s, i);
    AdvanceOnlyMoves(c, s, i);
    if s'.inFlight == s.inFlight == c.totalSlots {
      var j :| 0 <= j < |s.procs| && Sound(s, s.procs[j]);
      if j == i {
        AdvanceSound(c, s, i);
      }
      assert Sound(s', s'.procs[j]);
    }
  }

  lemma StepSpare(c: Config, s: State, i: nat, a: Action)
    requires c.Valid() && Inv(c, s) && Spare(c, s) && c.totalSlots >= 1
    ensures Spare(c, Step(c, s, i, a))
  {
    var s' := Step(c, s, i, a);
    if a.Run? && i < |s.procs| {
      AdvanceSpare(c, s, i);
    } else if s.inFlight >= c.totalSlots {
      var j :| 0 <= j < |s.procs| && Sound(s, s.procs[j]);
      assert Sound(s', s'.procs[j]);
    }
  }

  lemma {:induction false} SpareRun(c: Config, s: State, sched: Schedule)
    requires c.Valid() && Inv(c, s) && Spare(c, s) && c.totalSlots >= 1
    ensures var t := Exec(c, s, sched); Inv(c, t) && Spare(c, t)
  {
    if sched == [] {
    } else {
      var k := |sched| - 1;
      SpareRun(c, s, sched[..k]);
      StepInv(c, Exec(c, s, sched[..k]), sched[k].0, sched[k].1);
      StepSpare(c, Exec(c, s, sched[..k]), sched[k].0, sched[k].1);
    }
  }

  lemma SpareBound(c: Config, s: State)
    requires Inv(c, s) && Spare(c, s) && c.totalSlots >= 1
    ensures s.leaked < c.totalSlots
  {
    if s.inFlight >= c.totalSlots {
      var i :| 0 <= i < |s.procs| && Sound(s, s.procs[i]);
      SumAtLeast(s.procs, i, Live);
    }
  }

  /** On every run, resizing or not, fewer slots are lost than there are; so whenever no call is
      under way, the next one gets past the slot check. */
  lemma NeverWornOut(c: Config, n: nat, sched: Schedule, i: nat)
    requires c.Valid() && c.totalSlots >= 1
    ensures var s := Exec(c, Init(n), sched);
            && s.leaked < c.totalSlots
            && (i < |s.procs| && s.procs[i].Idle? && LiveCalls(s) == 0 ==>
                  Step(c, Step(c, Step(c, s, i, Call), i, Run), i, Run).procs[i] == AcquireLoad(false))
  {
    InitInv(c, n);
    SpareRun(c, Init(n), sched);
    SpareBound(c, Exec(c, Init(n), sched));
  }

  // ----- one goroutine alone loses nothing

  /** Every goroutine about to release its slot has loaded the current counter. */
  ghost predicate FreshLeaves(s: State) {
    forall i :: 0 <= i < |s.procs| && s.procs[i].LeaveCas? ==> s.procs[i].cur == s.inFlight
  }

  lemma AloneFresh(c: Config, s: State, i: nat, a: Action)
    requires c.Valid() && FreshLeaves(s) && |s.procs| <= 1
    ensures var s' := Step(c, s, i, a); FreshLeaves(s') && s'.leaked == s.leaked && |s'.procs| <= 1
  {
  }

  lemma {:induction false} AloneRun(c: Config, s: State, sched: Schedule)
    requires c.Valid() && FreshLeaves(s) && |s.procs| <= 1
    ensures var t := Exec(c, s, sched); FreshLeaves(t) && t.leaked == s.leaked && |t.procs| <= 1
  {
    if sched == [] {
    } else {
      var k := |sched| - 1;
      AloneRun(c, s, sched[..k]);
      AloneFresh(c, Exec(c, s, sched[..k]), sched[k].0, sched[k].1);
    }
  }

  // ----- two goroutines lose all the others, one by one

  /** The tokens after a call has gone through a semaphore that is free. */
  function Passed(c: Config, tokens: nat): nat {
    if c.limit == 0 then tokens else Push(c, tokens)
  }

  function WornTokens(c: Config, k: nat): nat {
    if k == 0 then Min(c.buffer, c.limit) else Passed(c, Passed(c, WornTokens(c, k - 1)))
  }

  /** Nobody is calling, and `k` slots are lost. */
  function Worn(c: Config, n: nat, k: nat): State
    requires c.Valid()
  {
    State(Pack(c.limit, 0), WornTokens(c, k), k, k, seq(n, _ => Idle))
  }

  /** A call goes through the semaphore; at capacity 0 it waits until it is cancelled. */
  lemma Passes(c: Config, R: Relation, s: State, i: nat)
    requires c.Valid() && RunLike(c, R) && i < |s.procs| && s.procs[i].AcquireLoad? && s.word == Pack(c.limit, 0)
    ensures R(s, Goto(s, i, LeaveLoad).(tokens := Passed(c, s.tokens)))
  {
    Halves(c.limit, 0);
    if c.limit == 0 {
      Parks(c, R, s, i);
      var t := Goto(s, i, Parked);
      assert Step(c, t, i, Cancel) == Goto(t, i, LeaveLoad);
      assert t.procs[i := LeaveLoad] == s.procs[i := LeaveLoad];
    } else {
      Takes(c, R, s, i);
      var t := Goto(s, i, Thunk).(word := Pack(c.limit, 1));
      Halves(c.limit, 1);
      GivesBack(c, R, t, i);
      assert t.procs[i := LeaveLoad] == s.procs[i := LeaveLoad];
    }
  }

  /** A call comes, goes through, and loads the counter to release its slot. */
  lemma Visits(c: Config, R: Relation, s: State, i: nat)
    requires c.Valid() && RunLike(c, R) && i < |s.procs| && s.procs[i].Idle? && s.word == Pack(c.limit, 0)
    requires s.inFlight < c.totalSlots
    ensures var k := s.inFlight + 1;
            R(s, Goto(s, i, LeaveCas(k)).(inFlight := k, tokens := Passed(c, s.tokens)))
  {
    Enters(c, R, s, i);
    Finishes(c, R, Goto(s, i, AcquireLoad(false)).(inFlight := s.inFlight + 1), i);
    assert s.procs[i := AcquireLoad(false)][i := LeaveCas(s.inFlight + 1)] == s.procs[i := LeaveCas(s.inFlight + 1)];
  }

  lemma Finishes(c: Config, R: Relation, s: State, i: nat)
    requires c.Valid() && RunLike(c, R) && i < |s.procs| && s.procs[i].AcquireLoad? && s.word == Pack(c.limit, 0)
    ensures R(s, Goto(s, i, LeaveCas(s.inFlight)).(tokens := Passed(c, s.tokens)))
  {
    Passes(c, R, s, i);
    var t := Goto(s, i, LeaveLoad).(tokens := Passed(c, s.tokens));
    assert Step(c, t, i, Run) == Goto(t, i, LeaveCas(s.inFlight));
    assert t.procs[i := LeaveCas(s.inFlight)] == s.procs[i := LeaveCas(s.inFlight)];
  }

  /** The second caller takes a slot between the load and the compare-and-swap of the first. */
  lemma Races(c: Config, R: Relation, s: State)
    requires c.Valid() && RunLike(c, R) && |s.procs| >= 2 && s.procs[0] == LeaveCas(s.inFlight) && s.procs[1].Idle?
    requires s.inFlight < c.totalSlots
    ensures R(s, s.(inFlight := s.inFlight + 1, leaked := s.leaked + 1, procs := s.procs[0 := Idle][1 := AcquireLoad(false)]))
  {
    Enters(c, R, s, 1);
    var t := Goto(s, 1, AcquireLoad(false)).(inFlight := s.inFlight + 1);
    assert Step(c, t, 0, Run) == Goto(t, 0, Idle).(leaked := s.leaked + 1);
    assert t.procs[0 := Idle] == s.procs[0 := Idle][1 := AcquireLoad(false)];
  }

  /** The caller that finishes undisturbed gives its own slot back. */
  lemma GoesHome(c: Config, R: Relation, s: State, i: nat)
    requires c.Valid() && RunLike(c, R) && i < |s.procs| && s.procs[i].AcquireLoad? && s.word == Pack(c.limit, 0)
    ensures R(s, Goto(s, i, Idle).(inFlight := s.inFlight - 1, tokens := Passed(c, s.tokens)))
  {
    Finishes(c, R, s, i);
    var t := Goto(s, i, LeaveCas(s.inFlight)).(tokens := Passed(c, s.tokens));
    assert Step(c, t, i, Run) == Goto(t, i, Idle).(inFlight := s.inFlight - 1);
    assert t.procs[i := Idle] == s.procs[i := Idle];
  }

  lemma WearOne(c: Config, R: Relation, n: nat, k: nat)
    requires c.Valid() && RunLike(c, R) && n >= 2 && k + 1 < c.totalSlots
    ensures R(Worn(c, n, k), Worn(c, n, k + 1))
  {
    var s, t := Worn(c, n, k), Worn(c, n, k + 1);
    Visits(c, R, s, 0);
    var u := Goto(s, 0, LeaveCas(k + 1)).(inFlight := k + 1, tokens := Passed(c, s.tokens));
    Races(c, R, u);
    var v := u.(inFlight := k + 2, leaked := k + 1, procs := u.procs[0 := Idle][1 := AcquireLoad(false)]);
    GoesHome(c, R, v, 1);
    assert v.procs[1 := Idle] == t.procs;
  }

  lemma {:induction false} Wears(c: Config, R: Relation, n: nat, k: nat)
    requires c.Valid() && RunLike(c, R) && n >= 2 && (k == 0 || k < c.totalSlots)
    ensures R(New(c, n), Worn(c, n, k))
  {
    if k == 0 {
      assert New(c, n).procs == Worn(c, n, 0).procs;
    } else {
      Wears(c, R, n, k - 1);
      WearOne(c, R, n, k - 1);
    }
  }

  // ----- the exact extent

  /** Some run of the resolver with `n` callers has lost `m` slots. */
  ghost predicate CanLose(c: Config, n: nat, m: nat)
    requires c.Valid()
  {
    exists sched :: Serving(sched) && Exec(c, New(c, n), sched).leaked == m
  }

  lemma LosesOnly(c: Config, n: nat, sched: Schedule)
    requires c.Valid() && Serving(sched)
    ensures var m := Exec(c, New(c, n), sched).leaked; m == 0 || (n >= 2 && m < c.totalSlots)
  {
    NewInv(c, n);
    if n <= 1 {
      AloneRun(c, New(c, n), sched);
    } else if c.totalSlots >= 1 {
      SpareRun(c, New(c, n), sched);
      SpareBound(c, Exec(c, New(c, n), sched));
    } else {
      ServedRun(c, n, sched);
    }
  }

  /** Two callers can wear the breaker down to its last slot, and no number of callers further. */
  lemma LosesIff(c: Config, n: nat, m: nat)
    requires c.Valid()
    ensures CanLose(c, n, m) <==> m == 0 || (n >= 2 && m < c.totalSlots)
  {
    if m == 0 {
      assert Serving([]) && Exec(c, New(c, n), []).leaked == 0;
    } else if n >= 2 && m < c.totalSlots {
      LeadsIsRunLike(c);
      Wears(c, (s, t) => Leads(c, s, t), n, m);
      var sched := LeadsBy(c, New(c, n), Worn(c, n, m));
    } else {
      forall sched | Serving(sched) ensures Exec(c, New(c, n), sched).leaked != m {
        LosesOnly(c, n, sched);
      }
    }
  }

  /** So some run loses a slot exactly when there are two slots to hold and two callers to race. */
  lemma LeaksIff(c: Config, n: nat)
    requires c.Valid()
    ensures (exists sched :: Serving(sched) && Exec(c, New(c, n), sched).leaked > 0) <==> c.totalSlots >= 2 && n >= 2
  {
    LosesIff(c, n, 1);
    forall sched | Serving(sched) ensures Exec(c, New(c, n), sched).leaked > 0 ==> c.totalSlots >= 2 && n >= 2 {
      LosesOnly(c, n, sched);
    }
  }
}
