/**
 The traffic switch of one host with every read and write of the shared fields a step of its own:
 requests schedule a disable, a disable timer clears the flag and switches traffic off, an enable
 timer switches it on again, all overlapping. Hosts do not share fields or timers, so one host is
 enough.

 A goroutine takes at most `lag` per step and a timer fires when due; the clock passes neither.
 */
module TrafficRace {

  datatype Config = Config(grace: nat, reEnable: nat, lag: nat)

  /** `latest` is the latest time at which the goroutine takes its next step. */
  datatype Pc =
    | Idle
    // ScheduleDisableTrafficForHost
    | SetScheduled(latest: nat)
    | ArmDisable(latest: nat)
    // the disable timer's function, then disableTrafficForHost
    | ClearScheduled(latest: nat)
    | DisableRead(latest: nat)
    | DisableWrite(latest: nat)
    | ArmEnable(latest: nat)
    // enableTrafficForHost
    | EnableRead(latest: nat)
    | EnableWrite(latest: nat)

  /** `blockedAt` and `scheduledAt` are when the flag last went off, or on, respectively. */
  datatype State = State(now: nat, allowed: bool, scheduled: bool, blockedAt: nat, scheduledAt: nat,
                         disables: multiset<nat>, enables: multiset<nat>, procs: seq<Pc>)

  datatype Action = Request(i: nat) | Advance(i: nat) | FireDisable(i: nat, due: nat) | FireEnable(i: nat, due: nat)
                  | Tick(to: nat)

  function Goto(s: State, i: nat, pc: Pc): State
    requires i < |s.procs|
  {
    s.(procs := s.procs[i := pc])
  }

  predicate Free(s: State, i: nat) {
    i < |s.procs| && s.procs[i].Idle?
  }

  predicate MayTick(s: State, to: nat) {
    && s.now <= to
    && (forall due :: due in s.disables ==> to <= due)
    && (forall due :: due in s.enables ==> to <= due)
    && (forall i :: 0 <= i < |s.procs| && !s.procs[i].Idle? ==> to <= s.procs[i].latest)
  }

  function Step(c: Config, s: State, a: Action): State {
    match a
    case Request(i) =>
      if Free(s, i) && !s.scheduled then Goto(s, i, SetScheduled(s.now + c.lag)) else s
    case FireDisable(i, due) =>
      if Free(s, i) && due in s.disables && due <= s.now
      then Goto(s, i, ClearScheduled(s.now + c.lag)).(disables := s.disables - multiset{due}) else s
    case FireEnable(i, due) =>
      if Free(s, i) && due in s.enables && due <= s.now
      then Goto(s, i, EnableRead(s.now + c.lag)).(enables := s.enables - multiset{due}) else s
    case Tick(to) => if MayTick(s, to) then s.(now := to) else s
    case Advance(i) => if i < |s.procs| then Move(c, s, i) else s
  }

  function Move(c: Config, s: State, i: nat): State
    requires i < |s.procs|
  {
    var next := s.now + c.lag;
    match s.procs[i]
    case Idle => s
    case SetScheduled(_) =>
      Goto(s, i, ArmDisable(next)).(scheduled := true, scheduledAt := if s.scheduled then s.scheduledAt else s.now)
    case ArmDisable(_) => Goto(s, i, Idle).(disables := s.disables + multiset{s.now + c.grace})
    case ClearScheduled(_) => Goto(s, i, DisableRead(next)).(scheduled := false)
    case DisableRead(_) => Goto(s, i, if s.allowed then DisableWrite(next) else Idle)
    case DisableWrite(_) =>
      Goto(s, i, ArmEnable(next)).(allowed := false, blockedAt := if s.allowed then s.now else s.blockedAt)
    case ArmEnable(_) => Goto(s, i, Idle).(enables := s.enables + multiset{s.now + c.reEnable})
    case EnableRead(_) => Goto(s, i, if s.allowed then Idle else EnableWrite(next))
    case EnableWrite(_) => Goto(s, i, Idle).(allowed := true)
  }

  function Exec(c: Config, s: State, run: seq<Action>): State {
    if run == [] then s else Step(c, Exec(c, s, run[..|run| - 1]), run[|run| - 1])
  }

  function Init(n: nat): State {
    State(0, true, false, 0, 0, multiset{}, multiset{}, seq(n, _ => Idle))
  }

  // ----- what every interleaving keeps

  /** This goroutine will have switched traffic on by `bound`. */
  predicate Enabler(c: Config, pc: Pc, bound: nat) {
    match pc
    case ArmEnable(latest) => latest + c.reEnable + 2 * c.lag <= bound
    case EnableRead(latest) => latest + c.lag <= bound
    case EnableWrite(latest) => latest <= bound
    case _ => false
  }

  /** An enable is pending, about to be scheduled or about to take effect, in time for `bound`. */
  ghost predicate WillEnable(c: Config, s: State, bound: nat) {
    || (exists due :: due in s.enables && due + 2 * c.lag <= bound)
    || (exists i :: 0 <= i < |s.procs| && Enabler(c, s.procs[i], bound))
  }

  /** This goroutine will have cleared the scheduled flag by `bound`. */
  predicate Clearer(c: Config, pc: Pc, bound: nat) {
    match pc
    case ArmDisable(latest) => latest + c.grace + c.lag <= bound
    case ClearScheduled(latest) => latest <= bound
    case _ => false
  }

  ghost predicate WillClear(c: Config, s: State, bound: nat) {
    || (exists due :: due in s.disables && due + c.lag <= bound)
    || (exists i :: 0 <= i < |s.procs| && Clearer(c, s.procs[i], bound))
  }

  function BlockedUntil(c: Config, s: State): nat { s.blockedAt + c.reEnable + 3 * c.lag }

  function ScheduledUntil(c: Config, s: State): nat { s.scheduledAt + c.grace + 2 * c.lag }

  ghost predicate OnTime(s: State) {
    && (forall due :: due in s.disables ==> s.now <= due)
    && (forall due :: due in s.enables ==> s.now <= due)
    && (forall i :: 0 <= i < |s.procs| && !s.procs[i].Idle? ==> s.now <= s.procs[i].latest)
  }

  ghost predicate Inv(c: Config, s: State) {
    && OnTime(s)
    && (!s.allowed ==> WillEnable(c, s, BlockedUntil(c, s)))
    && (s.scheduled ==> WillClear(c, s, ScheduledUntil(c, s)))
  }

  /** The frame of a goroutine's own step. */
  lemma MoveShape(c: Config, s: State, i: nat)
    requires i < |s.procs|
    ensures var s' := Move(c, s, i);
            && s'.now == s.now && |s'.procs| == |s.procs|
            && (s'.procs[i].Idle? || s'.procs[i].latest == s.now + c.lag)
            && (forall j :: 0 <= j < |s.procs| && j != i ==> s'.procs[j] == s.procs[j])
  {
  }

  lemma MoveTimers(c: Config, s: State, i: nat)
    requires i < |s.procs|
    ensures var s' := Move(c, s, i);
            && (forall due :: due in s'.disables ==> due in s.disables || due == s.now + c.grace)
            && (forall due :: due in s'.enables ==> due in s.enables || due == s.now + c.reEnable)
            && (forall due :: due in s.disables ==> due in s'.disables)
            && (forall due :: due in s.enables ==> due in s'.enables)
  {
  }

  lemma MoveOnTime(c: Config, s: State, i: nat)
    requires OnTime(s) && i < |s.procs|
    ensures OnTime(Move(c, s, i))
  {
    MoveShape(c, s, i);
    MoveTimers(c, s, i);
  }

  lemma RequestOnTime(c: Config, s: State, i: nat)
    requires OnTime(s)
    ensures OnTime(Step(c, s, Request(i)))
  {
  }

  lemma FireDisableOnTime(c: Config, s: State, i: nat, due: nat)
    requires OnTime(s)
    ensures OnTime(Step(c, s, FireDisable(i, due)))
  {
  }

  lemma FireEnableOnTime(c: Config, s: State, i: nat, due: nat)
    requires OnTime(s)
    ensures OnTime(Step(c, s, FireEnable(i, due)))
  {
  }

  lemma StepOnTime(c: Config, s: State, a: Action)
    requires OnTime(s)
    ensures OnTime(Step(c, s, a))
  {
    match a
    case Request(i) => RequestOnTime(c, s, i);
    case FireDisable(i, due) => FireDisableOnTime(c, s, i, due);
    case FireEnable(i, due) => FireEnableOnTime(c, s, i, due);
    case Tick(_) =>
    case Advance(i) =>
      if i < |s.procs| {
        MoveOnTime(c, s, i);
      }
  }

  /** A busy goroutine changes only by its own step. */
  lemma OthersStay(c: Config, s: State, a: Action, i: nat)
    requires i < |s.procs| && !s.procs[i].Idle? && a != Advance(i)
    ensures var s' := Step(c, s, a); i < |s'.procs| && s'.procs[i] == s.procs[i]
  {
    match a
    case Advance(j) =>
      if j < |s.procs| {
        MoveShape(c, s, j);
      }
    case Request(_) =>
    case FireDisable(_, _) =>
    case FireEnable(_, _) =>
    case Tick(_) =>
  }

  /** A pending enable is kept, or fires and becomes a goroutine that keeps the bound. */
  lemma EnableTimerStays(c: Config, s: State, a: Action, due: nat, bound: nat)
    requires OnTime(s) && due in s.enables && due + 2 * c.lag <= bound
    ensures WillEnable(c, Step(c, s, a), bound)
  {
    var s' := Step(c, s, a);
    if a.Advance? && a.i < |s.procs| {
      MoveTimers(c, s, a.i);
    } else if due !in s'.enables {
      assert Enabler(c, s'.procs[a.i], bound);
    }
  }

  /** A goroutine under way keeps the bound until it finds traffic on or has switched it on. */
  lemma EnablerStays(c: Config, s: State, a: Action, i: nat, bound: nat)
    requires OnTime(s) && i < |s.procs| && Enabler(c, s.procs[i], bound)
    ensures var s' := Step(c, s, a); s'.allowed || WillEnable(c, s', bound)
  {
    if a == Advance(i) {
      var s' := Move(c, s, i);
      if s.procs[i].ArmEnable? {
        assert s.now + c.reEnable in s'.enables;
      } else if !s'.allowed {
        assert Enabler(c, s'.procs[i], bound);
      }
    } else {
      OthersStay(c, s, a, i);
    }
  }

  lemma StepEnable(c: Config, s: State, a: Action)
    requires OnTime(s) && (!s.allowed ==> WillEnable(c, s, BlockedUntil(c, s)))
    ensures var s' := Step(c, s, a); !s'.allowed ==> WillEnable(c, s', BlockedUntil(c, s'))
  {
    var s', bound := Step(c, s, a), BlockedUntil(c, s);
    if !s.allowed && !s'.allowed {
      assert BlockedUntil(c, s') == bound;
      if due :| due in s.enables && due + 2 * c.lag <= bound {
        EnableTimerStays(c, s, a, due, bound);
      } else {
        var i :| 0 <= i < |s.procs| && Enabler(c, s.procs[i], bound);
        EnablerStays(c, s, a, i, bound);
      }
    } else if !s'.allowed {
      assert Enabler(c, s'.procs[a.i], BlockedUntil(c, s'));
    }
  }

  lemma DisableTimerStays(c: Config, s: State, a: Action, due: nat, bound: nat)
    requires OnTime(s) && due in s.disables && due + c.lag <= bound
    ensures WillClear(c, Step(c, s, a), bound)
  {
    var s' := Step(c, s, a);
    if a.Advance? && a.i < |s.procs| {
      MoveTimers(c, s, a.i);
    } else if due !in s'.disables {
      assert Clearer(c, s'.procs[a.i], bound);
    }
  }

  lemma ClearerStays(c: Config, s: State, a: Action, i: nat, bound: nat)
    requires OnTime(s) && i < |s.procs| && Clearer(c, s.procs[i], bound)
    ensures var s' := Step(c, s, a); !s'.scheduled || WillClear(c, s', bound)
  {
    if a == Advance(i) {
      var s' := Move(c, s, i);
      if s.procs[i].ArmDisable? {
        assert s.now + c.grace in s'.disables;
      }
    } else {
      OthersStay(c, s, a, i);
    }
  }

  lemma StepClear(c: Config, s: State, a: Action)
    requires OnTime(s) && (s.scheduled ==> WillClear(c, s, ScheduledUntil(c, s)))
    ensures var s' := Step(c, s, a); s'.scheduled ==> WillClear(c, s', ScheduledUntil(c, s'))
  {
    var s', bound := Step(c, s, a), ScheduledUntil(c, s);
    if s.scheduled && s'.scheduled {
      assert ScheduledUntil(c, s') == bound;
      if due :| due in s.disables && due + c.lag <= bound {
        DisableTimerStays(c, s, a, due, bound);
      } else {
        var i :| 0 <= i < |s.procs| && Clearer(c, s.procs[i], bound);
        ClearerStays(c, s, a, i, bound);
      }
    } else if s'.scheduled {
      assert Clearer(c, s'.procs[a.i], ScheduledUntil(c, s'));
    }
  }

  lemma {:induction false} Reachable(c: Config, n: nat, run: seq<Action>)
    ensures Inv(c, Exec(c, Init(n), run))
  {
    if run == [] {
    } else {
      var s, a := Exec(c, Init(n), run[..|run| - 1]), run[|run| - 1];
      Reachable(c, n, run[..|run| - 1]);
      StepOnTime(c, s, a);
      StepEnable(c, s, a);
      StepClear(c, s, a);
    }
  }

  /** No host stays blocked: traffic is off for at most reEnable and three goroutine steps. */
  lemma NeverBlockedForever(c: Config, n: nat, run: seq<Action>)
    ensures var s := Exec(c, Init(n), run);
            !s.allowed ==> WillEnable(c, s, BlockedUntil(c, s)) && s.now <= s.blockedAt + c.reEnable + 3 * c.lag
  {
    Reachable(c, n, run);
  }

  /** Nor does the scheduled flag stick, which would keep a host from ever being disabled again. */
  lemma NeverScheduledForever(c: Config, n: nat, run: seq<Action>)
    ensures var s := Exec(c, Init(n), run);
            s.scheduled ==> WillClear(c, s, ScheduledUntil(c, s)) && s.now <= s.scheduledAt + c.grace + 2 * c.lag
  {
    Reachable(c, n, run);
  }

  // ----- one function at a time

  /** Uninterrupted, a request on an unscheduled host sets the flag and leaves one disable timer. */
  lemma SoloSchedule(c: Config, s: State, i: nat)
    requires Free(s, i) && !s.scheduled
    ensures Step(c, Step(c, Step(c, s, Request(i)), Advance(i)), Advance(i))
            == s.(scheduled := true, scheduledAt := s.now, disables := s.disables + multiset{s.now + c.grace})
  {
  }

  /** Uninterrupted, a disable timer clears the flag, blocks the host and leaves one enable timer. */
  lemma SoloDisable(c: Config, s: State, i: nat, due: nat)
    requires Free(s, i) && due in s.disables && due <= s.now && s.allowed
    ensures var fired := Step(c, Step(c, Step(c, s, FireDisable(i, due)), Advance(i)), Advance(i));
            Step(c, Step(c, fired, Advance(i)), Advance(i))
            == s.(scheduled := false, disables := s.disables - multiset{due}, allowed := false, blockedAt := s.now,
                  enables := s.enables + multiset{s.now + c.reEnable})
  {
  }

  /** A request to a scheduled host changes nothing, and neither does a timer that is not there or not due. */
  lemma SoloIdles(c: Config, s: State, i: nat, due: nat)
    ensures s.scheduled ==> Step(c, s, Request(i)) == s
    ensures due > s.now || due !in s.disables ==> Step(c, s, FireDisable(i, due)) == s
    ensures due > s.now || due !in s.enables ==> Step(c, s, FireEnable(i, due)) == s
  {
  }

  /** A disable timer of a host already blocked clears the flag and arms nothing. */
  lemma SoloDisableBlocked(c: Config, s: State, i: nat, due: nat)
    requires Free(s, i) && due in s.disables && due <= s.now && !s.allowed
    ensures Step(c, Step(c, Step(c, s, FireDisable(i, due)), Advance(i)), Advance(i))
            == s.(scheduled := false, disables := s.disables - multiset{due})
  {
    assert Step(c, Step(c, Step(c, s, FireDisable(i, due)), Advance(i)), Advance(i)).procs == s.procs;
  }

  /** An enable timer of a host that takes traffic leaves it so. */
  lemma SoloEnableAllowed(c: Config, s: State, i: nat, due: nat)
    requires Free(s, i) && due in s.enables && due <= s.now && s.allowed
    ensures Step(c, Step(c, s, FireEnable(i, due)), Advance(i)) == s.(enables := s.enables - multiset{due})
  {
    assert Step(c, Step(c, s, FireEnable(i, due)), Advance(i)).procs == s.procs;
  }

  /** Uninterrupted, an enable timer of a blocked host lets traffic through again. */
  lemma SoloEnable(c: Config, s: State, i: nat, due: nat)
    requires Free(s, i) && due in s.enables && due <= s.now && !s.allowed
    ensures Step(c, Step(c, Step(c, s, FireEnable(i, due)), Advance(i)), Advance(i))
            == s.(allowed := true, enables := s.enables - multiset{due})
  {
  }

  /** A run is its steps; an idle goroutine does nothing; time goes forward, and past nothing that is due. */
  lemma Primitives(c: Config, s: State, run: seq<Action>, a: Action, i: nat, to: nat)
    ensures Exec(c, s, run + [a]) == Step(c, Exec(c, s, run), a)
    ensures i < |s.procs| && s.procs[i].Idle? ==> Step(c, s, Advance(i)) == s
    ensures s.now <= to && (forall due :: due in s.disables || due in s.enables ==> to <= due)
            && (forall k :: 0 <= k < |s.procs| && !s.procs[k].Idle? ==> to <= s.procs[k].latest)
            ==> Step(c, s, Tick(to)) == s.(now := to)
    ensures Step(c, s, Tick(to)).now >= s.now
  {
    assert (run + [a])[..|run|] == run;
  }

  /** Reading the traffic flag and writing it are two steps, so others come between them. */
  lemma ReadsDoNotWrite(c: Config, s: State, i: nat)
    requires i < |s.procs| && (s.procs[i].DisableRead? || s.procs[i].EnableRead?)
    ensures var t := Step(c, s, Advance(i));
            && t == Goto(s, i, t.procs[i])
            && (s.procs[i].DisableRead? ==> (t.procs[i].DisableWrite? <==> s.allowed) && (t.procs[i].Idle? <==> !s.allowed))
            && (s.procs[i].EnableRead? ==> (t.procs[i].EnableWrite? <==> !s.allowed) && (t.procs[i].Idle? <==> s.allowed))
  {
  }
}
