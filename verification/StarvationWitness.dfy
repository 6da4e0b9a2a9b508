/** A run that starves a waiter, for every configuration outside the condition of `Starvation`. */
module StarvationWitness {
  import opened Admission
  import opened AdmissionSafety
  import opened AdmissionTheorems
  import opened BreakerTheorems
  import opened Counting
  import opened Starvation
  import opened Word

  ghost predicate Leads(c: Config, s: State, t: State)
    requires c.Valid()
  {
    exists sched :: Serving(sched) && Exec(c, s, sched) == t
  }

  lemma LeadsBy(c: Config, s: State, t: State) returns (sched: Schedule)
    requires c.Valid() && Leads(c, s, t)
    ensures Serving(sched) && Exec(c, s, sched) == t
  {
    sched :| Serving(sched) && Exec(c, s, sched) == t;
  }

  type Relation = (State, State) -> bool

  /** Reflexive, transitive, and containing the steps of the running resolver. The stages below
      are proved for every such relation; `Leads` is the one they are used for. */
  ghost predicate RunLike(c: Config, R: Relation)
    requires c.Valid()
  {
    && (forall s :: R(s, s))
    && (forall s, i: nat, a: Action :: !a.Resize? ==> R(s, Step(c, s, i, a)))
    && (forall s, t, u :: R(s, t) && R(t, u) ==> R(s, u))
  }

  lemma LeadsStep(c: Config, s: State, i: nat, a: Action)
    requires c.Valid() && !a.Resize?
    ensures Leads(c, s, Step(c, s, i, a))
  {
    var sched := [(i, a)];
    assert sched[..0] == [];
    assert Serving(sched) && Exec(c, s, sched) == Step(c, s, i, a);
  }

  lemma LeadsTrans(c: Config, s: State, t: State, u: State)
    requires c.Valid() && Leads(c, s, t) && Leads(c, t, u)
    ensures Leads(c, s, u)
  {
    var a :| Serving(a) && Exec(c, s, a) == t;
    var b :| Serving(b) && Exec(c, t, b) == u;
    ExecAppend(c, s, a, b);
    assert Serving(a + b);
  }

  lemma LeadsIsRunLike(c: Config)
    requires c.Valid()
    ensures RunLike(c, (s, t) => Leads(c, s, t))
  {
    forall s ensures Leads(c, s, s) {
      assert Serving([]) && Exec(c, s, []) == s;
    }
    forall s, i: nat, a: Action | !a.Resize? ensures Leads(c, s, Step(c, s, i, a)) {
      LeadsStep(c, s, i, a);
    }
    forall s, t, u | Leads(c, s, t) && Leads(c, t, u) ensures Leads(c, s, u) {
      LeadsTrans(c, s, t, u);
    }
  }

  /** A call takes a slot and is about to load the semaphore's word. */
  lemma Enters(c: Config, R: Relation, s: State, i: nat)
    requires c.Valid() && RunLike(c, R) && i < |s.procs| && s.procs[i].Idle? && s.inFlight < c.totalSlots
    ensures R(s, Goto(s, i, AcquireLoad(false)).(inFlight := s.inFlight + 1))
  {
    var p := Goto(s, i, SlotLoad);
    var t := Goto(p, i, SlotCas(s.inFlight));
    var u := Goto(t, i, AcquireLoad(false)).(inFlight := s.inFlight + 1);
    assert p == Step(c, s, i, Call) && t == Step(c, p, i, Run) && u == Step(c, t, i, Run);
    assert u.procs == s.procs[i := AcquireLoad(false)];
  }

  /** A call that finds capacity takes it. */
  lemma Takes(c: Config, R: Relation, s: State, i: nat)
    requires c.Valid() && RunLike(c, R) && i < |s.procs| && s.procs[i].AcquireLoad? && In(s.word) < Capacity(s.word)
    ensures R(s, Goto(s, i, Thunk).(word := Pack(Capacity(s.word), In(s.word) + 1)))
  {
    var t := Goto(s, i, AcquireCas(s.word, s.procs[i].woken));
    var u := Goto(t, i, Thunk).(word := Pack(Capacity(s.word), In(s.word) + 1));
    assert t == Step(c, s, i, Run) && u == Step(c, t, i, Run);
    assert u.procs == s.procs[i := Thunk];
  }

  /** A call that finds the semaphore full parks. */
  lemma Parks(c: Config, R: Relation, s: State, i: nat)
    requires c.Valid() && RunLike(c, R) && i < |s.procs| && s.procs[i].AcquireLoad? && In(s.word) >= Capacity(s.word)
    ensures R(s, Goto(s, i, Parked))
  {
    assert Goto(s, i, Parked) == Step(c, s, i, Run);
  }

  /** A waiter receives a token. */
  lemma Wakes(c: Config, R: Relation, s: State, i: nat)
    requires c.Valid() && RunLike(c, R) && i < |s.procs| && s.procs[i].Parked? && s.tokens > 0
    ensures R(s, Goto(s, i, AcquireLoad(true)).(tokens := s.tokens - 1))
  {
    assert Goto(s, i, AcquireLoad(true)).(tokens := s.tokens - 1) == Step(c, s, i, Run);
  }

  /** A holder gives its capacity back and pokes the channel. */
  lemma GivesBack(c: Config, R: Relation, s: State, i: nat)
    requires c.Valid() && RunLike(c, R) && i < |s.procs| && s.procs[i].Thunk? && 0 < In(s.word) <= Capacity(s.word)
    ensures R(s, Goto(s, i, LeaveLoad).(word := Pack(Capacity(s.word), In(s.word) - 1), tokens := Push(c, s.tokens)))
  {
    var p := Goto(s, i, ReleaseLoad);
    var t := Goto(p, i, ReleaseCas(s.word));
    var q := Goto(t, i, Poke).(word := Pack(Capacity(s.word), In(s.word) - 1));
    var u := Goto(q, i, LeaveLoad).(tokens := Push(c, s.tokens));
    assert p == Step(c, s, i, Run) && t == Step(c, p, i, Run);
    assert q == Step(c, t, i, Run) && u == Step(c, q, i, Run);
    assert u.procs == s.procs[i := LeaveLoad];
  }

  // ----- the pictures the run goes through

  /** Goroutines below `gone` have given capacity back, those below `running` hold it, those
      below `waiting` are parked, and the rest have not called. */
  function Picture(c: Config, gone: nat, running: nat, waiting: nat, tokens: nat): State
    requires c.Valid() && gone <= running <= gone + c.limit
  {
    State(Pack(c.limit, running - gone), tokens, waiting, 0,
      seq(c.limit + c.buffer + 1, (j: nat) =>
        if j < gone then LeaveLoad else if j < running then Thunk else if j < waiting then Parked else Idle))
  }

  ghost predicate Starving(c: Config) {
    c.Valid() && c.buffer < c.limit && c.limit + c.buffer < c.totalSlots
  }

  lemma PictureHalves(c: Config, gone: nat, running: nat, waiting: nat, tokens: nat)
    requires c.Valid() && gone <= running <= gone + c.limit
    ensures var w := Picture(c, gone, running, waiting, tokens).word;
            Capacity(w) == c.limit && In(w) == running - gone
  {
  }

  /** One caller enters and takes capacity. */
  lemma FillOne(c: Config, R: Relation, k: nat)
    requires Starving(c) && RunLike(c, R) && k < c.limit
    ensures R(Picture(c, 0, k, k, c.buffer), Picture(c, 0, k + 1, k + 1, c.buffer))
  {
    var s, t := Picture(c, 0, k, k, c.buffer), Picture(c, 0, k + 1, k + 1, c.buffer);
    PictureHalves(c, 0, k, k, c.buffer);
    Enters(c, R, s, k);
    var e := Goto(s, k, AcquireLoad(false)).(inFlight := k + 1);
    Takes(c, R, e, k);
    assert e.procs[k := Thunk] == t.procs;
  }

  /** The callers fill the semaphore. */
  lemma {:induction false} Fill(c: Config, R: Relation, k: nat)
    requires Starving(c) && RunLike(c, R) && k <= c.limit
    ensures R(New(c, c.limit + c.buffer + 1), Picture(c, 0, k, k, c.buffer))
  {
    var s0 := New(c, c.limit + c.buffer + 1);
    if k == 0 {
      assert s0.procs == Picture(c, 0, 0, 0, c.buffer).procs;
    } else {
      Fill(c, R, k - 1);
      FillOne(c, R, k - 1);
    }
  }

  /** More callers find it full and park. */
  lemma {:induction false} Park(c: Config, R: Relation, k: nat)
    requires Starving(c) && RunLike(c, R) && k <= c.buffer + 1
    ensures R(Picture(c, 0, c.limit, c.limit, c.buffer), Picture(c, 0, c.limit, c.limit + k, c.buffer))
  {
    if k == 0 {
    } else {
      Park(c, R, k - 1);
      var i := c.limit + k - 1;
      var s, t := Picture(c, 0, c.limit, i, c.buffer), Picture(c, 0, c.limit, i + 1, c.buffer);
      PictureHalves(c, 0, c.limit, i, c.buffer);
      Enters(c, R, s, i);
      var e := Goto(s, i, AcquireLoad(false)).(inFlight := i + 1);
      Parks(c, R, e, i);
      assert e.procs[i := Parked] == t.procs;
    }
  }

  /** One waiter drains the channel, finding the semaphore full each time. */
  lemma {:induction false} Drain(c: Config, R: Relation, k: nat)
    requires Starving(c) && RunLike(c, R) && k <= c.buffer
    ensures var n := c.limit + c.buffer + 1;
            R(Picture(c, 0, c.limit, n, c.buffer), Picture(c, 0, c.limit, n, c.buffer - k))
  {
    var n, i := c.limit + c.buffer + 1, c.limit;
    if k == 0 {
    } else {
      Drain(c, R, k - 1);
      var s, t := Picture(c, 0, c.limit, n, c.buffer - k + 1), Picture(c, 0, c.limit, n, c.buffer - k);
      PictureHalves(c, 0, c.limit, n, c.buffer - k + 1);
      Wakes(c, R, s, i);
      var e := Goto(s, i, AcquireLoad(true)).(tokens := c.buffer - k);
      Parks(c, R, e, i);
      assert e.procs[i := Parked] == t.procs;
    }
  }

  /** One holder gives capacity back, and a token is queued if the buffer has room. */
  lemma LeaveOne(c: Config, R: Relation, k: nat)
    requires Starving(c) && RunLike(c, R) && k <= c.buffer
    ensures var n := c.limit + c.buffer + 1;
            R(Picture(c, k, c.limit, n, Min(k, c.buffer)), Picture(c, k + 1, c.limit, n, Min(k + 1, c.buffer)))
  {
    var n := c.limit + c.buffer + 1;
    var s, t := Picture(c, k, c.limit, n, Min(k, c.buffer)), Picture(c, k + 1, c.limit, n, Min(k + 1, c.buffer));
    PictureHalves(c, k, c.limit, n, Min(k, c.buffer));
    GivesBack(c, R, s, k);
    assert s.procs[k := LeaveLoad] == t.procs;
  }

  /** Holders leave; the pokes beyond the buffer are dropped. */
  lemma {:induction false} Leave(c: Config, R: Relation, k: nat)
    requires Starving(c) && RunLike(c, R) && k <= c.buffer + 1
    ensures var n := c.limit + c.buffer + 1;
            R(Picture(c, 0, c.limit, n, 0), Picture(c, k, c.limit, n, Min(k, c.buffer)))
  {
    if k == 0 {
    } else {
      Leave(c, R, k - 1);
      LeaveOne(c, R, k - 1);
    }
  }

  /** In the picture, one more running is the next waiter running. */
  lemma PictureRuns(c: Config, gone: nat, i: nat, waiting: nat, tokens: nat)
    requires c.Valid() && gone <= i < gone + c.limit && i < waiting <= c.limit + c.buffer + 1
    ensures Picture(c, gone, i, waiting, tokens).procs[i := Thunk] == Picture(c, gone, i + 1, waiting, tokens).procs
  {
  }

  /** A token wakes one waiter, which takes capacity. */
  lemma WakeOne(c: Config, R: Relation, i: nat, tokens: nat)
    requires Starving(c) && RunLike(c, R) && c.limit <= i < c.limit + c.buffer && tokens > 0
    ensures var n, g := c.limit + c.buffer + 1, c.buffer + 1;
            R(Picture(c, g, i, n, tokens), Picture(c, g, i + 1, n, tokens - 1))
  {
    var n, g := c.limit + c.buffer + 1, c.buffer + 1;
    var s := Picture(c, g, i, n, tokens);
    PictureHalves(c, g, i, n, tokens);
    PictureRuns(c, g, i, n, tokens - 1);
    Wakes(c, R, s, i);
    var e := Goto(s, i, AcquireLoad(true)).(tokens := tokens - 1);
    Takes(c, R, e, i);
    assert e.procs[i := Thunk] == s.procs[i := Thunk];
  }

  /** Every token is spent this way. */
  lemma {:induction false} Wake(c: Config, R: Relation, k: nat)
    requires Starving(c) && RunLike(c, R) && k <= c.buffer
    ensures var n, g := c.limit + c.buffer + 1, c.buffer + 1;
            R(Picture(c, g, c.limit, n, c.buffer), Picture(c, g, c.limit + k, n, c.buffer - k))
  {
    if k == 0 {
    } else {
      Wake(c, R, k - 1);
      WakeOne(c, R, c.limit + k - 1, c.buffer - k + 1);
    }
  }

  lemma EndStarved(c: Config)
    requires Starving(c)
    ensures Starved(Picture(c, c.buffer + 1, c.limit + c.buffer, c.limit + c.buffer + 1, 0))
  {
    var n, g := c.limit + c.buffer + 1, c.buffer + 1;
    var s := Picture(c, g, n - 1, n, 0);
    PictureHalves(c, g, n - 1, n, 0);
    assert s.procs[n - 1].Parked?;
    SumZero(s.procs, Woken);
    SumZero(s.procs, Pending);
  }

  /** Full, every other caller parked, and the channel empty. */
  lemma SetUp(c: Config, R: Relation)
    requires Starving(c) && RunLike(c, R)
    ensures var n := c.limit + c.buffer + 1; R(New(c, n), Picture(c, 0, c.limit, n, 0))
  {
    var n, L, b := c.limit + c.buffer + 1, c.limit, c.buffer;
    Fill(c, R, L);
    Park(c, R, b + 1);
    Drain(c, R, b);
  }

  /** One capacity more is given back than the channel can announce. */
  lemma Strand(c: Config, R: Relation)
    requires Starving(c) && RunLike(c, R)
    ensures var n := c.limit + c.buffer + 1;
            R(Picture(c, 0, c.limit, n, 0), Picture(c, c.buffer + 1, n - 1, n, 0))
  {
    var n, L, b := c.limit + c.buffer + 1, c.limit, c.buffer;
    Leave(c, R, b + 1);
    Wake(c, R, b);
  }

  lemma Whole(c: Config, R: Relation)
    requires Starving(c) && RunLike(c, R)
    ensures var n := c.limit + c.buffer + 1; R(New(c, n), Picture(c, c.buffer + 1, n - 1, n, 0))
  {
    SetUp(c, R);
    Strand(c, R);
  }

  lemma LeadsToStarved(c: Config)
    requires Starving(c)
    ensures var n := c.limit + c.buffer + 1; Leads(c, New(c, n), Picture(c, c.buffer + 1, n - 1, n, 0))
  {
    LeadsIsRunLike(c);
    Whole(c, (s, t) => Leads(c, s, t));
  }

  lemma StarvingRun(c: Config) returns (sched: Schedule)
    requires Starving(c)
    ensures Serving(sched) && Starved(Exec(c, New(c, c.limit + c.buffer + 1), sched))
  {
    var n := c.limit + c.buffer + 1;
    LeadsToStarved(c);
    sched := LeadsBy(c, New(c, n), Picture(c, c.buffer + 1, n - 1, n, 0));
    EndStarved(c);
  }

  ghost predicate CanStarve(c: Config)
    requires c.Valid()
  {
    exists n: nat, sched :: Serving(sched) && Starved(Exec(c, New(c, n), sched))
  }

  /** The exact condition, in the breaker's own parameters. */
  lemma StarvesIff(queueDepth: nat, maxConcurrency: nat, initialCapacity: nat)
    requires initialCapacity < HALF
    ensures CanStarve(Config(maxConcurrency, initialCapacity, queueDepth + maxConcurrency))
            <==> initialCapacity > maxConcurrency && queueDepth > initialCapacity
  {
    var c := Config(maxConcurrency, initialCapacity, queueDepth + maxConcurrency);
    if initialCapacity > maxConcurrency && queueDepth > initialCapacity {
      var sched := StarvingRun(c);
    } else {
      forall n: nat, sched | Serving(sched) ensures !Starved(Exec(c, New(c, n), sched)) {
        NotStarved(c, n, sched);
      }
    }
  }

  /** The shipped defaults, queue 100, concurrency 10, capacity 100, sit on the safe side by one slot. */
  lemma DefaultsNeverStarve()
    ensures !CanStarve(Config(10, 100, 110)) && CanStarve(Config(10, 100, 111))
  {
    StarvesIff(100, 10, 100);
    StarvesIff(101, 10, 100);
  }
}
