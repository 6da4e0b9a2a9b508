/** The promises of the semaphore and the breaker, for every run of the machine. */
module AdmissionTheorems {
  import opened Admission
  import opened AdmissionSafety
  import opened Counting
  import opened Word

  /** Someone is parked although capacity is free, and nothing will wake it. */
  ghost predicate Starved(s: State) {
    && (exists i :: 0 <= i < |s.procs| && s.procs[i].Parked?)
    && In(s.word) < Capacity(s.word)
    && s.tokens == 0 && WokenCount(s) == 0 && PendingPokes(s) == 0
  }

  /** With a buffer at least as large as every capacity set, no wake-up is lost. */
  lemma NoLostWakeups(c: Config, n: nat, sched: Schedule)
    requires c.Valid() && c.limit <= c.buffer
    ensures var s := Exec(c, Init(n), sched);
            && Capacity(s.word) - In(s.word) <= s.tokens + WokenCount(s) + PendingPokes(s)
            && !Starved(s)
  {
    Reachable(c, n, sched);
  }

  /** For any buffer, free capacity up to the buffer size is backed by a holder or a wake-up. */
  lemma NoGlobalStall(c: Config, n: nat, sched: Schedule)
    requires c.Valid()
    ensures var s := Exec(c, Init(n), sched);
            Min(c.buffer, Capacity(s.word)) <= s.tokens + WokenCount(s) + PendingPokes(s) + In(s.word)
  {
    Reachable(c, n, sched);
  }

  /** If every goroutine is idle or parked, a token is waiting for the parked ones. */
  lemma NeverAllParked(c: Config, n: nat, sched: Schedule)
    requires c.Valid() && c.buffer > 0
    ensures var s := Exec(c, Init(n), sched);
            Capacity(s.word) > 0 && (forall i :: 0 <= i < |s.procs| ==> s.procs[i].Idle? || s.procs[i].Parked?)
            ==> s.tokens > 0
  {
    var s := Exec(c, Init(n), sched);
    Reachable(c, n, sched);
    if forall i :: 0 <= i < |s.procs| ==> s.procs[i].Idle? || s.procs[i].Parked? {
      SumZero(s.procs, Holding);
      SumZero(s.procs, Woken);
      SumZero(s.procs, Pending);
    }
  }

  /** `release` never finds a zero holder count, so its panic is unreachable. */
  lemma NeverPanics(c: Config, n: nat, sched: Schedule)
    requires c.Valid()
    ensures forall pc :: pc in Exec(c, Init(n), sched).procs ==> !pc.Panicked?
  {
    Reachable(c, n, sched);
  }

  function Executing(pc: Pc): nat { if pc.Thunk? then 1 else 0 }

  lemma {:induction false} SumMonotone<T>(s: seq<T>, f: T -> nat, g: T -> nat)
    requires forall x :: f(x) <= g(x)
    ensures Sum(s, f) <= Sum(s, g)
  {
    if s == [] {
    } else {
      SumMonotone(s[..|s| - 1], f, g);
    }
  }

  /** No more thunks run at once than the largest capacity set; for `Maybe`, InitialCapacity. */
  lemma ConcurrencyBound(c: Config, n: nat, sched: Schedule)
    requires c.Valid()
    ensures var s := Exec(c, Init(n), sched);
            Sum(s.procs, Executing) <= Holders(s) == In(s.word) <= c.limit
  {
    Reachable(c, n, sched);
    SumMonotone(Exec(c, Init(n), sched).procs, Executing, Holding);
  }

  // ----- refinement of a counting semaphore

  /** A semaphore that knows its owners. */
  datatype Owned = Owned(capacity: nat, owners: set<nat>)

  function Owners(procs: seq<Pc>): set<nat> {
    set i: nat | i < |procs| && Holding(procs[i]) == 1
  }

  function Abstract(s: State): Owned {
    Owned(Capacity(s.word), Owners(s.procs))
  }

  /** One atomic operation of the counting semaphore by `i`, or nothing. */
  ghost predicate OwnedStep(limit: nat, a: Owned, b: Owned, i: nat) {
    || a == b
    || (i !in a.owners && |a.owners| < a.capacity && b == a.(owners := a.owners + {i}))
    || (i in a.owners && b == a.(owners := a.owners - {i}))
    || (b.capacity <= limit && b == a.(capacity := b.capacity))
  }

  lemma {:induction false} OwnersCard(procs: seq<Pc>)
    ensures |Owners(procs)| == Sum(procs, Holding)
  {
    if procs == [] {
    } else {
      var n := |procs| - 1;
      OwnersCard(procs[..n]);
      assert Owners(procs) == Owners(procs[..n]) + if Holding(procs[n]) == 1 then {n} else {};
    }
  }

  /** Moving goroutine `i` changes at most its own ownership. */
  lemma OwnersAfterGoto(s: State, i: nat, pc: Pc)
    requires i < |s.procs|
    ensures var owners := Abstract(s).owners;
            Abstract(Goto(s, i, pc)).owners == if Holding(pc) == 1 then owners + {i} else owners - {i}
  {
  }

  lemma AdvanceOnlyMoves(c: Config, s: State, i: nat)
    requires i < |s.procs|
    ensures |Advance(c, s, i).procs| == |s.procs|
    ensures Advance(c, s, i).procs == Goto(s, i, Advance(c, s, i).procs[i]).procs
  {
  }

  lemma TakeCapacity(c: Config, s: State, i: nat)
    requires c.Valid() && Inv(c, s) && i < |s.procs| && s.procs[i].AcquireCas?
    ensures var s' := Advance(c, s, i);
            Capacity(s'.word) == Capacity(s.word) && (s'.procs[i].Thunk? ==> In(s.word) < Capacity(s.word))
  {
    if s.word == s.procs[i].seen {
      Halves(Capacity(s.word), In(s.word) + 1);
    }
  }

  lemma GiveBackCapacity(c: Config, s: State, i: nat)
    requires c.Valid() && Inv(c, s) && i < |s.procs| && s.procs[i].ReleaseCas?
    ensures Capacity(Advance(c, s, i).word) == Capacity(s.word)
  {
    if s.word == s.procs[i].seen {
      Halves(Capacity(s.word), In(s.word) - 1);
    }
  }

  lemma ResizeCapacity(c: Config, s: State, i: nat)
    requires c.Valid() && Inv(c, s) && i < |s.procs| && s.procs[i].ResizeCas?
    ensures Capacity(Advance(c, s, i).word) == Capacity(s.word) || Capacity(Advance(c, s, i).word) <= c.limit
  {
    if s.word == s.procs[i].seen {
      Halves(s.procs[i].size, In(s.word));
    }
  }

  predicate WritesWord(pc: Pc) { pc.AcquireCas? || pc.ReleaseCas? || pc.ResizeCas? }

  /** Only the three compare-and-swaps write the word, and only the first begins to hold capacity. */
  lemma AdvanceFrame(c: Config, s: State, i: nat)
    requires i < |s.procs|
    ensures var s' := Advance(c, s, i);
            && (!WritesWord(s.procs[i]) ==> s'.word == s.word)
            && (s.procs[i].ResizeCas? ==> Holding(s'.procs[i]) == 0)
            && (Holding(s'.procs[i]) > Holding(s.procs[i]) ==> s.procs[i].AcquireCas? && s'.procs[i].Thunk?)
  {
  }

  /** The capacity half changes only at a capacity compare-and-swap, which holds nothing. */
  lemma AdvanceCapacity(c: Config, s: State, i: nat)
    requires c.Valid() && Inv(c, s) && i < |s.procs|
    ensures var s' := Advance(c, s, i);
            && (Capacity(s'.word) == Capacity(s.word)
                || (s.procs[i].ResizeCas? && Holding(s'.procs[i]) == 0 && Capacity(s'.word) <= c.limit))
            && (Holding(s'.procs[i]) > Holding(s.procs[i]) ==> In(s.word) < Capacity(s.word))
  {
    AdvanceFrame(c, s, i);
    if s.procs[i].AcquireCas? {
      TakeCapacity(c, s, i);
    } else if s.procs[i].ReleaseCas? {
      GiveBackCapacity(c, s, i);
    } else if s.procs[i].ResizeCas? {
      ResizeCapacity(c, s, i);
    }
  }

  /** An operation of the counting semaphore, told by who holds before and after. */
  lemma OwnedMove(limit: nat, a: Owned, b: Owned, i: nat, held: bool, holds: bool)
    requires held <==> i in a.owners
    requires b.owners == if holds then a.owners + {i} else a.owners - {i}
    requires b.capacity == a.capacity || (!held && !holds && b.capacity <= limit)
    requires holds && !held ==> |a.owners| < a.capacity
    ensures OwnedStep(limit, a, b, i)
  {
    if held == holds {
      assert b.owners == a.owners;
    }
  }

  lemma AdvanceRefines(c: Config, s: State, i: nat)
    requires c.Valid() && Inv(c, s) && i < |s.procs|
    ensures OwnedStep(c.limit, Abstract(s), Abstract(Advance(c, s, i)), i)
  {
    var s' := Advance(c, s, i);
    OwnersCard(s.procs);
    AdvanceOnlyMoves(c, s, i);
    OwnersAfterGoto(s, i, s'.procs[i]);
    AdvanceCapacity(c, s, i);
    OwnedMove(c.limit, Abstract(s), Abstract(s'), i, Holding(s.procs[i]) == 1, Holding(s'.procs[i]) == 1);
  }

  /** A hand-off moves two goroutines of which neither holds capacity. */
  lemma HandRefines(s: State, i: nat, to: nat)
    requires i < |s.procs| && to < |s.procs| && Sending(s.procs[i]) && s.procs[to].Parked?
    ensures Abstract(HandOver(s, i, to)) == Abstract(s)
  {
    var pc := Sent(s.procs[i]);
    OwnersAfterGoto(s, i, pc);
    OwnersAfterGoto(Goto(s, i, pc), to, AcquireLoad(true));
    assert i !in Owners(s.procs) && to !in Owners(s.procs);
  }

  lemma StepRefines(c: Config, s: State, i: nat, a: Action)
    requires c.Valid() && Inv(c, s)
    ensures OwnedStep(c.limit, Abstract(s), Abstract(Step(c, s, i, a)), i)
  {
    if i < |s.procs| {
      match a
      case Run => AdvanceRefines(c, s, i);
      case Hand(to) =>
        if Sending(s.procs[i]) && to < |s.procs| && s.procs[to].Parked? && s.tokens == 0 {
          HandRefines(s, i, to);
        }
      case Call => OwnersAfterGoto(s, i, SlotLoad);
      case Resize(size) => OwnersAfterGoto(s, i, ResizeLoad(size));
      case Cancel => OwnersAfterGoto(s, i, LeaveLoad);
    }
  }

  /** Every run of the packed loops is, step for step, a run of the counting semaphore. */
  lemma RefinesCounting(c: Config, n: nat, sched: Schedule, k: nat)
    requires c.Valid() && k < |sched|
    ensures var s, s' := Exec(c, Init(n), sched[..k]), Exec(c, Init(n), sched[..k + 1]);
            && In(s.word) == |Abstract(s).owners|
            && OwnedStep(c.limit, Abstract(s), Abstract(s'), sched[k].0)
  {
    var s := Exec(c, Init(n), sched[..k]);
    Reachable(c, n, sched[..k]);
    OwnersCard(s.procs);
    assert sched[..k + 1][..k] == sched[..k];
    StepRefines(c, s, sched[k].0, sched[k].1);
  }
}
