/**
 When can a waiter sleep beside free capacity? In the resolver the capacity is set once, by the
 constructor, so the runs here start from a new semaphore and never resize it. The answer is
 exact: the wake-ups suffice if and only if the capacity fits the channel's buffer or the breaker
 admits too few calls to park more waiters than the buffer holds tokens.
 */
module Starvation {
  import opened Admission
  import opened AdmissionSafety
  import opened AdmissionTheorems
  import opened BreakerTheorems
  import opened Counting
  import opened Word

  /** A semaphore as the constructor leaves it: capacity `limit`, its pokes in the channel. */
  function New(c: Config, n: nat): State
    requires c.Valid()
  {
    State(Pack(c.limit, 0), Min(c.buffer, c.limit), 0, 0, seq(n, _ => Idle))
  }

  /** The capacity pokes of the constructor, `left` of them still to be sent. */
  lemma {:induction false} PushAll(c: Config, s: State, left: nat) returns (sched: Schedule)
    requires c.Valid() && |s.procs| > 0 && s.procs[0] == ResizePush(left) && left > 0 && s.tokens <= c.buffer
    ensures Exec(c, s, sched) == Goto(s, 0, Idle).(tokens := Min(c.buffer, s.tokens + left))
    decreases left
  {
    var one := [(0, Run)];
    assert one[..0] == [];
    var s' := Step(c, s, 0, Run);
    assert Exec(c, s, one) == s';
    if left == 1 {
      sched := one;
    } else {
      var rest := PushAll(c, s', left - 1);
      sched := one + rest;
      ExecAppend(c, s, one, rest);
      assert s.procs[0 := ResizePush(left - 1)][0 := Idle] == s.procs[0 := Idle];
    }
  }

  /** Running `updateCapacity(InitialCapacity)` on the zero word gives the new semaphore. */
  lemma ConstructorGivesNew(c: Config, n: nat) returns (sched: Schedule)
    requires c.Valid() && n > 0
    ensures Exec(c, Init(n), sched) == New(c, n)
  {
    var s0, begin := Init(n), [(0, Resize(c.limit)), (0, Run)];
    var s1 := After2(c, s0, begin);
    if c.limit == 0 {
      sched := begin;
      assert s1.procs == s0.procs;
      assert Pack(0, 0) == 0;
    } else {
      assert s1.procs[0] == ResizeCas(c.limit, 0);
      var cas := [(0, Run)];
      assert cas[..0] == [];
      var s2 := Step(c, s1, 0, Run);
      assert s2.procs[0] == ResizePush(c.limit);
      assert Exec(c, s1, cas) == s2;
      var rest := PushAll(c, s2, c.limit);
      sched := begin + cas + rest;
      ExecAppend(c, s0, begin + cas, rest);
      ExecAppend(c, s0, begin, cas);
      assert s2.procs[0 := Idle] == New(c, n).procs;
    }
  }

  /** A schedule of the running resolver: calls and cancellations, no capacity change. */
  ghost predicate Serving(sched: Schedule) {
    forall k :: 0 <= k < |sched| ==> !sched[k].1.Resize?
  }

  function Parking(pc: Pc): nat { if pc.Parked? then 1 else 0 }

  function ParkedCount(s: State): nat { Sum(s.procs, Parking) }

  /** Free capacity that no token, woken waiter or pending poke stands for. */
  function Deficit(s: State): int {
    Capacity(s.word) - In(s.word) - s.tokens - WokenCount(s) - PendingPokes(s)
  }

  predicate Resizing(pc: Pc) { pc.ResizeLoad? || pc.ResizeCas? || pc.ResizePush? }

  ghost predicate Fixed(c: Config, s: State) {
    && Capacity(s.word) == c.limit
    && forall i :: 0 <= i < |s.procs| ==> !Resizing(s.procs[i])
  }

  /** Parked waiters fit beside a full semaphore; in deficit, each of them has a token. */
  ghost predicate Served(c: Config, s: State) {
    && (ParkedCount(s) == 0 || ParkedCount(s) + c.limit <= c.totalSlots)
    && (Deficit(s) > 0 ==> ParkedCount(s) <= s.tokens)
  }

  lemma {:induction false} SumPair(s: seq<Pc>)
    ensures Sum(s, Parking) + Sum(s, Holding) <= Sum(s, Live)
  {
    if s == [] {
    } else {
      SumPair(s[..|s| - 1]);
    }
  }

  lemma NewInv(c: Config, n: nat)
    requires c.Valid()
    ensures var s := New(c, n); Inv(c, s) && Fixed(c, s) && Served(c, s)
  {
    var s := New(c, n);
    Halves(c.limit, 0);
    SumZero(s.procs, Holding);
    SumZero(s.procs, Woken);
    SumZero(s.procs, Pending);
    SumZero(s.procs, Live);
    SumZero(s.procs, Parking);
  }

  /** A goroutine that is not resizing does not begin to by itself. */
  lemma AdvanceResizes(c: Config, s: State, i: nat)
    requires i < |s.procs| && !Resizing(s.procs[i])
    ensures !Resizing(Advance(c, s, i).procs[i])
  {
  }

  lemma StepFixed(c: Config, s: State, i: nat, a: Action)
    requires c.Valid() && Inv(c, s) && Fixed(c, s) && !a.Resize?
    ensures Fixed(c, Step(c, s, i, a))
  {
    if a.Run? && i < |s.procs| {
      AdvanceResizes(c, s, i);
      AdvanceOnlyMoves(c, s, i);
      AdvanceCapacity(c, s, i);
    }
  }

  /** What one step does to the parked count, the tokens and the deficit. */
  ghost predicate Effect(c: Config, s: State, s': State) {
    || (ParkedCount(s') == ParkedCount(s) + 1 && In(s'.word) >= Capacity(s'.word) && s'.word == s.word)
    || (ParkedCount(s') <= ParkedCount(s) && s'.tokens == c.buffer)
    || (ParkedCount(s') <= ParkedCount(s) && Deficit(s') <= Deficit(s)
        && s'.tokens - ParkedCount(s') >= s.tokens - ParkedCount(s))
  }

  lemma MoveEffect(c: Config, s: State, i: nat)
    requires c.Valid() && SemaphoreInv(c, s) && Fixed(c, s) && i < |s.procs|
    requires !s.procs[i].AcquireCas? && !s.procs[i].ReleaseCas?
    ensures Effect(c, s, Advance(c, s, i))
  {
    var s' := Advance(c, s, i);
    Counts(s, i, s'.procs[i]);
    SumUpdate(s.procs, i, s'.procs[i], Parking);
  }

  lemma TakeEffect(c: Config, s: State, i: nat)
    requires c.Valid() && SemaphoreInv(c, s) && i < |s.procs| && s.procs[i].AcquireCas? && PcOk(c, s.procs[i])
    ensures Effect(c, s, Advance(c, s, i))
  {
    var s' := Advance(c, s, i);
    Counts(s, i, s'.procs[i]);
    SumUpdate(s.procs, i, s'.procs[i], Parking);
    if s.word == s.procs[i].seen {
      Halves(Capacity(s.word), In(s.word) + 1);
    }
  }

  lemma GiveBackEffect(c: Config, s: State, i: nat)
    requires c.Valid() && SemaphoreInv(c, s) && i < |s.procs| && s.procs[i].ReleaseCas? && PcOk(c, s.procs[i])
    requires Capacity(s.word) == c.limit
    ensures Effect(c, s, Advance(c, s, i))
  {
    var s' := Advance(c, s, i);
    Counts(s, i, s'.procs[i]);
    SumUpdate(s.procs, i, s'.procs[i], Parking);
    if s.word == s.procs[i].seen {
      Halves(Capacity(s.word), In(s.word) - 1);
    }
  }

  lemma HandEffect(c: Config, s: State, i: nat, to: nat)
    requires i < |s.procs| && to < |s.procs| && Sending(s.procs[i]) && s.procs[to].Parked?
    ensures Effect(c, s, HandOver(s, i, to))
  {
    var pc := Sent(s.procs[i]);
    var t := Goto(s, i, pc);
    Counts(s, i, pc);
    Counts(t, to, AcquireLoad(true));
    SumUpdate(s.procs, i, pc, Parking);
    SumUpdate(t.procs, to, AcquireLoad(true), Parking);
  }

  lemma StepEffect(c: Config, s: State, i: nat, a: Action)
    requires c.Valid() && PcsOk(c, s) && SemaphoreInv(c, s) && Fixed(c, s) && !a.Resize?
    ensures Effect(c, s, Step(c, s, i, a))
  {
    if i < |s.procs| {
      if a.Hand? {
        if Step(c, s, i, a) != s {
          HandEffect(c, s, i, a.to);
        }
      } else if !a.Run? {
        var pc := Step(c, s, i, a).procs[i];
        Counts(s, i, pc);
        SumUpdate(s.procs, i, pc, Parking);
      } else if s.procs[i].AcquireCas? {
        TakeEffect(c, s, i);
      } else if s.procs[i].ReleaseCas? {
        GiveBackEffect(c, s, i);
      } else {
        MoveEffect(c, s, i);
      }
    }
  }

  lemma StepServed(c: Config, s: State, s': State)
    requires Served(c, s) && Effect(c, s, s') && c.totalSlots <= c.limit + c.buffer
    requires SemaphoreInv(c, s') && BreakerInv(c, s') && Capacity(s'.word) == c.limit
    ensures Served(c, s')
  {
    SumPair(s'.procs);
  }

  lemma {:induction false} ServedRun(c: Config, n: nat, sched: Schedule)
    requires c.Valid() && Serving(sched)
    ensures var s := Exec(c, New(c, n), sched);
            Inv(c, s) && Fixed(c, s) && (c.totalSlots <= c.limit + c.buffer ==> Served(c, s))
  {
    if sched == [] {
      NewInv(c, n);
    } else {
      var k := |sched| - 1;
      var s := Exec(c, New(c, n), sched[..k]);
      ServedRun(c, n, sched[..k]);
      StepInv(c, s, sched[k].0, sched[k].1);
      StepFixed(c, s, sched[k].0, sched[k].1);
      if c.totalSlots <= c.limit + c.buffer {
        StepEffect(c, s, sched[k].0, sched[k].1);
        StepServed(c, s, Exec(c, New(c, n), sched));
      }
    }
  }

  lemma NotStarved(c: Config, n: nat, sched: Schedule)
    requires c.Valid() && Serving(sched)
    requires c.limit <= c.buffer || c.totalSlots <= c.limit + c.buffer
    ensures !Starved(Exec(c, New(c, n), sched))
  {
    var s := Exec(c, New(c, n), sched);
    ServedRun(c, n, sched);
    if Starved(s) {
      var i :| 0 <= i < |s.procs| && s.procs[i].Parked?;
      SumAtLeast(s.procs, i, Parking);
    }
  }
}
