/** What every interleaving of the admission machine keeps. */
module AdmissionSafety {
  import opened Admission
  import opened Counting
  import opened Word

  /** Has acquired capacity and not yet given it back. */
  function Holding(pc: Pc): nat {
    if pc.Thunk? || pc.ReleaseLoad? || pc.ReleaseCas? then 1 else 0
  }

  /** Took a token and has since neither acquired nor seen a full word. */
  function Woken(pc: Pc): nat {
    if (pc.AcquireLoad? || pc.AcquireCas?) && pc.woken then 1 else 0
  }

  /** Sends to the channel that are still to be made. */
  function Pending(pc: Pc): nat {
    if pc.Poke? then 1 else if pc.ResizePush? then pc.left else 0
  }

  /** Is inside `Maybe`, past the slot check and before the end of the slot release. */
  function Live(pc: Pc): nat {
    if pc.Idle? || pc.SlotLoad? || pc.SlotCas? || pc.ResizeLoad? || pc.ResizeCas? || pc.ResizePush? then 0 else 1
  }

  function Holders(s: State): nat { Sum(s.procs, Holding) }
  function WokenCount(s: State): nat { Sum(s.procs, Woken) }
  function PendingPokes(s: State): nat { Sum(s.procs, Pending) }
  function LiveCalls(s: State): nat { Sum(s.procs, Live) }

  function Min(a: int, b: int): int { if a < b then a else b }

  /** What a goroutine's own locals guarantee. */
  predicate PcOk(c: Config, pc: Pc) {
    match pc
    case AcquireCas(seen, _) => In(seen) < Capacity(seen)
    case ReleaseCas(seen) => In(seen) > 0
    case SlotCas(cur) => cur < c.totalSlots
    case ResizeLoad(size) => size <= c.limit
    case ResizeCas(size, seen) => size <= c.limit
    case Panicked => false
    case _ => true
  }

  ghost predicate PcsOk(c: Config, s: State) {
    forall i :: 0 <= i < |s.procs| ==> PcOk(c, s.procs[i])
  }

  ghost predicate SemaphoreInv(c: Config, s: State) {
    && In(s.word) == Holders(s) <= c.limit
    && Capacity(s.word) <= c.limit
    && s.tokens <= c.buffer
  }

  ghost predicate NoLostWakeup(s: State) {
    Capacity(s.word) - In(s.word) <= s.tokens + WokenCount(s) + PendingPokes(s)
  }

  ghost predicate NoStall(c: Config, s: State) {
    Min(c.buffer, Capacity(s.word)) <= s.tokens + WokenCount(s) + PendingPokes(s) + In(s.word)
  }

  ghost predicate BreakerInv(c: Config, s: State) {
    && s.inFlight == LiveCalls(s) + s.leaked
    && (s.inFlight <= c.totalSlots || s.inFlight == 0)
  }

  ghost predicate Inv(c: Config, s: State) {
    && PcsOk(c, s)
    && SemaphoreInv(c, s)
    && NoStall(c, s)
    && (c.limit <= c.buffer ==> NoLostWakeup(s))
    && BreakerInv(c, s)
  }

  /** How the four counts change when goroutine `i` moves to `pc`. */
  lemma Counts(s: State, i: nat, pc: Pc)
    requires i < |s.procs|
    ensures var s' := Goto(s, i, pc);
            && Holders(s') == Holders(s) - Holding(s.procs[i]) + Holding(pc)
            && WokenCount(s') == WokenCount(s) - Woken(s.procs[i]) + Woken(pc)
            && PendingPokes(s') == PendingPokes(s) - Pending(s.procs[i]) + Pending(pc)
            && LiveCalls(s') == LiveCalls(s) - Live(s.procs[i]) + Live(pc)
    ensures Holders(s) >= Holding(s.procs[i])
  {
    SumUpdate(s.procs, i, pc, Holding);
    SumUpdate(s.procs, i, pc, Woken);
    SumUpdate(s.procs, i, pc, Pending);
    SumUpdate(s.procs, i, pc, Live);
    SumAtLeast(s.procs, i, Holding);
  }

  /** Writing a word with 32-bit halves sets exactly those halves. */
  lemma Halves(capacity: Uint64, holders: Uint64)
    requires capacity < HALF && holders < HALF
    ensures Capacity(Pack(capacity, holders)) == capacity && In(Pack(capacity, holders)) == holders
  {
  }

  lemma InitInv(c: Config, n: nat)
    requires c.Valid()
    ensures Inv(c, Init(n))
  {
    var s := Init(n);
    SumZero(s.procs, Holding);
    SumZero(s.procs, Woken);
    SumZero(s.procs, Pending);
    SumZero(s.procs, Live);
  }

  lemma StepInv(c: Config, s: State, i: nat, a: Action)
    requires c.Valid() && Inv(c, s)
    ensures Inv(c, Step(c, s, i, a))
  {
    if i < |s.procs| {
      var pc := s.procs[i];
      match a
      case Call => Counts(s, i, SlotLoad);
      case Resize(size) => Counts(s, i, ResizeLoad(size));
      case Cancel => Counts(s, i, LeaveLoad);
      case Hand(to) =>
        if Sending(pc) && to < |s.procs| && s.procs[to].Parked? && s.tokens == 0 {
          HandStep(c, s, i, to);
        }
      case Run =>
        match pc
        case Idle =>
        case Panicked =>
        case SlotLoad => BreakerStep(c, s, i);
        case SlotCas(_) => BreakerStep(c, s, i);
        case LeaveLoad => BreakerStep(c, s, i);
        case LeaveCas(_) => BreakerStep(c, s, i);
        case AcquireLoad(_) => AcquireStep(c, s, i);
        case AcquireCas(_, _) => TakeStep(c, s, i);
        case Parked => AcquireStep(c, s, i);
        case Thunk => ReleaseStep(c, s, i);
        case ReleaseLoad => ReleaseStep(c, s, i);
        case ReleaseCas(_) => GiveBackStep(c, s, i);
        case Poke => ReleaseStep(c, s, i);
        case ResizeLoad(_) => ResizeStep(c, s, i);
        case ResizeCas(_, _) => SetCapacityStep(c, s, i);
        case ResizePush(_) => ResizeStep(c, s, i);
    }
  }

  lemma BreakerStep(c: Config, s: State, i: nat)
    requires c.Valid() && Inv(c, s) && i < |s.procs|
    requires var pc := s.procs[i]; pc.SlotLoad? || pc.SlotCas? || pc.LeaveLoad? || pc.LeaveCas?
    ensures Inv(c, Advance(c, s, i))
  {
    var s' := Advance(c, s, i);
    Counts(s, i, s'.procs[i]);
  }

  lemma AcquireStep(c: Config, s: State, i: nat)
    requires c.Valid() && Inv(c, s) && i < |s.procs|
    requires var pc := s.procs[i]; pc.AcquireLoad? || pc.Parked?
    ensures Inv(c, Advance(c, s, i))
  {
    var s' := Advance(c, s, i);
    Counts(s, i, s'.procs[i]);
  }

  lemma TakeStep(c: Config, s: State, i: nat)
    requires c.Valid() && Inv(c, s) && i < |s.procs| && s.procs[i].AcquireCas?
    ensures Inv(c, Advance(c, s, i))
  {
    var s' := Advance(c, s, i);
    Counts(s, i, s'.procs[i]);
    if s.word == s.procs[i].seen {
      Halves(Capacity(s.word), In(s.word) + 1);
    }
  }

  lemma ReleaseStep(c: Config, s: State, i: nat)
    requires c.Valid() && Inv(c, s) && i < |s.procs|
    requires var pc := s.procs[i]; pc.Thunk? || pc.ReleaseLoad? || pc.Poke?
    ensures Inv(c, Advance(c, s, i))
  {
    var s' := Advance(c, s, i);
    Counts(s, i, s'.procs[i]);
  }

  lemma GiveBackStep(c: Config, s: State, i: nat)
    requires c.Valid() && Inv(c, s) && i < |s.procs| && s.procs[i].ReleaseCas?
    ensures Inv(c, Advance(c, s, i))
  {
    if s.word == s.procs[i].seen {
      GiveBackWins(c, s, i);
    } else {
      Counts(s, i, ReleaseLoad);
    }
  }

  lemma GiveBackWins(c: Config, s: State, i: nat)
    requires c.Valid() && Inv(c, s) && i < |s.procs| && s.procs[i] == ReleaseCas(s.word)
    ensures Inv(c, Advance(c, s, i))
  {
    Counts(s, i, Advance(c, s, i).procs[i]);
    Halves(Capacity(s.word), In(s.word) - 1);
  }

  /** A token handed over is a pending send that became a woken waiter. */
  lemma HandStep(c: Config, s: State, i: nat, to: nat)
    requires Inv(c, s) && i < |s.procs| && to < |s.procs| && Sending(s.procs[i]) && s.procs[to].Parked?
    ensures Inv(c, HandOver(s, i, to))
  {
    var pc := Sent(s.procs[i]);
    Counts(s, i, pc);
    Counts(Goto(s, i, pc), to, AcquireLoad(true));
  }

  lemma ResizeStep(c: Config, s: State, i: nat)
    requires c.Valid() && Inv(c, s) && i < |s.procs|
    requires var pc := s.procs[i]; pc.ResizeLoad? || pc.ResizePush?
    ensures Inv(c, Advance(c, s, i))
  {
    var s' := Advance(c, s, i);
    Counts(s, i, s'.procs[i]);
  }

  lemma SetCapacityStep(c: Config, s: State, i: nat)
    requires c.Valid() && Inv(c, s) && i < |s.procs| && s.procs[i].ResizeCas?
    ensures Inv(c, Advance(c, s, i))
  {
    var s' := Advance(c, s, i);
    Counts(s, i, s'.procs[i]);
    Halves(s.procs[i].size, In(s.word));
  }

  /** Every reachable state satisfies the invariant. */
  lemma {:induction false} Reachable(c: Config, n: nat, sched: Schedule)
    requires c.Valid()
    ensures Inv(c, Exec(c, Init(n), sched))
  {
    if sched == [] {
      InitInv(c, n);
    } else {
      var k := |sched| - 1;
      Reachable(c, n, sched[..k]);
      StepInv(c, Exec(c, Init(n), sched[..k]), sched[k].0, sched[k].1);
    }
  }
}
