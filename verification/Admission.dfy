/**
 The resolver's admission path as a machine of goroutines.

 A goroutine is a program counter with the word it loaded; one step is one load, one
 compare-and-swap or one channel operation. The wake-up channel is the number of
 tokens in its buffer. A goroutine that saw a full word is `Parked`, whether it has reached the
 select or not: a send finds it blocked there and hands the token over (`Hand`), or finds it still
 on its way and fills the buffer or drops the token (`Run`).
 */
module Admission {
  import opened Word

  /** `buffer` is the channel's size and `limit` bounds every capacity asked for. */
  datatype Config = Config(buffer: nat, limit: nat, totalSlots: int) {
    ghost predicate Valid() { limit < HALF }
  }

  datatype Pc =
    | Idle
    // Breaker.tryAcquireInFlightSlot
    | SlotLoad
    | SlotCas(cur: int)
    // semaphore.acquire; `woken` says a token was taken since the last full word was seen
    | AcquireLoad(woken: bool)
    | AcquireCas(seen: Uint64, woken: bool)
    | Parked
    // the thunk, then semaphore.release
    | Thunk
    | ReleaseLoad
    | ReleaseCas(seen: Uint64)
    | Poke
    | Panicked
    // Breaker.releaseInFlightSlot
    | LeaveLoad
    | LeaveCas(cur: int)
    // semaphore.updateCapacity
    | ResizeLoad(size: Uint64)
    | ResizeCas(size: Uint64, seen: Uint64)
    | ResizePush(left: nat)

  /** `leaked` counts the slot releases whose compare-and-swap failed. */
  datatype State = State(word: Uint64, tokens: nat, inFlight: int, leaked: nat, procs: seq<Pc>)

  /** `Run` is the goroutine's next step; at `Parked` it receives a token, `Cancel` is ctx.Done.
      `Hand` is a send that meets goroutine `to` blocked on the empty channel. */
  datatype Action = Call | Resize(size: Uint64) | Run | Hand(to: nat) | Cancel

  function Push(c: Config, tokens: nat): nat {
    if tokens < c.buffer then tokens + 1 else tokens
  }

  predicate Sending(pc: Pc) { pc.Poke? || (pc.ResizePush? && pc.left > 0) }

  /** Where a goroutine goes on after one send. */
  function Sent(pc: Pc): Pc
    requires Sending(pc)
  {
    if pc.Poke? then LeaveLoad else if pc.left == 1 then Idle else ResizePush(pc.left - 1)
  }

  /** One step of goroutine `i`; an action that is not enabled leaves the state as it is. */
  function Step(c: Config, s: State, i: nat, a: Action): State
    requires c.Valid()
  {
    if i >= |s.procs| then s else
    match a
    case Call => if s.procs[i].Idle? then Goto(s, i, SlotLoad) else s
    case Resize(size) => if s.procs[i].Idle? && size <= c.limit then Goto(s, i, ResizeLoad(size)) else s
    case Cancel => if s.procs[i].Parked? then Goto(s, i, LeaveLoad) else s
    case Hand(to) =>
      if Sending(s.procs[i]) && to < |s.procs| && s.procs[to].Parked? && s.tokens == 0 then HandOver(s, i, to) else s
    case Run => Advance(c, s, i)
  }

  function Goto(s: State, i: nat, pc: Pc): State
    requires i < |s.procs|
  {
    s.(procs := s.procs[i := pc])
  }

  function HandOver(s: State, i: nat, to: nat): State
    requires i < |s.procs| && to < |s.procs| && Sending(s.procs[i])
  {
    Goto(Goto(s, i, Sent(s.procs[i])), to, AcquireLoad(true))
  }

  function Advance(c: Config, s: State, i: nat): State
    requires i < |s.procs|
  {
    match s.procs[i]
    case Idle => s
    case SlotLoad => Goto(s, i, if s.inFlight >= c.totalSlots then Idle else SlotCas(s.inFlight))
    case SlotCas(cur) =>
      if s.inFlight == cur then Goto(s, i, AcquireLoad(false)).(inFlight := cur + 1)
      else Goto(s, i, SlotLoad)
    case AcquireLoad(woken) =>
      Goto(s, i, if In(s.word) >= Capacity(s.word) then Parked else AcquireCas(s.word, woken))
    case AcquireCas(seen, woken) =>
      if s.word == seen then Goto(s, i, Thunk).(word := Pack(Capacity(seen), In(seen) + 1))
      else Goto(s, i, AcquireLoad(woken))
    case Parked =>
      if s.tokens > 0 then Goto(s, i, AcquireLoad(true)).(tokens := s.tokens - 1) else s
    case Thunk => Goto(s, i, ReleaseLoad)
    case ReleaseLoad => Goto(s, i, if In(s.word) == 0 then Panicked else ReleaseCas(s.word))
    case ReleaseCas(seen) =>
      if s.word == seen then
        var left := Dec(In(seen));
        Goto(s, i, if left < Capacity(seen) then Poke else LeaveLoad).(word := Pack(Capacity(seen), left))
      else Goto(s, i, ReleaseLoad)
    case Poke => Goto(s, i, Sent(Poke)).(tokens := Push(c, s.tokens))
    case Panicked => s
    case LeaveLoad => Goto(s, i, LeaveCas(s.inFlight))
    case LeaveCas(cur) =>
      if s.inFlight == cur then Goto(s, i, Idle).(inFlight := cur - 1)
      else Goto(s, i, Idle).(leaked := s.leaked + 1)
    case ResizeLoad(size) =>
      Goto(s, i, if Capacity(s.word) == size then Idle else ResizeCas(size, s.word))
    case ResizeCas(size, seen) =>
      if s.word == seen then
        Goto(s, i, if size > Capacity(seen) then ResizePush(size - Capacity(seen)) else Idle)
          .(word := Pack(size, In(seen)))
      else Goto(s, i, ResizeLoad(size))
    case ResizePush(left) =>
      if left == 0 then Goto(s, i, Idle) else Goto(s, i, Sent(s.procs[i])).(tokens := Push(c, s.tokens))
  }

  type Schedule = seq<(nat, Action)>

  /** The state after a schedule; every interleaving of every set of calls is one. */
  function Exec(c: Config, s: State, sched: Schedule): State
    requires c.Valid()
  {
    if sched == [] then s
    else
      var n := |sched| - 1;
      Step(c, Exec(c, s, sched[..n]), sched[n].0, sched[n].1)
  }

  /** `n` goroutines that have not called yet, an empty channel and a zero word. */
  function Init(n: nat): State {
    State(0, 0, 0, 0, seq(n, _ => Idle))
  }
}
