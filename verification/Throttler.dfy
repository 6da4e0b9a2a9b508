/**
 `Throttler.Try` and the loops under it as one goroutine runs them with nobody else in the
 breaker. Time, endpoint checks and the proxied request come from an environment.
 */
module Throttler {
  import opened Word

  class Semaphore {
    var state: Uint64
    var tokens: nat
    const buffer: nat

    ghost predicate Valid()
      reads this
    {
      tokens <= buffer
    }

    /** Sets the capacity to `initialCapacity`, or its low 32 bits, and sends one poke per unit asked
        for, as far as they fit. */
    constructor (maxCapacity: nat, initialCapacity: Uint64)
      ensures Valid() && buffer == maxCapacity
      ensures Capacity(state) == initialCapacity % HALF && In(state) == 0
      ensures tokens == if initialCapacity < maxCapacity then initialCapacity else maxCapacity
    {
      buffer, state, tokens := maxCapacity, 0, 0;
      new;
      UpdateCapacity(initialCapacity);
    }

    /** A size that fits 32 bits becomes the capacity; of a larger one its low 32 bits do. */
    method UpdateCapacity(size: Uint64)
      requires Valid()
      modifies this
      ensures Valid() && Capacity(state) == size % HALF && In(state) == old(In(state))
      ensures var grown := if size > old(Capacity(state)) then size - old(Capacity(state)) else 0;
              tokens == if old(tokens) + grown < buffer then old(tokens) + grown else buffer
    {
      var (capacity, held) := Unpack(state);
      if capacity == size {
        return;
      }
      UnpackPack(size % HALF, held);
      state := Pack(size, held);
      if size > capacity {
        for i := 0 to size - capacity
          invariant Capacity(state) == size % HALF && In(state) == held
          invariant tokens == if old(tokens) + i < buffer then old(tokens) + i else buffer
        {
          if tokens < buffer {
            tokens := tokens + 1;
          }
        }
      }
    }

    /** Takes one unit if there is room. A full semaphore stays full when nobody else runs, so the
        loop only uses up tokens, in whatever order the select picks, until the context is done. */
    method Acquire() returns (ok: bool)
      requires Valid()
      modifies this
      ensures Valid() && Capacity(state) == old(Capacity(state))
      ensures ok == (old(In(state)) < old(Capacity(state)))
      ensures ok ==> In(state) == old(In(state)) + 1 && tokens == old(tokens)
      ensures !ok ==> In(state) == old(In(state)) && tokens <= old(tokens)
    {
      while true
        invariant Valid() && state == old(state) && tokens <= old(tokens)
        invariant In(state) < Capacity(state) ==> tokens == old(tokens)
        decreases tokens
      {
        var (capacity, held) := Unpack(state);
        if held >= capacity {
          var received: bool := *;
          if tokens == 0 || !received {
            return false;
          }
          tokens := tokens - 1;
        } else {
          UnpackPack(capacity, held + 1);
          state := Pack(capacity, held + 1);
          return true;
        }
      }
    }

    /** Gives one unit back and pokes a waiter; panics, changing nothing, if nothing is held. */
    method Release() returns (panics: bool)
      requires Valid()
      modifies this
      ensures Valid() && Capacity(state) == old(Capacity(state))
      ensures panics == (old(In(state)) == 0)
      ensures panics ==> state == old(state) && tokens == old(tokens)
      ensures !panics ==> In(state) == old(In(state)) - 1
      ensures !panics ==> tokens == if old(In(state)) <= old(Capacity(state)) && old(tokens) < buffer
                                    then old(tokens) + 1 else old(tokens)
    {
      var (capacity, held) := Unpack(state);
      if held == 0 {
        return true;
      }
      UnpackPack(capacity, held - 1);
      state := Pack(capacity, held - 1);
      if held - 1 < capacity && tokens < buffer {
        tokens := tokens + 1;
      }
      return false;
    }
  }

  datatype Refusal = QueueFull | NoCapacity

  datatype Admission = Admitted | Refused(why: Refusal)

  class Breaker {
    var inFlight: int
    const totalSlots: int
    const sem: Semaphore

    constructor (queueDepth: nat, maxConcurrency: nat, initialCapacity: Uint64)
      ensures sem.Valid() && fresh(sem) && inFlight == 0 && totalSlots == queueDepth + maxConcurrency
      ensures sem.buffer == maxConcurrency && Capacity(sem.state) == initialCapacity % HALF && In(sem.state) == 0
    {
      totalSlots := queueDepth + maxConcurrency;
      inFlight := 0;
      sem := new Semaphore(maxConcurrency, initialCapacity);
    }

    /** Whether `Maybe` runs its thunk when no other call is under way. */
    function Verdict(): Admission
      reads this, sem
    {
      if inFlight >= totalSlots then Refused(QueueFull)
      else if In(sem.state) >= Capacity(sem.state) then Refused(NoCapacity)
      else Admitted
    }

    /** The part of `Maybe` before the thunk. */
    method Enter() returns (a: Admission)
      requires sem.Valid()
      modifies this, sem
      ensures sem.Valid() && a == old(Verdict())
      ensures a == Refused(QueueFull) <==> old(inFlight) >= totalSlots
      ensures a == Refused(NoCapacity) <==> old(inFlight) < totalSlots && old(In(sem.state)) >= old(Capacity(sem.state))
      ensures a == Admitted <==> old(inFlight) < totalSlots && old(In(sem.state)) < old(Capacity(sem.state))
      ensures Capacity(sem.state) == old(Capacity(sem.state))
      ensures a.Admitted? ==> inFlight == old(inFlight) + 1 && In(sem.state) == old(In(sem.state)) + 1
      ensures a.Refused? ==> inFlight == old(inFlight) && In(sem.state) == old(In(sem.state))
    {
      if inFlight >= totalSlots {
        return Refused(QueueFull);
      }
      inFlight := inFlight + 1;
      var ok := sem.Acquire();
      if !ok {
        inFlight := inFlight - 1;
        return Refused(NoCapacity);
      }
      return Admitted;
    }

    /** The deferred releases of `Maybe`; paired with `Enter`, they never panic. */
    method Leave()
      requires sem.Valid() && In(sem.state) > 0
      modifies this, sem
      ensures sem.Valid() && inFlight == old(inFlight) - 1
      ensures Capacity(sem.state) == old(Capacity(sem.state)) && In(sem.state) == old(In(sem.state)) - 1
    {
      var panics := sem.Release();
      assert !panics;
      inFlight := inFlight - 1;
    }
  }

  // ----- Try

  /** What one call into the outside answers and how long it takes. */
  datatype Answer = Answer(ok: bool, took: nat)

  /** The k-th readiness check, the k-th call of `resolve`, and the context's deadline. */
  datatype World = World(ready: nat -> Answer, resolve: nat -> Answer, start: nat, deadline: nat)

  /** When iteration `k`, counted from 0, begins if all before it went back to the queue. */
  function Begins(w: World, retry: nat, k: nat): nat {
    if k == 0 then w.start else Begins(w, retry, k - 1) + w.ready(k - 1).took + retry
  }

  function Checked(w: World, retry: nat, k: nat): nat {
    Begins(w, retry, k) + w.ready(k).took
  }

  /** Iteration `k` does not go back to the queue. */
  predicate Ends(w: World, retry: nat, k: nat) {
    w.ready(k).ok || Checked(w, retry, k) >= w.deadline
  }

  ghost predicate IsLast(w: World, retry: nat, k: nat) {
    Ends(w, retry, k) && forall j: nat :: j < k ==> !Ends(w, retry, j)
  }

  datatype Result = Nil | BreakerError(why: Refusal) | ResolveError | ContextDone

  /** What the last iteration makes of the request. */
  function Verdict(w: World, retry: nat, k: nat): Result {
    var end := Checked(w, retry, k) + if w.ready(k).ok then w.resolve(k + 1).took else 0;
    if end >= w.deadline then ContextDone
    else if w.ready(k).ok && w.resolve(k + 1).ok then Nil
    else ResolveError
  }

  function CeilDiv(a: nat, b: nat): nat
    requires b > 0
  {
    (a + b - 1) / b
  }

  function Wait(w: World): nat {
    if w.deadline > w.start then w.deadline - w.start else 0
  }

  lemma {:induction false} BeginsLate(w: World, retry: nat, k: nat)
    ensures Begins(w, retry, k) >= w.start + k * retry
  {
    if k == 0 {
    } else {
      BeginsLate(w, retry, k - 1);
      assert k * retry == (k - 1) * retry + retry;
    }
  }

  /** The time the first `k` readiness checks take. */
  function Checks(w: World, k: nat): nat {
    if k == 0 then 0 else Checks(w, k - 1) + w.ready(k - 1).took
  }

  /** Each earlier iteration costs its check and one retry duration. */
  lemma {:induction false} BeginsIs(w: World, retry: nat, k: nat)
    ensures Begins(w, retry, k) == w.start + Checks(w, k) + k * retry
  {
    if k == 0 {
    } else {
      BeginsIs(w, retry, k - 1);
      assert k * retry == (k - 1) * retry + retry;
    }
  }

  /** When the check of iteration `k` is over: after that many checks and retry durations. */
  lemma CheckedIs(w: World, retry: nat, k: nat)
    ensures Checked(w, retry, k) == w.start + Checks(w, k + 1) + k * retry
  {
    BeginsIs(w, retry, k);
  }

  /** The deadline stops the loop: some iteration is the last, within ceil(wait / retry) + 1. */
  lemma LastExists(w: World, retry: nat) returns (k: nat)
    requires retry > 0
    ensures IsLast(w, retry, k) && k <= CeilDiv(Wait(w), retry)
  {
    var bound := CeilDiv(Wait(w), retry);
    assert bound * retry >= Wait(w) by {
      var a := Wait(w) + retry - 1;
      assert a == bound * retry + a % retry;
    }
    BeginsLate(w, retry, bound);
    assert Ends(w, retry, bound);
    k := 0;
    while !Ends(w, retry, k)
      invariant k <= bound && forall j: nat :: j < k ==> !Ends(w, retry, j)
      decreases bound - k
    {
      k := k + 1;
    }
  }

  /** The last iteration is unique, so the result of an admitted `Try` is a function of the world. */
  lemma LastUnique(w: World, retry: nat, j: nat, k: nat)
    requires IsLast(w, retry, j) && IsLast(w, retry, k)
    ensures j == k
  {
  }

  /** What an admitted call comes to, told by the calls it makes and the clock: the first try that finds the
      service active or the deadline over is the last; the request is sent in that try, if the service is
      active; and it counts only if it is over before the deadline. */
  ghost predicate Outcome(w: World, retry: nat, rounds: nat, r: Result, resolvedWith: seq<nat>) {
    && rounds > 0
    && var checked := Checked(w, retry, rounds - 1);
       var done := checked + w.resolve(rounds).took;
       && (w.ready(rounds - 1).ok || checked >= w.deadline)
       && (forall j: nat :: j < rounds - 1 ==> !w.ready(j).ok && Checked(w, retry, j) < w.deadline)
       && resolvedWith == (if w.ready(rounds - 1).ok then [rounds] else [])
       && (r.Nil? <==> resolvedWith == [rounds] && w.resolve(rounds).ok && done < w.deadline)
       && (r.ResolveError? <==> resolvedWith == [rounds] && !w.resolve(rounds).ok && done < w.deadline)
       && (r.ContextDone? <==> resolvedWith == [] || done >= w.deadline)
  }

  lemma OutcomeIs(w: World, retry: nat, rounds: nat, r: Result, resolvedWith: seq<nat>)
    requires rounds > 0 && IsLast(w, retry, rounds - 1) && r == Verdict(w, retry, rounds - 1)
    requires resolvedWith == if w.ready(rounds - 1).ok then [rounds] else []
    ensures Outcome(w, retry, rounds, r, resolvedWith)
  {
    forall j: nat | j < rounds - 1 ensures !w.ready(j).ok && Checked(w, retry, j) < w.deadline {
      assert !Ends(w, retry, j);
    }
  }

  /** Every retry begins before the deadline, and they are a retry duration apart at least. */
  ghost predicate RetriesInTime(w: World, retry: nat, rounds: nat) {
    rounds >= 2 ==> w.start + (rounds - 2) * retry < w.deadline
  }

  lemma RetriesAre(w: World, retry: nat, rounds: nat)
    requires rounds > 0 && IsLast(w, retry, rounds - 1)
    ensures RetriesInTime(w, retry, rounds)
  {
    if rounds >= 2 {
      BeginsLate(w, retry, rounds - 2);
      assert !Ends(w, retry, rounds - 2);
    }
  }

  class Throttler {
    const breaker: Breaker
    const retryDuration: nat
    var queueSizes: map<string, int>

    constructor (breaker: Breaker, retryDuration: nat)
      ensures this.breaker == breaker && this.retryDuration == retryDuration && queueSizes == map[]
    {
      this.breaker, this.retryDuration, queueSizes := breaker, retryDuration, map[];
    }

    function QueueSize(key: string): int
      reads this
    {
      if key in queueSizes then queueSizes[key] else 0
    }

    /** The function `Try` hands to `Maybe`: try `k`, counted from 0, which runs `resolve` only on an
        active service and goes back to the queue only before the deadline. */
    method Thunk(w: World, k: nat, begins: nat) returns (now: nat, reenqueue: bool, tryErr: Result, resolved: bool)
      requires begins == Begins(w, retryDuration, k)
      ensures reenqueue == !Ends(w, retryDuration, k) && resolved == w.ready(k).ok
      ensures if reenqueue then now == Begins(w, retryDuration, k + 1) else tryErr == Verdict(w, retryDuration, k)
    {
      reenqueue, tryErr, resolved := true, Nil, false;
      var check := w.ready(k);
      now := begins + check.took;
      if !check.ok {
        tryErr := ResolveError;
      } else {
        var res := w.resolve(k + 1);
        resolved := true;
        now := now + res.took;
        if !res.ok {
          tryErr := ResolveError;
        }
        reenqueue := false;
      }
      if now >= w.deadline {
        tryErr, reenqueue := ContextDone, false;
      } else if reenqueue {
        now := now + retryDuration;
      }
    }

    /** The loop of `Try`: `Maybe` again and again, until a try does not go back to the queue. */
    method TryUntilDone(w: World) returns (r: Result, rounds: nat, resolvedWith: seq<nat>)
      requires breaker.sem.Valid() && retryDuration > 0
      modifies breaker, breaker.sem
      ensures breaker.sem.Valid()
      ensures breaker.inFlight == old(breaker.inFlight)
      ensures Capacity(breaker.sem.state) == old(Capacity(breaker.sem.state))
      ensures In(breaker.sem.state) == old(In(breaker.sem.state))
      ensures match old(breaker.Verdict())
              case Refused(why) => r == BreakerError(why) && rounds == 1 && resolvedWith == []
              case Admitted =>
                && rounds > 0 && IsLast(w, retryDuration, rounds - 1)
                && r == Verdict(w, retryDuration, rounds - 1)
                && resolvedWith == if w.ready(rounds - 1).ok then [rounds] else []
    {
      ghost var last := LastExists(w, retryDuration);
      var now, reenqueue, tryErr := w.start, true, Nil;
      rounds, resolvedWith := 0, [];
      while reenqueue
        invariant breaker.sem.Valid() && breaker.inFlight == old(breaker.inFlight)
        invariant Capacity(breaker.sem.state) == old(Capacity(breaker.sem.state))
        invariant In(breaker.sem.state) == old(In(breaker.sem.state))
        invariant reenqueue ==> rounds <= last && resolvedWith == [] && now == Begins(w, retryDuration, rounds)
        invariant reenqueue ==> forall j: nat :: j < rounds ==> !Ends(w, retryDuration, j)
        invariant rounds > 0 ==> old(breaker.Verdict()).Admitted?
        invariant !reenqueue ==> rounds == last + 1 && tryErr == Verdict(w, retryDuration, last)
        invariant !reenqueue ==> resolvedWith == if w.ready(last).ok then [rounds] else []
        decreases reenqueue, last - rounds
      {
        var a := breaker.Enter();
        rounds := rounds + 1;
        if a.Refused? {
          return BreakerError(a.why), rounds, resolvedWith;
        }
        var resolved;
        now, reenqueue, tryErr, resolved := Thunk(w, rounds - 1, now);
        if resolved {
          resolvedWith := resolvedWith + [rounds];
        }
        breaker.Leave();
        if !reenqueue {
          LastUnique(w, retryDuration, last, rounds - 1);
        }
      }
      return tryErr, rounds, resolvedWith;
    }

    /** `key` is namespace/service of the request's host. `rounds` is the number of iterations and
        `resolvedWith` the try counts `resolve` was called with. */
    method Try(key: string, w: World) returns (r: Result, rounds: nat, resolvedWith: seq<nat>)
      requires breaker.sem.Valid() && retryDuration > 0
      modifies this, breaker, breaker.sem
      ensures breaker.sem.Valid()
      // the counters are back where they were, on every path
      ensures breaker.inFlight == old(breaker.inFlight)
      ensures Capacity(breaker.sem.state) == old(Capacity(breaker.sem.state))
      ensures In(breaker.sem.state) == old(In(breaker.sem.state))
      ensures forall k :: QueueSize(k) == old(QueueSize(k))
      // resolve runs at most once, with the number of the try, and only a success of it gives nil
      ensures resolvedWith == [] || resolvedWith == [rounds]
      ensures r.Nil? ==> resolvedWith == [rounds] && w.resolve(rounds).ok
      ensures 1 <= rounds <= CeilDiv(Wait(w), retryDuration) + 1
      // the result, exactly
      ensures match old(breaker.Verdict())
              case Refused(why) => r == BreakerError(why) && resolvedWith == []
              case Admitted =>
                && IsLast(w, retryDuration, rounds - 1)
                && r == Verdict(w, retryDuration, rounds - 1)
                && (resolvedWith == [rounds] <==> w.ready(rounds - 1).ok)
      // the same in terms of the calls and the clock alone
      ensures old(breaker.Verdict()).Admitted? ==>
                Outcome(w, retryDuration, rounds, r, resolvedWith) && RetriesInTime(w, retryDuration, rounds)
    {
      ghost var last := LastExists(w, retryDuration);
      queueSizes := queueSizes[key := QueueSize(key) + 1];
      r, rounds, resolvedWith := TryUntilDone(w);
      queueSizes := queueSizes[key := QueueSize(key) - 1];
      if old(breaker.Verdict()).Admitted? {
        LastUnique(w, retryDuration, last, rounds - 1);
        OutcomeIs(w, retryDuration, rounds, r, resolvedWith);
        RetriesAre(w, retryDuration, rounds);
      }
    }
  }
}
