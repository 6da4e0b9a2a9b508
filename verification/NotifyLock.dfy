/**
 The once-per-window notification of the operator: `SendIncomingRequestInfo` for one service
 name, called by any number of goroutines, with the map operations, the mutex operations and the
 release timer as separate steps. The map is keyed by the service name alone, so callers of
 different namespaces share it.
 */
module NotifyLock {
  import opened Counting
  import opened Options

  /** `mutex` identifies the mutex object the goroutine holds a pointer to. */
  datatype Pc =
    | Idle
    // SendIncomingRequestInfo, after LoadOrStore stored a new mutex
    | Locking(namespace: string, mutex: nat)
    | Sending(namespace: string, mutex: nat)
    | Arming
    // releaseMutexForServiceRPC, run by the timer
    | ReleaseLoad
    | Unlocking(mutex: nat)
    | Deleting
    // the runtime stops a program that unlocks an unlocked mutex
    | Fault

  /** `created` counts the mutexes made; `sends` is the log of notifications sent. */
  datatype State = State(now: nat, entry: Option<nat>, locked: set<nat>, created: nat, timers: multiset<nat>,
                         sends: seq<(string, nat)>, procs: seq<Pc>)

  /** `fails` makes the request end before anything is sent. */
  datatype Action = Notify(i: nat, namespace: string) | Advance(i: nat, fails: bool) | Fire(i: nat, due: nat)
                  | Tick(to: nat)

  function Goto(s: State, i: nat, pc: Pc): State
    requires i < |s.procs|
  {
    s.(procs := s.procs[i := pc])
  }

  predicate Free(s: State, i: nat) {
    i < |s.procs| && s.procs[i].Idle?
  }

  function Step(retry: nat, s: State, a: Action): State {
    match a
    case Notify(i, namespace) =>
      if Free(s, i) && s.entry.None?
      then Goto(s, i, Locking(namespace, s.created)).(entry := Some(s.created), created := s.created + 1) else s
    case Fire(i, due) =>
      if Free(s, i) && due in s.timers && due <= s.now
      then Goto(s, i, ReleaseLoad).(timers := s.timers - multiset{due}) else s
    case Tick(to) => if s.now <= to then s.(now := to) else s
    case Advance(i, fails) => if i < |s.procs| then Move(retry, s, i, fails) else s
  }

  function Move(retry: nat, s: State, i: nat, fails: bool): State
    requires i < |s.procs|
  {
    match s.procs[i]
    case Idle => s
    case Fault => s
    case Locking(namespace, m) =>
      if m in s.locked then s else Goto(s, i, Sending(namespace, m)).(locked := s.locked + {m})
    case Sending(namespace, _) =>
      Goto(s, i, Arming).(sends := if fails then s.sends else s.sends + [(namespace, s.now)])
    case Arming => Goto(s, i, Idle).(timers := s.timers + multiset{s.now + retry})
    case ReleaseLoad => Goto(s, i, if s.entry.None? then Idle else Unlocking(s.entry.value))
    case Unlocking(m) =>
      if m in s.locked then Goto(s, i, Deleting).(locked := s.locked - {m}) else Goto(s, i, Fault)
    case Deleting => Goto(s, i, Idle).(entry := None)
  }

  function Exec(retry: nat, s: State, run: seq<Action>): State {
    if run == [] then s else Step(retry, Exec(retry, s, run[..|run| - 1]), run[|run| - 1])
  }

  function Init(n: nat): State {
    State(0, None, {}, 0, multiset{}, [], seq(n, _ => Idle))
  }

  // ----- what every interleaving keeps

  function Owning(pc: Pc): nat { if pc.Idle? then 0 else 1 }

  /** Senders and release timers, pending or running, that stand behind the map entry. */
  function Owners(s: State): nat { Sum(s.procs, Owning) + |s.timers| }

  predicate Held(s: State) { s.entry.Some? && s.entry.value in s.locked }

  /** The last notification is at least a window ago. */
  predicate Quiet(retry: nat, s: State, at: nat) {
    s.sends == [] || s.sends[|s.sends| - 1].1 + retry <= at
  }

  ghost predicate PcOk(retry: nat, s: State, pc: Pc) {
    match pc
    case Idle => true
    case Locking(_, m) => s.entry == Some(m) && m !in s.locked && Quiet(retry, s, s.now)
    case Sending(_, m) => s.entry == Some(m) && m in s.locked && Quiet(retry, s, s.now)
    case Arming => Held(s) && Quiet(0, s, s.now)
    case ReleaseLoad => Held(s) && Quiet(retry, s, s.now)
    case Unlocking(m) => s.entry == Some(m) && m in s.locked && Quiet(retry, s, s.now)
    case Deleting => s.entry.Some? && Quiet(retry, s, s.now)
    case Fault => false
  }

  ghost predicate Spaced(retry: nat, sends: seq<(string, nat)>) {
    forall k :: 0 < k < |sends| ==> sends[k - 1].1 + retry <= sends[k].1
  }

  ghost predicate Numbered(s: State) {
    (forall m :: m in s.locked ==> m < s.created) && (s.entry.Some? ==> s.entry.value < s.created)
  }

  /** Everyone but `i` is idle, and the entry is there if and only if `i` or one timer owns it. */
  ghost predicate Sole(retry: nat, s: State, i: nat)
    requires i < |s.procs|
  {
    && (forall j :: 0 <= j < |s.procs| && j != i ==> s.procs[j].Idle?)
    && PcOk(retry, s, s.procs[i])
    && Numbered(s)
    && Spaced(retry, s.sends)
    && if !s.procs[i].Idle? then s.timers == multiset{}
       else if s.entry.None? then s.timers == multiset{} && Quiet(retry, s, s.now)
       else Held(s) && exists due :: s.timers == multiset{due} && Quiet(retry, s, due)
  }

  lemma SoleInv(retry: nat, s: State, i: nat)
    requires i < |s.procs| && Sole(retry, s, i)
    ensures Inv(retry, s)
  {
    SumUpdate(s.procs, i, Idle, Owning);
    SumZero(s.procs[i := Idle], Owning);
  }

  ghost predicate Inv(retry: nat, s: State) {
    && Owners(s) == (if s.entry.Some? then 1 else 0)
    && (forall i :: 0 <= i < |s.procs| ==> PcOk(retry, s, s.procs[i]))
    && (forall due :: due in s.timers ==> Held(s) && Quiet(retry, s, due))
    && (s.entry.None? ==> Quiet(retry, s, s.now))
    && Numbered(s)
    && Spaced(retry, s.sends)
  }

  /** A busy goroutine is the only owner: every other one is idle and no timer is pending. */
  lemma OnlyOwner(retry: nat, s: State, i: nat)
    requires Inv(retry, s) && i < |s.procs| && !s.procs[i].Idle?
    ensures s.timers == multiset{} && forall j :: 0 <= j < |s.procs| && j != i ==> s.procs[j].Idle?
  {
    SumAtLeast(s.procs, i, Owning);
    forall j | 0 <= j < |s.procs| && j != i ensures s.procs[j].Idle? {
      SumUpdate(s.procs, i, Idle, Owning);
      SumAtLeast(s.procs[i := Idle], j, Owning);
    }
  }

  lemma TimerAlone(retry: nat, s: State, due: nat)
    requires Inv(retry, s) && due in s.timers
    ensures s.timers == multiset{due} && forall j :: 0 <= j < |s.procs| ==> s.procs[j].Idle?
  {
    assert |s.timers - multiset{due}| == |s.timers| - 1;
    forall j | 0 <= j < |s.procs| ensures s.procs[j].Idle? {
      SumAtLeast(s.procs, j, Owning);
    }
  }

  lemma NobodyOwns(retry: nat, s: State)
    requires Inv(retry, s) && s.entry.None?
    ensures s.timers == multiset{} && forall j :: 0 <= j < |s.procs| ==> s.procs[j].Idle?
  {
  }

  lemma MoveInv(retry: nat, s: State, i: nat, fails: bool)
    requires Inv(retry, s) && i < |s.procs|
    ensures Inv(retry, Move(retry, s, i, fails))
  {
    if !s.procs[i].Idle? {
      OnlyOwner(retry, s, i);
      MoveSole(retry, s, i, fails);
      SoleInv(retry, Move(retry, s, i, fails), i);
    }
  }

  /** What `MoveSole` claims of one program counter. */
  ghost predicate KeepsSole(retry: nat, s: State, i: nat, fails: bool)
    requires i < |s.procs|
  {
    var s' := Move(retry, s, i, fails);
    |s'.procs| == |s.procs| && Sole(retry, s', i)
  }

  lemma LockSole(retry: nat, s: State, i: nat, fails: bool)
    requires i < |s.procs| && Sole(retry, s, i) && (s.procs[i].Locking? || s.procs[i].Unlocking?)
    ensures KeepsSole(retry, s, i, fails)
  {
  }

  lemma SendSole(retry: nat, s: State, i: nat, fails: bool)
    requires i < |s.procs| && Sole(retry, s, i) && s.procs[i].Sending?
    ensures KeepsSole(retry, s, i, fails)
  {
  }

  lemma ArmSole(retry: nat, s: State, i: nat, fails: bool)
    requires i < |s.procs| && Sole(retry, s, i) && s.procs[i].Arming?
    ensures KeepsSole(retry, s, i, fails)
  {
    assert Move(retry, s, i, fails).timers == multiset{s.now + retry};
  }

  lemma FreeSole(retry: nat, s: State, i: nat, fails: bool)
    requires i < |s.procs| && Sole(retry, s, i) && (s.procs[i].ReleaseLoad? || s.procs[i].Deleting?)
    ensures KeepsSole(retry, s, i, fails)
  {
  }

  lemma MoveSole(retry: nat, s: State, i: nat, fails: bool)
    requires i < |s.procs| && !s.procs[i].Idle? && Sole(retry, s, i)
    ensures KeepsSole(retry, s, i, fails)
  {
    match s.procs[i]
    case Locking(_, _) => LockSole(retry, s, i, fails);
    case Unlocking(_) => LockSole(retry, s, i, fails);
    case Sending(_, _) => SendSole(retry, s, i, fails);
    case Arming => ArmSole(retry, s, i, fails);
    case ReleaseLoad => FreeSole(retry, s, i, fails);
    case Deleting => FreeSole(retry, s, i, fails);
  }

  lemma NotifyInv(retry: nat, s: State, i: nat, namespace: string)
    requires Inv(retry, s) && Free(s, i) && s.entry.None?
    ensures Inv(retry, Step(retry, s, Notify(i, namespace)))
  {
    NobodyOwns(retry, s);
    SoleInv(retry, Step(retry, s, Notify(i, namespace)), i);
  }

  lemma FireInv(retry: nat, s: State, i: nat, due: nat)
    requires Inv(retry, s) && Free(s, i) && due in s.timers && due <= s.now
    ensures Inv(retry, Step(retry, s, Fire(i, due)))
  {
    TimerAlone(retry, s, due);
    SoleInv(retry, Step(retry, s, Fire(i, due)), i);
  }

  lemma StepInv(retry: nat, s: State, a: Action)
    requires Inv(retry, s)
    ensures Inv(retry, Step(retry, s, a))
  {
    match a
    case Notify(i, namespace) =>
      if Free(s, i) && s.entry.None? {
        NotifyInv(retry, s, i, namespace);
      }
    case Fire(i, due) =>
      if Free(s, i) && due in s.timers && due <= s.now {
        FireInv(retry, s, i, due);
      }
    case Tick(_) =>
    case Advance(i, fails) =>
      if i < |s.procs| {
        MoveInv(retry, s, i, fails);
      }
  }

  lemma {:induction false} Reachable(retry: nat, n: nat, run: seq<Action>)
    ensures Inv(retry, Exec(retry, Init(n), run))
  {
    if run == [] {
      SumZero(Init(n).procs, Owning);
    } else {
      Reachable(retry, n, run[..|run| - 1]);
      StepInv(retry, Exec(retry, Init(n), run[..|run| - 1]), run[|run| - 1]);
    }
  }

  /** An entry is there exactly while one sender or release timer owns it. */
  lemma OneOwner(retry: nat, n: nat, run: seq<Action>)
    ensures var s := Exec(retry, Init(n), run);
            Owners(s) <= 1 && (s.entry.Some? <==> Owners(s) == 1)
  {
    Reachable(retry, n, run);
  }

  /** No goroutine ever unlocks an unlocked mutex, and none blocks in `Lock`. */
  lemma LockDiscipline(retry: nat, n: nat, run: seq<Action>)
    ensures var s := Exec(retry, Init(n), run);
            forall i :: 0 <= i < |s.procs| ==>
              && !s.procs[i].Fault?
              && (s.procs[i].Locking? ==> s.procs[i].mutex !in s.locked)
              && (s.procs[i].Unlocking? ==> s.procs[i].mutex in s.locked)
  {
    Reachable(retry, n, run);
    var s := Exec(retry, Init(n), run);
    forall i | 0 <= i < |s.procs| ensures PcOk(retry, s, s.procs[i]) {
    }
  }

  lemma {:induction false} SpacedPairs(retry: nat, sends: seq<(string, nat)>, j: nat, k: nat)
    requires Spaced(retry, sends) && j < k < |sends|
    ensures sends[j].1 + retry <= sends[k].1
  {
    if j + 1 == k {
    } else {
      SpacedPairs(retry, sends, j, k - 1);
    }
  }

  /** Any two notifications of the service name, from whichever namespaces, are a window apart. */
  lemma SendsApart(retry: nat, n: nat, run: seq<Action>, j: nat, k: nat)
    ensures var sends := Exec(retry, Init(n), run).sends;
            j < k < |sends| ==> sends[j].1 + retry <= sends[k].1
  {
    Reachable(retry, n, run);
    var sends := Exec(retry, Init(n), run).sends;
    if j < k < |sends| {
      SpacedPairs(retry, sends, j, k);
    }
  }

  /** Four undisturbed steps of one caller. */
  function Solo(retry: nat, s: State, i: nat, namespace: string): State {
    var go := Advance(i, false);
    Step(retry, Step(retry, Step(retry, Step(retry, s, Notify(i, namespace)), go), go), go)
  }

  /** With no entry, a caller notifies the operator and holds the entry for one window. */
  lemma SoloNotify(retry: nat, s: State, i: nat, namespace: string)
    requires Inv(retry, s) && Free(s, i) && s.entry.None?
    ensures Solo(retry, s, i, namespace)
            == s.(entry := Some(s.created), created := s.created + 1, locked := s.locked + {s.created},
                  sends := s.sends + [(namespace, s.now)], timers := s.timers + multiset{s.now + retry})
  {
  }

  /** If its request fails, nothing is sent, and the entry is held for the same window. */
  lemma SoloNotifyFails(retry: nat, s: State, i: nat, namespace: string)
    requires Inv(retry, s) && Free(s, i) && s.entry.None?
    ensures var locked := Step(retry, Step(retry, s, Notify(i, namespace)), Advance(i, false));
            Step(retry, Step(retry, locked, Advance(i, true)), Advance(i, false))
            == s.(entry := Some(s.created), created := s.created + 1, locked := s.locked + {s.created},
                  timers := s.timers + multiset{s.now + retry})
  {
  }

  /** An undisturbed caller notifies the operator if and only if the name has no entry, whoever made
      it; otherwise its call leaves no trace. */
  lemma NotifiesIff(retry: nat, n: nat, run: seq<Action>, i: nat, namespace: string)
    requires Free(Exec(retry, Init(n), run), i)
    ensures var s := Exec(retry, Init(n), run);
            && (Solo(retry, s, i, namespace).sends == s.sends + [(namespace, s.now)] <==> s.entry.None?)
            && (s.entry.Some? ==> Solo(retry, s, i, namespace) == s)
  {
    var s := Exec(retry, Init(n), run);
    Reachable(retry, n, run);
    if s.entry.None? {
      SoloNotify(retry, s, i, namespace);
    } else {
      assert |s.sends + [(namespace, s.now)]| > |s.sends|;
    }
  }

  /** Within a window of the last notification every call is dropped, of whatever namespace. */
  lemma DroppedInWindow(retry: nat, n: nat, run: seq<Action>, i: nat, namespace: string)
    ensures var s := Exec(retry, Init(n), run);
            s.sends != [] && s.now < s.sends[|s.sends| - 1].1 + retry ==> Step(retry, s, Notify(i, namespace)) == s
  {
    Reachable(retry, n, run);
  }

  lemma SoloRun(retry: nat, s: State, i: nat, namespace: string) returns (run: seq<Action>)
    ensures Exec(retry, s, run) == Solo(retry, s, i, namespace)
  {
    var go := Advance(i, false);
    var one := [Notify(i, namespace)];
    var two, three := one + [go], one + [go, go];
    run := one + [go, go, go];
    assert one[..0] == [] && two[..1] == one && three[..2] == two && run[..3] == three;
    assert Exec(retry, s, one) == Step(retry, s, Notify(i, namespace));
    assert Exec(retry, s, two) == Step(retry, Exec(retry, s, one), go);
    assert Exec(retry, s, three) == Step(retry, Exec(retry, s, two), go);
  }

  lemma SoloNotifyInit(retry: nat, n: nat, namespace: string)
    requires n >= 2
    ensures var s := Solo(retry, Init(n), 0, namespace);
            s.sends == [(namespace, 0)] && s.entry.Some? && |s.procs| == n && s.procs[1].Idle?
  {
    Reachable(retry, n, []);
    SoloNotify(retry, Init(n), 0, namespace);
  }

  /** A run in which the first request of a second namespace is never notified. */
  lemma OtherNamespaceDropped(retry: nat, n: nat, first: string, second: string) returns (run: seq<Action>)
    requires n >= 2 && first != second
    ensures Notify(1, second) in run && Free(Exec(retry, Init(n), run), 1)
    ensures var sends := Exec(retry, Init(n), run).sends; |sends| == 1 && sends[0].0 == first
  {
    var solo := SoloRun(retry, Init(n), 0, first);
    SoloNotifyInit(retry, n, first);
    run := solo + [Notify(1, second)];
    assert run[..|run| - 1] == solo;
  }

  /** Time only goes forward; an idle goroutine does nothing; a lock waits for its mutex; an unlock of an
      unlocked mutex stops the goroutine for good. */
  lemma Primitives(retry: nat, s: State, i: nat, fails: bool, to: nat)
    ensures Step(retry, s, Tick(to)) == if s.now <= to then s.(now := to) else s
    ensures i < |s.procs| ==>
              && (s.procs[i].Idle? || s.procs[i].Fault? ==> Step(retry, s, Advance(i, fails)) == s)
              && (s.procs[i].Locking? && s.procs[i].mutex in s.locked ==> Step(retry, s, Advance(i, fails)) == s)
              && (s.procs[i].Unlocking? && s.procs[i].mutex !in s.locked ==> Step(retry, s, Advance(i, fails)).procs[i] == Fault)
  {
  }

  /** When the window is over, its timer frees the entry for the next caller. */
  lemma SoloRelease(retry: nat, s: State, i: nat, due: nat)
    requires Inv(retry, s) && Free(s, i) && due in s.timers && due <= s.now
    ensures var go := Advance(i, false);
            s.entry.Some? && Step(retry, Step(retry, Step(retry, Step(retry, s, Fire(i, due)), go), go), go)
            == s.(entry := None, locked := s.locked - {s.entry.value}, timers := s.timers - multiset{due})
  {
  }
}
