/**
 What each call of the admission machine does, from its own goroutine's side: when it may be refused,
 what a lost compare-and-swap costs, how each loop ends, and what an undisturbed call leaves behind.
 */
module AdmissionCalls {
  import opened Admission
  import opened AdmissionSafety
  import opened Word

  // ----- how the loops end

  predicate Entering(pc: Pc) { pc.SlotLoad? || pc.SlotCas? }

  /** A call is refused only if all slots are taken at that moment; it gets past the slot check only by
      taking one. */
  lemma EnteringEnds(c: Config, s: State, i: nat, a: Action)
    requires c.Valid() && i < |s.procs| && Entering(s.procs[i])
    ensures var s' := Step(c, s, i, a);
            var pc := s'.procs[i];
            && (pc.Idle? ==> s.inFlight >= c.totalSlots && s'.inFlight == s.inFlight)
            && (!pc.Idle? && !Entering(pc) ==> pc == AcquireLoad(false) && s'.inFlight == s.inFlight + 1)
  {
  }

  predicate Acquiring(pc: Pc) { pc.AcquireLoad? || pc.AcquireCas? || pc.Parked? }

  /** A call stops acquiring only with one more unit held, of a capacity that had room, or cancelled
      while it waits; and it waits only after it has seen no room. */
  lemma AcquiringEnds(c: Config, s: State, i: nat, a: Action)
    requires c.Valid() && Inv(c, s) && i < |s.procs| && Acquiring(s.procs[i])
    ensures var s' := Step(c, s, i, a);
            var pc := s'.procs[i];
            && (Acquiring(pc) || (pc.Thunk? && a.Run?) || (pc.LeaveLoad? && a.Cancel? && s.procs[i].Parked?))
            && (pc.Thunk? ==> In(s.word) < Capacity(s.word) && In(s'.word) == In(s.word) + 1)
            && (pc.Parked? && !s.procs[i].Parked? ==> In(s.word) >= Capacity(s.word))
            && (!pc.Thunk? ==> s'.word == s.word)
  {
    if s.procs[i].AcquireCas? && s.word == s.procs[i].seen {
      Halves(Capacity(s.word), In(s.word) + 1);
    }
  }

  predicate Releasing(pc: Pc) { pc.Thunk? || pc.ReleaseLoad? || pc.ReleaseCas? }

  /** A call stops holding capacity only by giving one unit back; it announces that exactly if there is
      room after it. */
  lemma ReleasingEnds(c: Config, s: State, i: nat, a: Action)
    requires c.Valid() && Inv(c, s) && i < |s.procs| && Releasing(s.procs[i])
    ensures var s' := Step(c, s, i, a);
            var pc := s'.procs[i];
            if Releasing(pc) then s'.word == s.word
            else Capacity(s'.word) == Capacity(s.word) && In(s'.word) == In(s.word) - 1
                 && pc == if In(s'.word) < Capacity(s'.word) then Poke else LeaveLoad
  {
    Counts(s, i, Idle);
    if s.procs[i].ReleaseCas? && s.word == s.procs[i].seen {
      Halves(Capacity(s.word), In(s.word) - 1);
    }
  }

  predicate SettingTo(pc: Pc, size: nat) {
    (pc.ResizeLoad? && pc.size == size) || (pc.ResizeCas? && pc.size == size)
  }

  /** A resize ends only with its capacity set, and owes one token for each unit it has added. */
  lemma ResizingEnds(c: Config, s: State, i: nat, a: Action, size: nat)
    requires c.Valid() && Inv(c, s) && i < |s.procs| && SettingTo(s.procs[i], size)
    ensures var s' := Step(c, s, i, a);
            var pc := s'.procs[i];
            if SettingTo(pc, size) then s'.word == s.word
            else Capacity(s'.word) == size && In(s'.word) == In(s.word)
                 && pc == if size > Capacity(s.word) then ResizePush(size - Capacity(s.word)) else Idle
  {
    if s.procs[i].ResizeCas? && s.word == s.procs[i].seen {
      Halves(size, In(s.word));
    }
  }

  /** Each token owed is sent into the buffer, handed over, or dropped because the buffer is full. */
  lemma SendingEnds(c: Config, s: State, i: nat, a: Action)
    requires c.Valid() && i < |s.procs| && Sending(s.procs[i])
    ensures var s' := Step(c, s, i, a);
            var owed := Pending(s.procs[i]);
            && s'.word == s.word && s'.inFlight == s.inFlight
            && (Pending(s'.procs[i]) == owed || Pending(s'.procs[i]) == owed - 1)
            && (Pending(s'.procs[i]) == owed ==> s' == s)
            && (a.Run? ==> Pending(s'.procs[i]) == owed - 1 && s'.tokens == if s.tokens < c.buffer then s.tokens + 1 else s.tokens)
            && (a.Hand? && s' != s ==> s.tokens == s'.tokens == 0 && a.to < |s.procs| && s.procs[a.to].Parked?
                                       && s'.procs[a.to] == AcquireLoad(true))
            && (a.Hand? && s.tokens == 0 && a.to < |s.procs| && s.procs[a.to].Parked? ==>
                  Pending(s'.procs[i]) == owed - 1 && s'.procs[a.to] == AcquireLoad(true))
            && (Pending(s'.procs[i]) == 0 ==> s'.procs[i] == if s.procs[i].Poke? then LeaveLoad else Idle)
  {
  }

  /** A release with nothing held panics, and only that; a goroutine that has panicked does nothing more; a
      resize with no token left to send is over. */
  lemma Corners(c: Config, s: State, i: nat, a: Action)
    requires c.Valid() && i < |s.procs|
    ensures s.procs[i].ReleaseLoad? ==> (Step(c, s, i, Run).procs[i].Panicked? <==> In(s.word) == 0)
    ensures s.procs[i].Panicked? ==> Step(c, s, i, a) == s
    ensures s.procs[i] == ResizePush(0) ==> Step(c, s, i, Run) == Goto(s, i, Idle)
  {
  }

  /** The observed word or counter is no longer the current one. */
  predicate Lost(s: State, pc: Pc) {
    match pc
    case SlotCas(cur) => s.inFlight != cur
    case AcquireCas(seen, _) => s.word != seen
    case ReleaseCas(seen) => s.word != seen
    case ResizeCas(_, seen) => s.word != seen
    case _ => false
  }

  /** A lost compare-and-swap changes nothing but sends its goroutine back to load what is there now; the
      next two steps, undisturbed, try again with that. Only the slot release does not try again. */
  lemma LostTriesAgain(c: Config, s: State, i: nat)
    requires c.Valid() && i < |s.procs| && Lost(s, s.procs[i])
    ensures var s1 := Step(c, s, i, Run);
            && s1 == Goto(s, i, s1.procs[i])
            && match s.procs[i]
               case SlotCas(_) => Step(c, s1, i, Run).procs[i] == if s.inFlight < c.totalSlots then SlotCas(s.inFlight) else Idle
               case AcquireCas(_, woken) =>
                 Step(c, s1, i, Run).procs[i] == if In(s.word) < Capacity(s.word) then AcquireCas(s.word, woken) else Parked
               case ReleaseCas(_) => In(s.word) > 0 ==> Step(c, s1, i, Run).procs[i] == ReleaseCas(s.word)
               case ResizeCas(size, _) =>
                 Step(c, s1, i, Run).procs[i] == if Capacity(s.word) != size then ResizeCas(size, s.word) else Idle
               case _ => true
  {
  }

  // ----- undisturbed calls

  /** A caller that runs undisturbed from the slot check on, whatever swap it has lost before, is
      admitted if there is a slot. */
  lemma SoloEnters(c: Config, s: State, i: nat)
    requires c.Valid() && i < |s.procs| && Entering(s.procs[i]) && s.inFlight < c.totalSlots
    ensures var one := Step(c, s, i, Run);
            var two := Step(c, one, i, Run);
            Goto(s, i, AcquireLoad(false)).(inFlight := s.inFlight + 1) in {one, two, Step(c, two, i, Run)}
  {
    var one := Step(c, s, i, Run);
    var two := Step(c, one, i, Run);
    var three := Step(c, two, i, Run);
    var done := Goto(s, i, AcquireLoad(false)).(inFlight := s.inFlight + 1);
    if s.procs[i].SlotLoad? {
      assert two.procs == done.procs;
    } else if s.procs[i].cur == s.inFlight {
      assert one.procs == done.procs;
    } else {
      assert three.procs == done.procs;
    }
  }

  /** An undisturbed call with a slot and room runs its thunk holding both. */
  lemma SoloMaybe(c: Config, s: State, i: nat)
    requires c.Valid() && Inv(c, s) && i < |s.procs| && s.procs[i].Idle?
    requires s.inFlight < c.totalSlots && In(s.word) < Capacity(s.word)
    ensures var entered := Step(c, Step(c, Step(c, s, i, Call), i, Run), i, Run);
            Step(c, Step(c, entered, i, Run), i, Run)
            == Goto(s, i, Thunk).(inFlight := s.inFlight + 1, word := Pack(Capacity(s.word), In(s.word) + 1))
  {
    var entered := Step(c, Step(c, Step(c, s, i, Call), i, Run), i, Run);
    assert entered == Goto(s, i, AcquireLoad(false)).(inFlight := s.inFlight + 1);
    var taken := Step(c, Step(c, entered, i, Run), i, Run);
    assert taken.procs == s.procs[i := Thunk];
  }

  /** An undisturbed call without a slot is refused, and one without room waits; neither changes a counter
      but the waiting call's slot. */
  lemma SoloRefused(c: Config, s: State, i: nat)
    requires c.Valid() && i < |s.procs| && s.procs[i].Idle?
    ensures var loaded := Step(c, Step(c, s, i, Call), i, Run);
            && (s.inFlight >= c.totalSlots ==> loaded == s)
            && (s.inFlight < c.totalSlots && In(s.word) >= Capacity(s.word) ==>
                  Step(c, Step(c, loaded, i, Run), i, Run) == Goto(s, i, Parked).(inFlight := s.inFlight + 1))
  {
    var loaded := Step(c, Step(c, s, i, Call), i, Run);
    if s.inFlight >= c.totalSlots {
      assert loaded.procs == s.procs;
    } else if In(s.word) >= Capacity(s.word) {
      assert Step(c, Step(c, loaded, i, Run), i, Run).procs == s.procs[i := Parked];
    }
  }

  /** From the thunk on, undisturbed: the unit is given back, a token sent if there is room for it to be
      used, and the slot given back; nothing is lost. */
  lemma SoloReturns(c: Config, s: State, i: nat)
    requires c.Valid() && Inv(c, s) && i < |s.procs| && s.procs[i].Thunk?
    ensures var given := Step(c, Step(c, Step(c, s, i, Run), i, Run), i, Run);
            var poked := if given.procs[i].Poke? then Step(c, given, i, Run) else given;
            && (given.procs[i].Poke? <==> In(s.word) <= Capacity(s.word))
            && Step(c, Step(c, poked, i, Run), i, Run)
               == Goto(s, i, Idle).(word := Pack(Capacity(s.word), In(s.word) - 1), inFlight := s.inFlight - 1,
                                    tokens := if In(s.word) <= Capacity(s.word) then Push(c, s.tokens) else s.tokens)
  {
    Counts(s, i, Idle);
    Halves(Capacity(s.word), In(s.word) - 1);
    var given := Step(c, Step(c, Step(c, s, i, Run), i, Run), i, Run);
    assert given == Goto(s, i, given.procs[i]).(word := Pack(Capacity(s.word), In(s.word) - 1));
    var poked := if given.procs[i].Poke? then Step(c, given, i, Run) else given;
    var done := Step(c, Step(c, poked, i, Run), i, Run);
    assert done.procs == s.procs[i := Idle];
  }
}
