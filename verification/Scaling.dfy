/**
 Scaling a target to zero and back: the operator's poll, the resolver's notification and what
 they write. A poll lists the services, and later acts on what it listed; notifications and other
 writers come between the two. Each of these runs without interruption; the cluster's answers are
 inputs. Times are in nanoseconds.
 */
module Scaling {
  import opened MergePatch
  import opened Options

  const SECOND := 1_000_000_000
  const DEFAULT_COOLDOWN := 900 * SECOND

  /** An ElastiService as far as scaling reads it. */
  datatype Config = Config(created: nat, cooldownSeconds: nat, minReplicas: int, keda: bool)

  /** A cooldown left at zero is the default, not none. */
  function Cooldown(c: Config): nat {
    if c.cooldownSeconds == 0 then DEFAULT_COOLDOWN else SECOND * c.cooldownSeconds
  }

  function MinReplicas(c: Config): nat { if c.minReplicas < 1 then 1 else c.minReplicas }

  /** The settings in plain numbers: seconds become nanoseconds, 0 is 15 minutes, and at least 1 replica. */
  lemma SettingsAre(c: Config)
    ensures c.cooldownSeconds == 0 ==> Cooldown(c) == 900_000_000_000
    ensures c.cooldownSeconds > 0 ==> Cooldown(c) == c.cooldownSeconds * 1_000_000_000
    ensures MinReplicas(c) >= 1 && MinReplicas(c) >= c.minReplicas && MinReplicas(c) in {1, c.minReplicas}
  {
  }

  // ----- the scale subresource

  datatype Target = Target(spec: nat, status: nat)

  datatype GetAnswer = Answered | NoMatch | Broken

  datatype ScaleApi = ScaleApi(gets: (GetAnswer, GetAnswer), updated: bool)

  datatype ScaleResult = Unchanged | Written | Missing | Failed

  /** A get that finds no mapping is tried once more. */
  predicate Gets(api: ScaleApi) {
    api.gets.0.Answered? || (api.gets.0.NoMatch? && api.gets.1.Answered?)
  }

  /** The first answer counts unless it finds no mapping; then the second does. */
  lemma GetsIff(first: GetAnswer, second: GetAnswer, updated: bool)
    ensures Gets(ScaleApi((first, second), updated)) <==> (if first.NoMatch? then second else first).Answered?
  {
  }

  /** `Scale`: it compares the status, and writes the spec. */
  function Scaled(t: Option<Target>, desired: nat, api: ScaleApi): (Option<Target>, ScaleResult) {
    if !Gets(api) then (t, Failed)
    else if t.None? then (t, Missing)
    else if t.value.status == desired || (desired > 0 && t.value.status > desired) then (t, Unchanged)
    else if !api.updated then (t, Failed)
    else (Some(t.value.(spec := desired)), Written)
  }

  ghost predicate Reaches(t: Target, desired: nat) {
    if desired == 0 then t.spec == 0 else t.spec >= desired
  }

  function Settle(t: Target): Target { t.(status := t.spec) }

  function Max(a: nat, b: nat): nat { if a < b then b else a }

  /** On a settled target one call suffices, and never scales down to a positive number. */
  lemma SettledScale(n: nat, desired: nat, api: ScaleApi)
    requires Gets(api) && api.updated
    ensures Scaled(Some(Target(n, n)), desired, api).0.Some?
    ensures Scaled(Some(Target(n, n)), desired, api).0.value.spec == if desired == 0 then 0 else Max(n, desired)
  {
  }

  /** A call reports success without reaching the goal exactly if the status is there and the spec is not. */
  lemma ReachesIff(t: Target, desired: nat, api: ScaleApi)
    requires Gets(api) && api.updated
    ensures Reaches(Scaled(Some(t), desired, api).0.value, desired) <==>
            Reaches(t, desired) || !Reaches(Target(t.status, t.status), desired)
  {
  }

  /** From any state, two calls with the status catching up between them reach the goal. */
  lemma TwoCallsReach(t: Target, desired: nat, api: ScaleApi)
    requires Gets(api) && api.updated
    ensures var once := Scaled(Some(t), desired, api).0.value;
            Reaches(Scaled(Some(Settle(once)), desired, api).0.value, desired)
  {
  }

  // ----- the direction

  datatype Period = Always | Inside | Outside | Unreadable

  datatype Trigger = NoScaler | HealthError | Unhealthy | MetricError | Active | Quiet

  datatype Direction = ScaleUp | ScaleDown | NoScale | Error

  /** The first trigger that is not quiet decides. */
  function TriggerDirection(triggers: seq<Trigger>): Direction {
    if triggers == [] then ScaleDown
    else
      match triggers[0]
      case Quiet => TriggerDirection(triggers[1..])
      case Active => ScaleUp
      case Unhealthy => NoScale
      case _ => Error
  }

  function GetDirection(c: Config, now: nat, period: Period, triggers: seq<Trigger>): Direction {
    if triggers == [] then Error
    else if c.created + Cooldown(c) > now then NoScale
    else if period.Outside? || period.Unreadable? then ScaleUp
    else TriggerDirection(triggers)
  }

  lemma {:induction false} AllQuiet(triggers: seq<Trigger>)
    ensures TriggerDirection(triggers) == ScaleDown <==> forall t :: t in triggers ==> t.Quiet?
  {
    if triggers == [] {
    } else {
      AllQuiet(triggers[1..]);
      assert triggers == [triggers[0]] + triggers[1..];
      assert triggers[0] in triggers && forall t :: t in triggers[1..] ==> t in triggers;
    }
  }

  /** Scaling down is decided exactly if the service is old enough, the period is on, and every
      trigger, of at least one, is healthy and below its threshold. */
  lemma DownIff(c: Config, now: nat, period: Period, triggers: seq<Trigger>)
    ensures GetDirection(c, now, period, triggers) == ScaleDown <==>
            && triggers != [] && c.created + Cooldown(c) <= now && (period.Always? || period.Inside?)
            && forall t :: t in triggers ==> t.Quiet?
  {
    AllQuiet(triggers);
  }

  /** All triggers before the `k`th are quiet. */
  ghost predicate QuietUpTo(triggers: seq<Trigger>, k: nat)
    requires k <= |triggers|
  {
    forall i :: 0 <= i < k ==> triggers[i].Quiet?
  }

  /** The `k`th trigger is the first that is not quiet. */
  ghost predicate FirstLoud(triggers: seq<Trigger>, k: nat) {
    k < |triggers| && !triggers[k].Quiet? && QuietUpTo(triggers, k)
  }

  lemma {:induction false} LoudDecides(triggers: seq<Trigger>, k: nat)
    requires FirstLoud(triggers, k)
    ensures TriggerDirection(triggers) ==
            if triggers[k].Active? then ScaleUp else if triggers[k].Unhealthy? then NoScale else Error
  {
    if k == 0 {
    } else {
      LoudDecides(triggers[1..], k - 1);
    }
  }

  lemma {:induction false} FindLoud(triggers: seq<Trigger>) returns (k: nat)
    ensures k == |triggers| || FirstLoud(triggers, k)
    ensures k == |triggers| ==> QuietUpTo(triggers, k)
  {
    if triggers == [] || !triggers[0].Quiet? {
      k := 0;
    } else {
      k := FindLoud(triggers[1..]);
      k := k + 1;
    }
  }

  /** The triggers are asked: there are some, the service is old enough, and the period is on. */
  predicate Asked(c: Config, now: nat, period: Period, triggers: seq<Trigger>) {
    triggers != [] && c.created + Cooldown(c) <= now && (period.Always? || period.Inside?)
  }

  /** The first trigger that is not quiet is one of `which`. */
  ghost predicate Shows(triggers: seq<Trigger>, which: set<Trigger>) {
    exists k: nat :: FirstLoud(triggers, k) && triggers[k] in which
  }

  lemma ShowsIff(triggers: seq<Trigger>)
    ensures var d := TriggerDirection(triggers);
            && (d == ScaleUp <==> Shows(triggers, {Active}))
            && (d == NoScale <==> Shows(triggers, {Unhealthy}))
            && (d == Error <==> Shows(triggers, {NoScaler, HealthError, MetricError}))
  {
    var k := FindLoud(triggers);
    if k < |triggers| {
      LoudDecides(triggers, k);
      assert forall j: nat :: FirstLoud(triggers, j) ==> j == k;
    } else {
      AllQuiet(triggers);
    }
  }

  /** When each of the other directions is decided: up, outside the period or by a first trigger that is
      not quiet and is active; none, if too young or by one that is unhealthy; an error otherwise. */
  lemma OtherDirectionsIff(c: Config, now: nat, period: Period, triggers: seq<Trigger>)
    ensures var d, grown := GetDirection(c, now, period, triggers), c.created + Cooldown(c) <= now;
            && (d == ScaleUp <==> triggers != [] && grown
                                  && (period.Outside? || period.Unreadable? || Shows(triggers, {Active})))
            && (d == NoScale <==> triggers != []
                                  && (!grown || (Asked(c, now, period, triggers) && Shows(triggers, {Unhealthy}))))
            && (d == Error <==> triggers == [] || (Asked(c, now, period, triggers)
                                                   && Shows(triggers, {NoScaler, HealthError, MetricError})))
  {
    ShowsIff(triggers);
  }

  // ----- the steps

  /** The cluster's answers to one poll or notification. */
  datatype Answers = Answers(statusPatched: bool, kedaPatched: bool, versionParses: bool, scale: ScaleApi)

  datatype Cause = Polled(period: Period, triggers: seq<Trigger>) | Notified

  /** A scale-up decision or notification, and whether the status recorded it. */
  datatype Up = Up(at: nat, recorded: bool)

  /** A write of replicas, with the annotations and the scale-ups of that moment; `listed` are the
      scale-ups up to the listing it acts on. */
  datatype Write = Write(replicas: nat, at: nat, annotations: Option<map<string, Json>>, ups: seq<Up>,
                         listed: seq<Up>, cause: Cause)

  /** The status a poll listed, and the scale-ups so far. */
  datatype Listing = Listing(lastUp: Option<nat>, ups: seq<Up>)

  /** `scaledObject` holds the annotations of the KEDA ScaledObject, `lastUp` the recorded status,
      `listing` what a poll under way has listed. */
  datatype State = State(now: nat, target: Option<Target>, scaledObject: Option<map<string, Json>>,
                         lastUp: Option<nat>, listing: Option<Listing>, ups: seq<Up>, writes: seq<Write>)

  /** The annotation patch of a KEDA target; without KEDA there is nothing to patch. */
  function Patched(c: Config, s: State, paused: bool, a: Answers): Option<State> {
    if !c.keda then Some(s)
    else if !a.kedaPatched || s.scaledObject.None? then None
    else Some(s.(scaledObject := Some(Repaused(s.scaledObject.value, paused))))
  }

  function ScaledTo(s: State, n: nat, listed: seq<Up>, a: Answers, cause: Cause): State {
    if !a.versionParses then s
    else
      var (t, r) := Scaled(s.target, n, a.scale);
      s.(target := t,
         writes := s.writes + if r.Written? then [Write(n, s.now, s.scaledObject, s.ups, listed, cause)] else [])
  }

  predicate InCooldown(c: Config, now: nat, lastUp: Option<nat>) {
    lastUp.Some? && now - lastUp.value < Cooldown(c)
  }

  /** `handleScaleToZero`, on the listed status. */
  function ToZero(c: Config, s: State, listing: Listing, a: Answers, cause: Cause): State {
    if InCooldown(c, s.now, listing.lastUp) then s
    else
      match Patched(c, s, true, a)
      case None => s
      case Some(u) => ScaledTo(u, 0, listing.ups, a, cause)
  }

  /** `handleScaleFromZero` and the resolver's notification. */
  function FromZero(c: Config, s: State, a: Answers, cause: Cause): State {
    var u := s.(ups := s.ups + [Up(s.now, a.statusPatched)],
                lastUp := if a.statusPatched then Some(s.now) else s.lastUp);
    match Patched(c, u, false, a)
    case None => u
    case Some(w) => ScaledTo(w, MinReplicas(c), u.ups, a, cause)
  }

  /** A poll acts on a service it has listed. */
  function PolledTo(c: Config, s: State, listing: Listing, period: Period, triggers: seq<Trigger>, a: Answers): State {
    match GetDirection(c, s.now, period, triggers)
    case ScaleDown => ToZero(c, s, listing, a, Polled(period, triggers))
    case ScaleUp => FromZero(c, s, a, Polled(period, triggers))
    case _ => s
  }

  /** `External` is any other writer: the target's controller, an autoscaler, a person. */
  datatype Event =
    | Tick(elapsed: nat)
    | List
    | Poll(period: Period, triggers: seq<Trigger>, answers: Answers)
    | Notify(known: bool, answers: Answers)
    | External(target: Option<Target>, scaledObject: Option<map<string, Json>>)

  function Step(c: Config, s: State, e: Event): State {
    match e
    case Tick(d) => s.(now := s.now + d)
    case List => s.(listing := Some(Listing(s.lastUp, s.ups)))
    case Poll(period, triggers, a) =>
      if s.listing.None? then s else PolledTo(c, s.(listing := None), s.listing.value, period, triggers, a)
    case Notify(known, a) => if known then FromZero(c, s, a, Notified) else s
    case External(t, so) => s.(target := t, scaledObject := so)
  }

  function Run(c: Config, s: State, events: seq<Event>): State {
    if events == [] then s else Step(c, Run(c, s, events[..|events| - 1]), events[|events| - 1])
  }

  function Init(now: nat, target: Option<Target>, scaledObject: Option<map<string, Json>>): State {
    State(now, target, scaledObject, None, None, [], [])
  }

  /** A run is its events. Time passes and other writers write, and nothing else changes by that; a listing
      is the recorded time and the scale-ups of its moment. */
  lemma Primitives(c: Config, s: State, events: seq<Event>, e: Event)
    ensures Run(c, s, events + [e]) == Step(c, Run(c, s, events), e)
    ensures e.Tick? ==> Step(c, s, e) == s.(now := s.now + e.elapsed)
    ensures e.External? ==> Step(c, s, e) == s.(target := e.target, scaledObject := e.scaledObject)
    ensures e.List? ==> Step(c, s, e) == s.(listing := Some(Listing(s.lastUp, s.ups)))
  {
    assert (events + [e])[..|events|] == events;
  }

  // ----- what every run keeps

  predicate PausedAs(annotations: Option<map<string, Json>>, paused: bool) {
    && annotations.Some? && PAUSED in annotations.value
    && annotations.value[PAUSED] == Str(if paused then "true" else "false")
    && if paused then PAUSED_REPLICAS in annotations.value && annotations.value[PAUSED_REPLICAS] == Str("0")
       else PAUSED_REPLICAS !in annotations.value
  }

  /** What the operator promises of a write to zero. */
  ghost predicate ZeroOk(c: Config, w: Write) {
    && w.cause.Polled? && w.cause.triggers != [] && (forall t :: t in w.cause.triggers ==> t.Quiet?)
    && (w.cause.period.Always? || w.cause.period.Inside?)
    && c.created + Cooldown(c) <= w.at
    && (forall u :: u in w.listed && u.recorded ==> u.at + Cooldown(c) <= w.at)
    && (c.keda ==> PausedAs(w.annotations, true))
  }

  ghost predicate UpOk(c: Config, w: Write) {
    w.replicas == MinReplicas(c) && (c.keda ==> PausedAs(w.annotations, false))
  }

  ghost predicate WriteOk(c: Config, w: Write) {
    if w.replicas == 0 then ZeroOk(c, w) else UpOk(c, w)
  }

  /** `lastUp` is the latest of the recorded scale-ups. */
  ghost predicate Latest(lastUp: Option<nat>, ups: seq<Up>) {
    && (forall u :: u in ups && u.recorded ==> lastUp.Some? && u.at <= lastUp.value)
    && (lastUp.Some? ==> Up(lastUp.value, true) in ups)
  }

  ghost predicate Inv(c: Config, s: State) {
    && (forall w :: w in s.writes ==> WriteOk(c, w))
    && Latest(s.lastUp, s.ups)
    && (s.listing.Some? ==> Latest(s.listing.value.lastUp, s.listing.value.ups))
  }

  lemma ScaledToInv(c: Config, s: State, n: nat, listed: seq<Up>, a: Answers, cause: Cause)
    requires Inv(c, s) && WriteOk(c, Write(n, s.now, s.scaledObject, s.ups, listed, cause))
    ensures Inv(c, ScaledTo(s, n, listed, a, cause))
  {
  }

  lemma PatchedInv(c: Config, s: State, paused: bool, a: Answers)
    requires Inv(c, s)
    ensures var r := Patched(c, s, paused, a);
            r.Some? ==> && Inv(c, r.value) && (c.keda ==> PausedAs(r.value.scaledObject, paused))
                        && r.value == s.(scaledObject := r.value.scaledObject)
  {
  }

  lemma ToZeroInv(c: Config, s: State, listing: Listing, a: Answers, cause: Cause)
    requires Inv(c, s) && Latest(listing.lastUp, listing.ups)
    requires cause.Polled? && GetDirection(c, s.now, cause.period, cause.triggers) == ScaleDown
    ensures Inv(c, ToZero(c, s, listing, a, cause))
  {
    DownIff(c, s.now, cause.period, cause.triggers);
    PatchedInv(c, s, true, a);
    var r := Patched(c, s, true, a);
    if r.Some? && !InCooldown(c, s.now, listing.lastUp) {
      ScaledToInv(c, r.value, 0, listing.ups, a, cause);
    }
  }

  lemma FromZeroInv(c: Config, s: State, a: Answers, cause: Cause)
    requires Inv(c, s) && (s.lastUp.Some? ==> s.lastUp.value <= s.now)
    ensures Inv(c, FromZero(c, s, a, cause))
  {
  }

  lemma PolledInv(c: Config, s: State, listing: Listing, period: Period, triggers: seq<Trigger>, a: Answers)
    requires Inv(c, s) && (s.lastUp.Some? ==> s.lastUp.value <= s.now) && Latest(listing.lastUp, listing.ups)
    ensures Inv(c, PolledTo(c, s, listing, period, triggers, a))
  {
    match GetDirection(c, s.now, period, triggers)
    case ScaleDown => ToZeroInv(c, s, listing, a, Polled(period, triggers));
    case ScaleUp => FromZeroInv(c, s, a, Polled(period, triggers));
    case _ =>
  }

  lemma StepClock(c: Config, s: State, e: Event)
    requires s.lastUp.Some? ==> s.lastUp.value <= s.now
    ensures var s' := Step(c, s, e); s'.lastUp.Some? ==> s'.lastUp.value <= s'.now
  {
  }

  lemma {:induction false} RunInv(c: Config, s: State, events: seq<Event>)
    requires Inv(c, s) && (s.lastUp.Some? ==> s.lastUp.value <= s.now)
    ensures var r := Run(c, s, events); Inv(c, r) && (r.lastUp.Some? ==> r.lastUp.value <= r.now)
  {
    if events == [] {
    } else {
      var r, e := Run(c, s, events[..|events| - 1]), events[|events| - 1];
      RunInv(c, s, events[..|events| - 1]);
      StepClock(c, r, e);
      match e
      case Tick(_) =>
      case External(_, _) =>
      case List =>
      case Poll(period, triggers, a) =>
        if r.listing.Some? {
          PolledInv(c, r.(listing := None), r.listing.value, period, triggers, a);
        }
      case Notify(known, a) =>
        if known {
          FromZeroInv(c, r, a, Notified);
        }
    }
  }

  /** In every run, with any other writers, every write of replicas is as promised. */
  lemma EveryWriteOk(c: Config, now: nat, target: Option<Target>, so: Option<map<string, Json>>, events: seq<Event>)
    ensures forall w :: w in Run(c, Init(now, target, so), events).writes ==> WriteOk(c, w)
  {
    RunInv(c, Init(now, target, so), events);
  }

  // ----- exactly when a scale-up is forgotten

  /** A write to zero within a cooldown of a scale-up. */
  ghost predicate TooSoon(c: Config, w: Write) {
    w.replicas == 0 && exists u :: u in w.ups && w.at < u.at + Cooldown(c)
  }

  ghost predicate Recent(c: Config, s: State) {
    exists u :: u in s.ups && s.now < u.at + Cooldown(c)
  }

  /** Some scale-up that was recorded when the poll listed is less than a cooldown ago. */
  ghost predicate RecentListed(c: Config, s: State) {
    s.listing.Some? && exists u :: u in s.listing.value.ups && u.recorded && s.now < u.at + Cooldown(c)
  }

  /** A poll that decides to scale down, and whose calls go through, on a target that runs. */
  predicate Lands(c: Config, s: State, e: Event) {
    && e.Poll? && s.listing.Some? && GetDirection(c, s.now, e.period, e.triggers) == ScaleDown
    && (c.keda ==> e.answers.kedaPatched && s.scaledObject.Some?)
    && e.answers.versionParses && Gets(e.answers.scale) && e.answers.scale.updated
    && s.target.Some? && s.target.value.status > 0
  }

  /** Some scale-up is less than a cooldown ago, and none that was recorded when the poll listed is. */
  ghost predicate Forgets(c: Config, s: State, e: Event) {
    Lands(c, s, e) && Recent(c, s) && !RecentListed(c, s)
  }

  /** The listed time stands for every scale-up recorded by then. */
  lemma LastUpDecides(c: Config, s: State)
    requires Inv(c, s) && s.listing.Some?
    ensures RecentListed(c, s) <==> InCooldown(c, s.now, s.listing.value.lastUp)
  {
    if InCooldown(c, s.now, s.listing.value.lastUp) {
      assert Up(s.listing.value.lastUp.value, true) in s.listing.value.ups;
    }
  }

  predicate OneMore(before: seq<Write>, after: seq<Write>) {
    after != [] && after[..|after| - 1] == before
  }

  function Last(writes: seq<Write>): Write
    requires writes != []
  {
    writes[|writes| - 1]
  }

  /** A quiet poll writes 0 exactly if it lands outside the listed cooldown. */
  lemma ToZeroWrites(c: Config, s: State, e: Event)
    requires e.Poll? && s.listing.Some? && GetDirection(c, s.now, e.period, e.triggers) == ScaleDown
    ensures var after := Step(c, s, e).writes;
            if Lands(c, s, e) && !InCooldown(c, s.now, s.listing.value.lastUp)
            then OneMore(s.writes, after) && Last(after).replicas == 0 && Last(after).at == s.now && Last(after).ups == s.ups
            else after == s.writes
  {
  }

  /** A scale-up never writes 0. */
  lemma FromZeroWrites(c: Config, s: State, a: Answers, cause: Cause)
    ensures var after := FromZero(c, s, a, cause).writes;
            after == s.writes || (OneMore(s.writes, after) && Last(after).replicas > 0)
  {
  }

  ghost predicate SomeTooSoon(c: Config, writes: seq<Write>) {
    exists w :: w in writes && TooSoon(c, w)
  }

  lemma OneMoreTooSoon(c: Config, before: seq<Write>, after: seq<Write>)
    requires OneMore(before, after)
    ensures SomeTooSoon(c, after) <==> SomeTooSoon(c, before) || TooSoon(c, Last(after))
  {
    assert after == before + [Last(after)];
  }

  lemma StepForgets(c: Config, s: State, e: Event)
    requires Inv(c, s)
    ensures SomeTooSoon(c, Step(c, s, e).writes) <==> SomeTooSoon(c, s.writes) || Forgets(c, s, e)
  {
    var after := Step(c, s, e).writes;
    if e.Poll? && s.listing.Some? && GetDirection(c, s.now, e.period, e.triggers) == ScaleDown {
      LastUpDecides(c, s);
      ToZeroWrites(c, s, e);
    } else if e.Poll? {
      FromZeroWrites(c, s.(listing := None), e.answers, Polled(e.period, e.triggers));
    } else if e.Notify? {
      FromZeroWrites(c, s, e.answers, Notified);
    }
    if after != s.writes {
      OneMoreTooSoon(c, s.writes, after);
    }
  }

  ghost predicate SomeForgets(c: Config, s: State, events: seq<Event>) {
    exists k :: 0 <= k < |events| && Forgets(c, Run(c, s, events[..k]), events[k])
  }

  lemma OneMoreForgets(c: Config, s: State, events: seq<Event>)
    requires events != []
    ensures var m := |events| - 1;
            SomeForgets(c, s, events) <==> SomeForgets(c, s, events[..m]) || Forgets(c, Run(c, s, events[..m]), events[m])
  {
    var m := |events| - 1;
    assert forall k :: 0 <= k < m ==> events[..m][..k] == events[..k];
  }

  lemma {:induction false} RunForgets(c: Config, s: State, events: seq<Event>)
    requires Inv(c, s) && s.writes == [] && (s.lastUp.Some? ==> s.lastUp.value <= s.now)
    ensures SomeTooSoon(c, Run(c, s, events).writes) <==> SomeForgets(c, s, events)
  {
    if events == [] {
    } else {
      var m := |events| - 1;
      RunForgets(c, s, events[..m]);
      RunInv(c, s, events[..m]);
      StepForgets(c, Run(c, s, events[..m]), events[m]);
      OneMoreForgets(c, s, events);
    }
  }

  /** In every run: something is scaled to zero within a cooldown of a scale-up if and only if some
      quiet poll lands when a scale-up, but none recorded by its listing, is that recent. */
  lemma ForgottenIff(c: Config, now: nat, target: Option<Target>, so: Option<map<string, Json>>, events: seq<Event>)
    ensures var s := Init(now, target, so);
            (exists w :: w in Run(c, s, events).writes && TooSoon(c, w)) <==>
            exists k :: 0 <= k < |events| && Forgets(c, Run(c, s, events[..k]), events[k])
  {
    RunForgets(c, Init(now, target, so), events);
  }

  // ----- the cooldown and the status patch

  /** The event's status patch succeeds, and no notification comes between a poll's list and its act. */
  predicate Recorded(s: State, e: Event) {
    match e
    case Poll(_, _, a) => a.statusPatched
    case Notify(_, a) => a.statusPatched && s.listing.None?
    case _ => true
  }

  ghost predicate AllRecorded(s: State) {
    && (forall u :: u in s.ups ==> u.recorded)
    && (s.listing.Some? ==> s.listing.value.ups == s.ups)
  }

  lemma StepRecorded(c: Config, s: State, e: Event)
    requires AllRecorded(s) && Recorded(s, e)
    ensures AllRecorded(Step(c, s, e)) && !Forgets(c, s, e)
  {
  }

  ghost predicate RunsRecorded(c: Config, s: State, events: seq<Event>) {
    forall k :: 0 <= k < |events| ==> Recorded(Run(c, s, events[..k]), events[k])
  }

  lemma OneLessRecorded(c: Config, s: State, events: seq<Event>)
    requires events != [] && RunsRecorded(c, s, events)
    ensures var m := |events| - 1; RunsRecorded(c, s, events[..m]) && Recorded(Run(c, s, events[..m]), events[m])
  {
    var m := |events| - 1;
    assert forall k :: 0 <= k < m ==> events[..m][..k] == events[..k];
  }

  lemma {:induction false} RunRecorded(c: Config, s: State, events: seq<Event>)
    requires AllRecorded(s) && RunsRecorded(c, s, events)
    ensures AllRecorded(Run(c, s, events)) && !SomeForgets(c, s, events)
  {
    if events == [] {
    } else {
      var m := |events| - 1;
      OneLessRecorded(c, s, events);
      RunRecorded(c, s, events[..m]);
      StepRecorded(c, Run(c, s, events[..m]), events[m]);
      OneMoreForgets(c, s, events);
    }
  }

  /** As long as the status patches succeed and no notification comes between the list and the act of a
      poll, nothing is scaled to zero within a cooldown of any scale-up decision or notification. */
  lemma ZeroRespectsCooldown(c: Config, now: nat, target: Option<Target>, so: Option<map<string, Json>>, events: seq<Event>)
    requires RunsRecorded(c, Init(now, target, so), events)
    ensures forall w, u :: w in Run(c, Init(now, target, so), events).writes && w.replicas == 0 && u in w.ups ==>
              u.at + Cooldown(c) <= w.at
  {
    var s := Init(now, target, so);
    RunRecorded(c, s, events);
    RunForgets(c, s, events);
    forall w, u | w in Run(c, s, events).writes && w.replicas == 0 && u in w.ups ensures u.at + Cooldown(c) <= w.at {
      assert !TooSoon(c, w);
    }
  }

  lemma RunThree(c: Config, s: State, a: Event, b: Event, e: Event)
    ensures Run(c, s, [a, b]) == Step(c, Step(c, s, a), b)
    ensures Run(c, s, [a, b, e]) == Step(c, Step(c, Step(c, s, a), b), e)
  {
    assert [a, b, e][..2] == [a, b] && [a, b][..1] == [a] && [a][..0] == [];
    assert Run(c, s, [a]) == Step(c, s, a);
  }

  const GOOD := ScaleApi((Answered, Answered), true)

  /** A service old enough to be scaled down, with its target running. */
  function Running(c: Config): State { Init(c.created + Cooldown(c), Some(Target(1, 1)), Some(map[])) }

  /** What a notification leaves for a poll to find. */
  lemma NotifyLeaves(c: Config, s: State, a: Answers)
    ensures var t := Step(c, s, Notify(true, a));
            && t.now == s.now && t.listing == s.listing && t.ups == s.ups + [Up(s.now, a.statusPatched)]
            && (!a.statusPatched ==> t.lastUp == s.lastUp) && (s.scaledObject.Some? ==> t.scaledObject.Some?)
            && (s.target.Some? ==> t.target.Some? && t.target.value.status == s.target.value.status)
  {
  }

  const QUIET_POLL := Poll(Always, [Quiet], Answers(true, true, true, GOOD))

  /** A quiet poll on a listing without a time scales a running target to zero. */
  lemma QuietPollWrites(c: Config, t: State)
    requires t.listing.Some? && t.listing.value.lastUp.None? && t.scaledObject.Some? && c.created + Cooldown(c) <= t.now
    requires t.target.Some? && t.target.value.status > 0
    ensures var after := Step(c, t, QUIET_POLL).writes;
            after != [] && Last(after).replicas == 0 && Last(after).at == t.now && Last(after).ups == t.ups
  {
    ToZeroWrites(c, t, QUIET_POLL);
  }

  /** It forgets a scale-up made at its own time. */
  lemma PollForgets(c: Config, s: State, a: Event, b: Event, u: Up)
    requires var t := Step(c, Step(c, s, a), b);
             && t.listing.Some? && t.listing.value.lastUp.None? && t.scaledObject.Some? && c.created + Cooldown(c) <= t.now
             && t.target.Some? && t.target.value.status > 0 && u in t.ups && u.at == t.now
    ensures exists w :: w in Run(c, s, [a, b, QUIET_POLL]).writes && w.replicas == 0 && u in w.ups && u.at == w.at
  {
    RunThree(c, s, a, b, QUIET_POLL);
    QuietPollWrites(c, Step(c, Step(c, s, a), b));
    assert Last(Run(c, s, [a, b, QUIET_POLL]).writes) in Run(c, s, [a, b, QUIET_POLL]).writes;
  }

  /** One notification whose status patch fails is forgotten: the next poll may undo it at once. */
  lemma UnrecordedIsForgotten(c: Config) returns (events: seq<Event>)
    ensures exists w, u :: w in Run(c, Running(c), events).writes && w.replicas == 0 && u in w.ups && u.at == w.at
  {
    var s, notify := Running(c), Notify(true, Answers(false, true, true, GOOD));
    NotifyLeaves(c, s, notify.answers);
    PollForgets(c, s, notify, List, Up(s.now, false));
    events := [notify, List, QUIET_POLL];
  }

  /** So is one that is recorded between the list and the act of a poll. */
  lemma UnlistedIsForgotten(c: Config) returns (events: seq<Event>)
    ensures exists w, u :: w in Run(c, Running(c), events).writes && w.replicas == 0 && u in w.ups && u.recorded && u.at == w.at
  {
    var s, notify := Running(c), Notify(true, Answers(true, true, true, GOOD));
    NotifyLeaves(c, Step(c, s, List), notify.answers);
    PollForgets(c, s, List, notify, Up(s.now, true));
    events := [List, notify, QUIET_POLL];
  }

  /** A scale-up whose calls go through on a settled target brings it to at least its minimum, with
      KEDA resumed and the time recorded. */
  lemma UpRestores(c: Config, s: State, a: Answers, cause: Cause)
    requires a == Answers(true, true, true, a.scale) && Gets(a.scale) && a.scale.updated
    requires s.target.Some? && s.target.value.spec == s.target.value.status && (c.keda ==> s.scaledObject.Some?)
    ensures var r := FromZero(c, s, a, cause);
            && r.target.Some? && r.target.value.spec == Max(s.target.value.spec, MinReplicas(c))
            && r.lastUp == Some(s.now) && (c.keda ==> PausedAs(r.scaledObject, false))
  {
  }

  /** A poll that decides to scale up, and a notification of a known service, do just that. */
  lemma UpActs(c: Config, s: State, period: Period, triggers: seq<Trigger>, a: Answers)
    requires a == Answers(true, true, true, a.scale) && Gets(a.scale) && a.scale.updated
    requires s.target.Some? && s.target.value.spec == s.target.value.status && (c.keda ==> s.scaledObject.Some?)
    ensures forall e :: e == Notify(true, a) || (e == Poll(period, triggers, a) && s.listing.Some?
                                                 && GetDirection(c, s.now, period, triggers) == ScaleUp) ==>
              var r := Step(c, s, e);
              && r.target.Some? && r.target.value.spec == Max(s.target.value.spec, MinReplicas(c))
              && r.lastUp == Some(s.now) && r.ups == s.ups + [Up(s.now, true)] && (c.keda ==> PausedAs(r.scaledObject, false))
  {
  }

  /** A poll that lands outside the listed cooldown stops the target and, on KEDA, pauses its autoscaler;
      inside it changes nothing. */
  lemma DownActs(c: Config, s: State, e: Event)
    requires Lands(c, s, e)
    ensures var r := Step(c, s, e);
            if InCooldown(c, s.now, s.listing.value.lastUp) then r == s.(listing := None)
            else && r.target == Some(s.target.value.(spec := 0)) && r.lastUp == s.lastUp && r.ups == s.ups
                 && (if c.keda then PausedAs(r.scaledObject, true) else r.scaledObject == s.scaledObject)
  {
  }

  /** What changes nothing but to end a poll: no direction, an error, an unknown service, a poll without a
      listing. */
  lemma NothingActs(c: Config, s: State, period: Period, triggers: seq<Trigger>, a: Answers)
    ensures GetDirection(c, s.now, period, triggers) in {NoScale, Error} ==>
              Step(c, s, Poll(period, triggers, a)) == s.(listing := None)
    ensures s.listing.None? ==> Step(c, s, Poll(period, triggers, a)) == s
    ensures Step(c, s, Notify(false, a)) == s
  {
  }

  // ----- the handler

  class ScaleHandler {
    const config: Config
    var now: nat
    var target: Option<Target>
    var scaledObject: Option<map<string, Json>>
    var lastUp: Option<nat>
    ghost var listing: Option<Listing>
    ghost var ups: seq<Up>
    ghost var writes: seq<Write>

    ghost function Now(): State
      reads this
    {
      State(now, target, scaledObject, lastUp, listing, ups, writes)
    }

    constructor (config: Config, now: nat, target: Option<Target>, scaledObject: Option<map<string, Json>>)
      ensures this.config == config && Now() == Init(now, target, scaledObject)
    {
      this.config, this.now, this.target, this.scaledObject := config, now, target, scaledObject;
      lastUp, listing, ups, writes := None, None, [], [];
    }

    method CalculateScaleDirection(period: Period, triggers: seq<Trigger>) returns (d: Direction)
      ensures d == GetDirection(config, now, period, triggers)
    {
      if |triggers| == 0 {
        return Error;
      }
      if config.created + Cooldown(config) > now {
        return NoScale;
      }
      if period.Outside? || period.Unreadable? {
        return ScaleUp;
      }
      for i := 0 to |triggers|
        invariant TriggerDirection(triggers[i..]) == TriggerDirection(triggers)
      {
        assert triggers[i..][0] == triggers[i] && triggers[i..][1..] == triggers[i + 1..];
        match triggers[i] {
          case NoScaler => return Error;
          case HealthError => return Error;
          case Unhealthy => return NoScale;
          case MetricError => return Error;
          case Active => return ScaleUp;
          case Quiet =>
        }
      }
      return ScaleDown;
    }

    method Scale(desired: nat, api: ScaleApi, ghost listed: seq<Up>, ghost cause: Cause) returns (r: ScaleResult)
      modifies this
      ensures (target, r) == Scaled(old(target), desired, api)
      ensures Now() == old(Now()).(target := target, writes := writes)
      ensures writes == old(writes) + if r.Written? then [Write(desired, now, scaledObject, ups, listed, cause)] else []
    {
      var got, i := false, 0;
      while i < 2
        invariant i <= 2 && !got && (i >= 1 ==> api.gets.0.NoMatch?) && (i == 2 ==> api.gets.1.NoMatch?)
      {
        var answer := if i == 0 then api.gets.0 else api.gets.1;
        got := answer.Answered?;
        if !answer.NoMatch? {
          break;
        }
        i := i + 1;
      }
      if !got {
        return Failed;
      }
      if target.None? {
        return Missing;
      }
      if target.value.status == desired {
        return Unchanged;
      }
      if desired > 0 && target.value.status > desired {
        return Unchanged;
      }
      if !api.updated {
        return Failed;
      }
      target := Some(target.value.(spec := desired));
      writes := writes + [Write(desired, now, scaledObject, ups, listed, cause)];
      return Written;
    }

    /** `listedUp` is the LastScaledUpTime the poll has listed. */
    method HandleScaleToZero(listedUp: Option<nat>, a: Answers, ghost listed: seq<Up>, ghost cause: Cause)
      modifies this
      ensures Now() == ToZero(config, old(Now()), Listing(listedUp, listed), a, cause)
    {
      if listedUp.Some? && now - listedUp.value < Cooldown(config) {
        return;
      }
      if config.keda {
        if !a.kedaPatched || scaledObject.None? {
          return;
        }
        scaledObject := Some(Repaused(scaledObject.value, true));
      }
      if a.versionParses {
        var r := Scale(0, a.scale, listed, cause);
      }
    }

    method HandleScaleFromZero(a: Answers, ghost cause: Cause)
      modifies this
      ensures Now() == FromZero(config, old(Now()), a, cause)
    {
      ups := ups + [Up(now, a.statusPatched)];
      if a.statusPatched {
        lastUp := Some(now);
      }
      if config.keda {
        if !a.kedaPatched || scaledObject.None? {
          return;
        }
        scaledObject := Some(Repaused(scaledObject.value, false));
      }
      if a.versionParses {
        var r := Scale(MinReplicas(config), a.scale, ups, cause);
      }
    }

    /** The first half of `checkAndScale`: what the list call gives for this service. */
    method List() returns (listedUp: Option<nat>)
      modifies this
      ensures Now() == Step(config, old(Now()), Event.List)
      ensures listing.Some? && listedUp == listing.value.lastUp
    {
      listing := Some(Listing(lastUp, ups));
      return lastUp;
    }

    /** The second half: the service as listed, by its direction. */
    method CheckAndScale(listedUp: Option<nat>, period: Period, triggers: seq<Trigger>, a: Answers)
      requires listing.Some? && listedUp == listing.value.lastUp
      modifies this
      ensures Now() == Step(config, old(Now()), Poll(period, triggers, a))
    {
      ghost var listed := listing.value.ups;
      listing := None;
      var d := CalculateScaleDirection(period, triggers);
      if d.ScaleDown? {
        HandleScaleToZero(listedUp, a, listed, Polled(period, triggers));
      } else if d.ScaleUp? {
        HandleScaleFromZero(a, Polled(period, triggers));
      }
    }

    /** The resolver's notification; `known` says the directory has the service. */
    method ScaleTargetForService(known: bool, a: Answers)
      modifies this
      ensures Now() == Step(config, old(Now()), Notify(known, a))
    {
      if known {
        HandleScaleFromZero(a, Notified);
      }
    }
  }
}
