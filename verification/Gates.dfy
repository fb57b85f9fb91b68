/**
 The gate in front of the two expensive queries of a tick (ReconcileGate.ts), and the tick that asks it
 (EventLoop.ts).  Notifications may land between any two steps of a tick.
 */
module Gates {
  const QUIET_TICKS: nat := 3
  const DRAIN_QUIET_TICKS: nat := 1

  /** The gate's fields; instants are monotonic nanoseconds. */
  datatype Gate = Gate(interval: int, dirtySignal: bool, quietTicksRemaining: nat, nextSweep: int,
                       drainDirtySignal: bool, drainQuietTicksRemaining: nat, nextDrainSweep: int)

  // ---------------------------------------------------------------- the gate as a value

  function Fresh(interval: int, seed: int): Gate {
    Gate(interval, true, QUIET_TICKS, seed, true, DRAIN_QUIET_TICKS, seed)
  }

  function MarkedDirty(g: Gate): Gate {
    g.(dirtySignal := true, drainDirtySignal := true)
  }

  predicate Reconciles(g: Gate, now: int) {
    g.interval <= 0 || g.dirtySignal || g.quietTicksRemaining > 0 || now >= g.nextSweep
  }

  function AfterReconcileCheck(g: Gate): Gate {
    if g.interval > 0 && g.dirtySignal then g.(dirtySignal := false, quietTicksRemaining := QUIET_TICKS) else g
  }

  function LessOne(n: nat): nat {
    if n == 0 then 0 else n - 1
  }

  function AfterReconcile(g: Gate, inserted: nat, now: int): Gate {
    if g.interval <= 0 then g
    else g.(quietTicksRemaining := if inserted > 0 then QUIET_TICKS else LessOne(g.quietTicksRemaining),
            drainQuietTicksRemaining := if inserted > 0 then DRAIN_QUIET_TICKS else g.drainQuietTicksRemaining,
            nextSweep := now + g.interval)
  }

  function AfterFailedReconcile(g: Gate): Gate {
    if g.interval <= 0 then g
    else g.(quietTicksRemaining := QUIET_TICKS, drainQuietTicksRemaining := DRAIN_QUIET_TICKS)
  }

  predicate Drains(g: Gate, now: int) {
    g.interval <= 0 || g.drainDirtySignal || g.drainQuietTicksRemaining > 0 || now >= g.nextDrainSweep
  }

  function AfterDrainCheck(g: Gate): Gate {
    if g.interval > 0 && g.drainDirtySignal
    then g.(drainDirtySignal := false, drainQuietTicksRemaining := DRAIN_QUIET_TICKS) else g
  }

  function AfterDrain(g: Gate, resumedAnything: bool, now: int): Gate {
    if g.interval <= 0 then g
    else g.(drainQuietTicksRemaining := if resumedAnything then DRAIN_QUIET_TICKS else LessOne(g.drainQuietTicksRemaining),
            nextDrainSweep := now + g.interval)
  }

  function AfterFailedDrain(g: Gate): Gate {
    if g.interval <= 0 then g else g.(drainQuietTicksRemaining := DRAIN_QUIET_TICKS)
  }

  // ---------------------------------------------------------------- the gate as an object

  class ReconcileGate {
    const interval: int
    var dirtySignal: bool
    var quietTicksRemaining: nat
    var nextSweep: int
    var drainDirtySignal: bool
    var drainQuietTicksRemaining: nat
    var nextDrainSweep: int

    function Value(): Gate
      reads this
    {
      Gate(interval, dirtySignal, quietTicksRemaining, nextSweep, drainDirtySignal, drainQuietTicksRemaining,
           nextDrainSweep)
    }

    constructor (interval: int, seed: int)
      ensures Value() == Fresh(interval, seed)
    {
      this.interval := interval;
      dirtySignal, quietTicksRemaining, nextSweep := true, QUIET_TICKS, seed;
      drainDirtySignal, drainQuietTicksRemaining, nextDrainSweep := true, DRAIN_QUIET_TICKS, seed;
    }

    method MarkDirty()
      modifies this
      ensures Value() == MarkedDirty(old(Value()))
    {
      dirtySignal := true;
      drainDirtySignal := true;
    }

    method ShouldReconcile(now: int) returns (reconcile: bool)
      modifies this
      ensures reconcile == Reconciles(old(Value()), now)
      ensures Value() == AfterReconcileCheck(old(Value()))
    {
      if interval <= 0 {
        return true;
      }
      if dirtySignal {
        dirtySignal := false;
        quietTicksRemaining := QUIET_TICKS;
      }
      return quietTicksRemaining > 0 || now - nextSweep >= 0;
    }

    method ReconcileSucceeded(insertedRows: nat, now: int)
      modifies this
      ensures Value() == AfterReconcile(old(Value()), insertedRows, now)
    {
      if interval <= 0 {
        return;
      }
      quietTicksRemaining := if insertedRows > 0 then QUIET_TICKS else LessOne(quietTicksRemaining);
      if insertedRows > 0 {
        drainQuietTicksRemaining := DRAIN_QUIET_TICKS;
      }
      nextSweep := now + interval;
    }

    method ReconcileFailed()
      modifies this
      ensures Value() == AfterFailedReconcile(old(Value()))
    {
      if interval > 0 {
        quietTicksRemaining := QUIET_TICKS;
        drainQuietTicksRemaining := DRAIN_QUIET_TICKS;
      }
    }

    method ShouldDrain(now: int) returns (drain: bool)
      modifies this
      ensures drain == Drains(old(Value()), now)
      ensures Value() == AfterDrainCheck(old(Value()))
    {
      if interval <= 0 {
        return true;
      }
      if drainDirtySignal {
        drainDirtySignal := false;
        drainQuietTicksRemaining := DRAIN_QUIET_TICKS;
      }
      return drainQuietTicksRemaining > 0 || now - nextDrainSweep >= 0;
    }

    method DrainCompleted(resumedAnything: bool, now: int)
      modifies this
      ensures Value() == AfterDrain(old(Value()), resumedAnything, now)
    {
      if interval <= 0 {
        return;
      }
      drainQuietTicksRemaining := if resumedAnything then DRAIN_QUIET_TICKS else LessOne(drainQuietTicksRemaining);
      nextDrainSweep := now + interval;
    }

    method DrainFailed()
      modifies this
      ensures Value() == AfterFailedDrain(old(Value()))
    {
      if interval > 0 {
        drainQuietTicksRemaining := DRAIN_QUIET_TICKS;
      }
    }
  }

  // ---------------------------------------------------------------- ticks, and what lands in between

  /** `since` numbers the action that started the pass. */
  datatype Phase = Idle | Reconciling(since: nat) | Draining(since: nat)

  datatype Action =
    | Notify
    | StartTick(now: int, drainNow: int)
    | ReconcileEnds(inserted: nat, now: int, drainNow: int)
    | ReconcileFails
    | DrainEnds(resumedAnything: bool, now: int)
    | DrainFails

  datatype State = State(gate: Gate, phase: Phase)

  predicate Enabled(s: State, a: Action) {
    match a
    case Notify => true
    case StartTick(_, _) => s.phase.Idle?
    case ReconcileEnds(_, _, _) => s.phase.Reconciling?
    case ReconcileFails => s.phase.Reconciling?
    case DrainEnds(_, _) => s.phase.Draining?
    case DrainFails => s.phase.Draining?
  }

  /** The tick goes straight from its reconcile (or from skipping it) to asking about the drain. */
  function AskDrain(g: Gate, now: int, index: nat): State {
    State(AfterDrainCheck(g), if Drains(g, now) then Draining(index) else Idle)
  }

  /** Action number `index` of a trace.  A failed reconcile ends the tick in the handler that also re-arms the drain. */
  function Apply(s: State, a: Action, index: nat): State
    requires Enabled(s, a)
  {
    match a
    case Notify => s.(gate := MarkedDirty(s.gate))
    case StartTick(now, drainNow) =>
      var checked := AfterReconcileCheck(s.gate);
      if Reconciles(s.gate, now) then State(checked, Reconciling(index)) else AskDrain(checked, drainNow, index)
    case ReconcileEnds(inserted, now, drainNow) => AskDrain(AfterReconcile(s.gate, inserted, now), drainNow, index)
    case ReconcileFails => State(AfterFailedDrain(AfterFailedReconcile(s.gate)), Idle)
    case DrainEnds(resumedAnything, now) => State(AfterDrain(s.gate, resumedAnything, now), Idle)
    case DrainFails => State(AfterFailedDrain(s.gate), Idle)
  }

  ghost predicate Trace(states: seq<State>, actions: seq<Action>) {
    && |states| == |actions| + 1
    && forall i :: 0 <= i < |actions| ==> Enabled(states[i], actions[i]) && states[i + 1] == Apply(states[i], actions[i], i)
  }

  // ---------------------------------------------------------------- one tick, as the event loop runs it

  /** How a part a tick awaits turns out: when it ends, and whether a notification arrived before that. */
  datatype Awaited = Awaited(notified: bool, failed: bool, result: nat, now: int)

  /** A tick in flight, advanced by one action. */
  function Next(s: State, a: Action): State {
    if Enabled(s, a) then Apply(s, a, 0) else s
  }

  function Arrived(s: State, awaited: Awaited): State {
    if awaited.notified then Next(s, Notify) else s
  }

  function ReconcilePart(s: State, reconcile: Awaited): State {
    var s' := Arrived(s, reconcile);
    if reconcile.failed then Next(s', ReconcileFails)
    else Next(s', ReconcileEnds(reconcile.result, reconcile.now, reconcile.now))
  }

  function DrainPart(s: State, drain: Awaited): State {
    var s' := Arrived(s, drain);
    if drain.failed then Next(s', DrainFails) else Next(s', DrainEnds(drain.result > 0, drain.now))
  }

  /** The machine's account of one tick. */
  function TickEffect(g: Gate, now: int, reconcile: Awaited, drain: Awaited): State {
    var started := Next(State(g, Idle), StartTick(now, now));
    var reconciled := if started.phase.Reconciling? then ReconcilePart(started, reconcile) else started;
    if reconciled.phase.Draining? then DrainPart(reconciled, drain) else reconciled
  }

  /** What happens while a tick is in flight: notifications where one was awaited, and each part ends as it was said to. */
  ghost predicate AsAwaited(s: State, a: Action, reconcile: Awaited, drain: Awaited) {
    match a
    case Notify => (s.phase.Reconciling? && reconcile.notified) || (s.phase.Draining? && drain.notified)
    case StartTick(_, _) => false
    case ReconcileEnds(inserted, now, drainNow) =>
      !reconcile.failed && inserted == reconcile.result && now == drainNow == reconcile.now
    case ReconcileFails => reconcile.failed
    case DrainEnds(resumedAnything, now) => !drain.failed && (resumedAnything <==> drain.result > 0) && now == drain.now
    case DrainFails => drain.failed
  }

  /** A notification that was awaited in this state has come before the state is left. */
  ghost predicate Notified(s: State, reconcile: Awaited, drain: Awaited) {
    (s.phase.Reconciling? && reconcile.notified) || (s.phase.Draining? && drain.notified)
    ==> s.gate.dirtySignal && s.gate.drainDirtySignal
  }

  /**
   One tick is a stretch of a trace: it starts, what it awaits happens, each part ends, and it leaves the machine idle in the
   state TickEffect says.
   */
  lemma TickIsATrace(g: Gate, now: int, reconcile: Awaited, drain: Awaited) returns (states: seq<State>, actions: seq<Action>)
    ensures Trace(states, actions) && actions != [] && actions[0] == StartTick(now, now)
    ensures states[0] == State(g, Idle) && states[|actions|] == TickEffect(g, now, reconcile, drain)
    ensures states[|actions|].phase.Idle?
    ensures forall i :: 0 < i < |actions| ==> AsAwaited(states[i], actions[i], reconcile, drain)
    ensures forall i :: 0 < i < |actions| && !actions[i].Notify? ==> Notified(states[i], reconcile, drain)
  {
    states, actions := [State(g, Idle)], [];
    hide Trace, Reconciles, Drains, AfterReconcileCheck, AfterReconcile, AfterFailedReconcile, AfterDrainCheck, AfterDrain,
      AfterFailedDrain;
    NoActions(State(g, Idle));
    states, actions := More(states, actions, StartTick(now, now));
    if states[|actions|].phase.Reconciling? {
      if reconcile.notified {
        states, actions := More(states, actions, Notify);
      }
      states, actions := More(states, actions, if reconcile.failed then ReconcileFails
                                               else ReconcileEnds(reconcile.result, reconcile.now, reconcile.now));
    }
    if states[|actions|].phase.Draining? {
      if drain.notified {
        states, actions := More(states, actions, Notify);
      }
      states, actions := More(states, actions, if drain.failed then DrainFails else DrainEnds(drain.result > 0, drain.now));
    }
  }

  lemma NoActions(s: State)
    ensures Trace([s], [])
  {}

  lemma More(states: seq<State>, actions: seq<Action>, a: Action) returns (states': seq<State>, actions': seq<Action>)
    requires Trace(states, actions) && Enabled(states[|actions|], a)
    ensures Trace(states', actions') && actions' == actions + [a]
    ensures states' == states + [Apply(states[|actions|], a, |actions|)]
  {
    states', actions' := states + [Apply(states[|actions|], a, |actions|)], actions + [a];
    forall i | 0 <= i < |actions'|
      ensures Enabled(states'[i], actions'[i]) && states'[i + 1] == Apply(states'[i], actions'[i], i)
    {
      assert i < |actions| ==> states'[i] == states[i] && states'[i + 1] == states[i + 1] && actions'[i] == actions[i];
    }
  }

  /** EventLoop.tick: what it asks the gate, and in which order. */
  method Tick(gate: ReconcileGate, now: int, reconcile: Awaited, drain: Awaited)
    modifies gate
    ensures TickEffect(old(gate.Value()), now, reconcile, drain) == State(gate.Value(), Idle)
  {
    var clock := now;
    var shouldReconcile := gate.ShouldReconcile(clock);
    if shouldReconcile {
      if reconcile.notified {
        gate.MarkDirty();
      }
      if reconcile.failed {
        gate.ReconcileFailed();
        gate.DrainFailed();
        return;
      }
      clock := reconcile.now;
      gate.ReconcileSucceeded(reconcile.result, clock);
    }
    var shouldDrain := gate.ShouldDrain(clock);
    if !shouldDrain {
      return;
    }
    if drain.notified {
      gate.MarkDirty();
    }
    if drain.failed {
      gate.DrainFailed();
    } else {
      gate.DrainCompleted(drain.result > 0, drain.now);
    }
  }

  // ---------------------------------------------------------------- no notification is lost

  /** A reconcile that started after action i has succeeded before action k. */
  ghost predicate ReconciledSince(states: seq<State>, actions: seq<Action>, i: nat, k: nat)
    requires Trace(states, actions) && k <= |actions|
  {
    exists j :: i < j < k && actions[j].ReconcileEnds? && states[j].phase.since > i
  }

  ghost predicate DrainedSince(states: seq<State>, actions: seq<Action>, i: nat, k: nat)
    requires Trace(states, actions) && k <= |actions|
  {
    exists j :: i < j < k && actions[j].DrainEnds? && states[j].phase.since > i
  }

  /** Action k asks the gate whether to drain. */
  predicate AsksDrain(s: State, a: Action) {
    a.ReconcileEnds? || (a.StartTick? && !Reconciles(s.gate, a.now))
  }

  ghost predicate ReconcileArmed(s: State, i: nat) {
    if s.phase.Reconciling? then s.phase.since > i || s.gate.dirtySignal || s.gate.interval <= 0
    else s.gate.dirtySignal || s.gate.quietTicksRemaining > 0 || s.gate.interval <= 0
  }

  ghost predicate DrainArmed(s: State, i: nat) {
    if s.phase.Draining? then s.phase.since > i || s.gate.drainDirtySignal || s.gate.interval <= 0
    else s.gate.drainDirtySignal || s.gate.drainQuietTicksRemaining > 0 || s.gate.interval <= 0
  }

  /** One action keeps a notified gate armed, unless it ends a pass that started after the notification. */
  lemma ActionKeepsArmed(s: State, a: Action, index: nat, i: nat)
    requires Enabled(s, a) && i < index
    ensures ReconcileArmed(s, i) && !(a.ReconcileEnds? && s.phase.since > i) ==> ReconcileArmed(Apply(s, a, index), i)
    ensures DrainArmed(s, i) && !(a.DrainEnds? && s.phase.since > i) ==> DrainArmed(Apply(s, a, index), i)
  {}

  lemma NotificationArms(s: State, index: nat)
    ensures ReconcileArmed(Apply(s, Notify, index), index) && DrainArmed(Apply(s, Notify, index), index)
  {}

  lemma {:induction false} StaysArmed(states: seq<State>, actions: seq<Action>, i: nat, k: nat)
    requires Trace(states, actions) && i < k <= |actions| && actions[i] == Notify
    ensures !ReconciledSince(states, actions, i, k) ==> ReconcileArmed(states[k], i)
    ensures !DrainedSince(states, actions, i, k) ==> DrainArmed(states[k], i)
    decreases k
  {
    hide ReconcileArmed, DrainArmed, Apply;
    if k == i + 1 {
      NotificationArms(states[i], i);
    } else {
      StaysArmed(states, actions, i, k - 1);
      ActionKeepsArmed(states[k - 1], actions[k - 1], k - 1, i);
      assert ReconciledSince(states, actions, i, k - 1) ==> ReconciledSince(states, actions, i, k);
      assert DrainedSince(states, actions, i, k - 1) ==> DrainedSince(states, actions, i, k);
      assert actions[k - 1].ReconcileEnds? && states[k - 1].phase.since > i ==> ReconciledSince(states, actions, i, k);
      assert actions[k - 1].DrainEnds? && states[k - 1].phase.since > i ==> DrainedSince(states, actions, i, k);
    }
  }

  /**
   A notification landing anywhere, in the middle of a pass too: until a reconcile that started after it has succeeded
   every tick starts one, and until a drain that started after it has completed every tick that gets that far drains.
   */
  lemma NoNotificationIsLost(states: seq<State>, actions: seq<Action>, i: nat, k: nat)
    requires Trace(states, actions) && i < k < |actions| && actions[i] == Notify
    ensures actions[k].StartTick? && !ReconciledSince(states, actions, i, k) ==> states[k + 1].phase == Reconciling(k)
    ensures AsksDrain(states[k], actions[k]) && !DrainedSince(states, actions, i, k)
            ==> states[k + 1].phase == Draining(k)
  {
    StaysArmed(states, actions, i, k);
    assert Enabled(states[k], actions[k]) && states[k + 1] == Apply(states[k], actions[k], k);
  }

  /** A failed pass is retried by the next tick. */
  lemma FailuresAreRetried(states: seq<State>, actions: seq<Action>, i: nat, k: nat)
    requires Trace(states, actions) && i < k < |actions|
    requires forall j :: i < j < k ==> actions[j] == Notify
    ensures actions[i].ReconcileFails? && actions[k].StartTick? ==> states[k + 1].phase == Reconciling(k)
    ensures (actions[i].DrainFails? || actions[i].ReconcileFails?) && AsksDrain(states[k], actions[k])
            ==> states[k + 1].phase == Draining(k)
  {
    if actions[i].ReconcileFails? || actions[i].DrainFails? {
      FailureLeavesArmed(states, actions, i, k);
      assert Enabled(states[k], actions[k]) && states[k + 1] == Apply(states[k], actions[k], k);
    }
  }

  lemma {:induction false} FailureLeavesArmed(states: seq<State>, actions: seq<Action>, i: nat, k: nat)
    requires Trace(states, actions) && i < k <= |actions| && forall j :: i < j < k ==> actions[j] == Notify
    requires actions[i].ReconcileFails? || actions[i].DrainFails?
    ensures states[k].phase == Idle && DrainArmed(states[k], i)
    ensures actions[i].ReconcileFails? ==> ReconcileArmed(states[k], i)
    decreases k
  {
    if k > i + 1 {
      FailureLeavesArmed(states, actions, i, k - 1);
      assert states[k] == Apply(states[k - 1], actions[k - 1], k - 1);
    } else {
      assert Enabled(states[i], actions[i]) && states[i + 1] == Apply(states[i], actions[i], i);
    }
  }

  // ---------------------------------------------------------------- the safety-net sweep

  /** When the last reconcile before action k succeeded; the gate's creation if none has. */
  function ReconciledAt(actions: seq<Action>, created: int, k: nat): int
    requires k <= |actions|
  {
    if k == 0 then created
    else if actions[k - 1].ReconcileEnds? then actions[k - 1].now
    else ReconciledAt(actions, created, k - 1)
  }

  function DrainedAt(actions: seq<Action>, created: int, k: nat): int
    requires k <= |actions|
  {
    if k == 0 then created
    else if actions[k - 1].DrainEnds? then actions[k - 1].now
    else DrainedAt(actions, created, k - 1)
  }

  lemma {:induction false} SweepsAreScheduled(states: seq<State>, actions: seq<Action>, interval: int, created: int,
                                              jitter: int, k: nat)
    requires Trace(states, actions) && k <= |actions|
    requires states[0] == State(Fresh(interval, created + jitter), Idle) && (0 <= jitter < interval || interval <= 0)
    ensures states[k].gate.interval == interval
    ensures interval > 0 ==> states[k].gate.nextSweep <= ReconciledAt(actions, created, k) + interval
    ensures interval > 0 ==> states[k].gate.nextDrainSweep <= DrainedAt(actions, created, k) + interval
  {
    if k > 0 {
      SweepsAreScheduled(states, actions, interval, created, jitter, k - 1);
      assert states[k] == Apply(states[k - 1], actions[k - 1], k - 1);
    }
  }

  /** One interval after the last success, or after the gate was created, a tick reconciles and drains whatever else. */
  lemma SafetyNetHolds(states: seq<State>, actions: seq<Action>, interval: int, created: int, jitter: int, k: nat)
    requires Trace(states, actions) && k < |actions|
    requires states[0] == State(Fresh(interval, created + jitter), Idle) && (0 <= jitter < interval || interval <= 0)
    ensures actions[k].StartTick? && actions[k].now >= ReconciledAt(actions, created, k) + interval
            ==> states[k + 1].phase == Reconciling(k)
    ensures AsksDrain(states[k], actions[k]) && actions[k].drainNow >= DrainedAt(actions, created, k) + interval
            ==> states[k + 1].phase == Draining(k)
  {
    SweepsAreScheduled(states, actions, interval, created, jitter, k);
    assert Enabled(states[k], actions[k]) && states[k + 1] == Apply(states[k], actions[k], k);
  }

  // ---------------------------------------------------------------- exactly when a tick does what

  /** The two parts of a tick the gate is asked about. */
  datatype Part = Reconcile | Drain

  function QuietTicks(part: Part): nat {
    if part.Reconcile? then QUIET_TICKS else DRAIN_QUIET_TICKS
  }

  /** The action asks the gate about this part, at the instant `AskedAt`. */
  predicate Asks(s: State, a: Action, part: Part) {
    if part.Reconcile? then a.StartTick? else AsksDrain(s, a)
  }

  function AskedAt(a: Action, part: Part): int
    requires a.StartTick? || a.ReconcileEnds?
  {
    if part.Reconcile? then a.now else a.drainNow
  }

  /** The part has been done. */
  predicate Ends(a: Action, part: Part) {
    if part.Reconcile? then a.ReconcileEnds? else a.DrainEnds?
  }

  /** How often the part was done at actions a..b. */
  function EndedIn(actions: seq<Action>, part: Part, a: nat, b: nat): nat
    requires b <= |actions|
  {
    if b <= a then 0 else EndedIn(actions, part, a, b - 1) + if Ends(actions[b - 1], part) then 1 else 0
  }

  /** Nobody has asked about the part since a notification arrived, or since the gate was created. */
  predicate SignalWaits(states: seq<State>, actions: seq<Action>, part: Part, k: nat)
    requires k <= |actions| < |states|
  {
    k == 0 || actions[k - 1].Notify?
    || (!Asks(states[k - 1], actions[k - 1], part) && SignalWaits(states, actions, part, k - 1))
  }

  /** What there is to follow up: rows inserted, runs resumed, a failure; a failed reconcile fails the drain too. */
  predicate FollowedUp(a: Action, part: Part) {
    match a
    case ReconcileEnds(inserted, _, _) => inserted > 0
    case ReconcileFails => true
    case DrainEnds(resumedAnything, _) => part.Drain? && resumedAnything
    case DrainFails => part.Drain?
    case _ => false
  }

  /** The action makes the next asks start the part: it finds a signal, or leaves something to follow up. */
  predicate Arms(states: seq<State>, actions: seq<Action>, part: Part, i: nat)
    requires i < |actions| < |states|
  {
    FollowedUp(actions[i], part) || (Asks(states[i], actions[i], part) && SignalWaits(states, actions, part, i))
  }

  /** Since something armed the part, or the gate was created, it was done fewer than all quiet times but n. */
  ghost predicate QuietLeft(states: seq<State>, actions: seq<Action>, part: Part, k: nat, n: nat)
    requires k <= |actions| < |states|
  {
    EndedIn(actions, part, 0, k) + n < QuietTicks(part)
    || exists i :: 0 <= i < k && Arms(states, actions, part, i) && EndedIn(actions, part, i + 1, k) + n < QuietTicks(part)
  }

  /** When the next sweep is due: one interval after the part was last done, and as seeded before that. */
  function SweepAt(actions: seq<Action>, part: Part, interval: int, seed: int, k: nat): int
    requires k <= |actions|
  {
    if k == 0 then seed
    else
      match actions[k - 1]
      case ReconcileEnds(_, now, _) =>
        if part.Reconcile? then now + interval else SweepAt(actions, part, interval, seed, k - 1)
      case DrainEnds(_, now) => if part.Drain? then now + interval else SweepAt(actions, part, interval, seed, k - 1)
      case _ => SweepAt(actions, part, interval, seed, k - 1)
  }

  lemma OneActionLater(states: seq<State>, actions: seq<Action>, part: Part, k: nat, n: nat)
    requires k < |actions| < |states|
    ensures QuietLeft(states, actions, part, k + 1, n)
            <==> (Arms(states, actions, part, k) && n < QuietTicks(part))
                 || QuietLeft(states, actions, part, k, if Ends(actions[k], part) then n + 1 else n)
  {
    hide Arms;
    var m := if Ends(actions[k], part) then n + 1 else n;
    assert forall i: nat :: i <= k ==> EndedIn(actions, part, i, k + 1) + n == EndedIn(actions, part, i, k) + m;
    if i :| 0 <= i < k && Arms(states, actions, part, i) && EndedIn(actions, part, i + 1, k) + m < QuietTicks(part) {
      assert EndedIn(actions, part, i + 1, k + 1) + n < QuietTicks(part);
    }
    if Arms(states, actions, part, k) && n < QuietTicks(part) {
      assert EndedIn(actions, part, k + 1, k + 1) == 0;
    }
  }

  predicate SignalOf(g: Gate, part: Part) {
    if part.Reconcile? then g.dirtySignal else g.drainDirtySignal
  }

  function LeftOf(g: Gate, part: Part): nat {
    if part.Reconcile? then g.quietTicksRemaining else g.drainQuietTicksRemaining
  }

  function SweepOf(g: Gate, part: Part): int {
    if part.Reconcile? then g.nextSweep else g.nextDrainSweep
  }

  /** The gate's fields are its history. */
  lemma {:induction false} FieldsRecordHistory(states: seq<State>, actions: seq<Action>, interval: int, seed: int,
                                               part: Part, k: nat)
    requires Trace(states, actions) && k <= |actions| && states[0] == State(Fresh(interval, seed), Idle)
    ensures states[k].gate.interval == interval
    ensures interval > 0 ==> (SignalOf(states[k].gate, part) <==> SignalWaits(states, actions, part, k))
                             && SweepOf(states[k].gate, part) == SweepAt(actions, part, interval, seed, k)
    ensures interval > 0 ==> forall n: nat :: LeftOf(states[k].gate, part) > n <==> QuietLeft(states, actions, part, k, n)
  {
    if k > 0 {
      FieldsRecordHistory(states, actions, interval, seed, part, k - 1);
      assert states[k] == Apply(states[k - 1], actions[k - 1], k - 1);
      forall n: nat | interval > 0
        ensures LeftOf(states[k].gate, part) > n <==> QuietLeft(states, actions, part, k, n)
      {
        OneActionLater(states, actions, part, k - 1, n);
      }
    }
  }

  /**
   Exactly when a tick that asks starts the part: if the gate is off; if a signal is waiting; if this very action leaves
   something to follow up; if the part was done fewer than its quiet times since it was last armed; or if the sweep is due.
   */
  lemma PartStartsIff(states: seq<State>, actions: seq<Action>, interval: int, seed: int, part: Part, k: nat)
    requires Trace(states, actions) && k < |actions| && states[0] == State(Fresh(interval, seed), Idle)
    requires Asks(states[k], actions[k], part)
    ensures states[k + 1].phase == (if part.Reconcile? then Reconciling(k) else Draining(k))
            <==> interval <= 0 || SignalWaits(states, actions, part, k) || FollowedUp(actions[k], part)
                 || QuietLeft(states, actions, part, k, 0)
                 || AskedAt(actions[k], part) >= SweepAt(actions, part, interval, seed, k)
  {
    hide SignalWaits, QuietLeft, SweepAt;
    FieldsRecordHistory(states, actions, interval, seed, part, k);
    assert Enabled(states[k], actions[k]) && states[k + 1] == Apply(states[k], actions[k], k);
  }

  /** Rows inserted are drained in the same tick; should that fail, until a drain that started then or later is done. */
  lemma InsertedRowsAreDrained(states: seq<State>, actions: seq<Action>, i: nat, k: nat)
    requires Trace(states, actions) && i < |actions| && actions[i].ReconcileEnds? && actions[i].inserted > 0
    ensures states[i + 1].phase == Draining(i)
    ensures i < k < |actions| && AsksDrain(states[k], actions[k])
            && (forall j :: i < j < k && actions[j].DrainEnds? ==> states[j].phase.since < i)
            ==> states[k + 1].phase == Draining(k)
  {
    assert states[i + 1] == Apply(states[i], actions[i], i);
    if i < k < |actions| && (forall j :: i < j < k && actions[j].DrainEnds? ==> states[j].phase.since < i) {
      InsertStaysArmed(states, actions, i, k);
      assert Enabled(states[k], actions[k]) && states[k + 1] == Apply(states[k], actions[k], k);
    }
  }

  lemma {:induction false} InsertStaysArmed(states: seq<State>, actions: seq<Action>, i: nat, k: nat)
    requires Trace(states, actions) && i < k <= |actions| && actions[i].ReconcileEnds? && actions[i].inserted > 0
    requires forall j :: i < j < k && actions[j].DrainEnds? ==> states[j].phase.since < i
    ensures states[k].phase.Draining? ==> states[k].phase.since >= i
    ensures !states[k].phase.Draining? ==> states[k].gate.drainDirtySignal || states[k].gate.drainQuietTicksRemaining > 0
                                           || states[k].gate.interval <= 0
    decreases k
  {
    if k > i + 1 {
      InsertStaysArmed(states, actions, i, k - 1);
    }
    assert Enabled(states[k - 1], actions[k - 1]) && states[k] == Apply(states[k - 1], actions[k - 1], k - 1);
  }

  // ---------------------------------------------------------------- an idle worker is quiet

  /** Nothing arrives, is inserted, resumed, fails, or is due for a sweep. */
  predicate Undisturbed(s: State, a: Action) {
    match a
    case Notify => false
    case StartTick(now, drainNow) => now < s.gate.nextSweep && drainNow < s.gate.nextDrainSweep
    case ReconcileEnds(inserted, _, drainNow) => inserted == 0 && drainNow < s.gate.nextDrainSweep
    case ReconcileFails => false
    case DrainEnds(resumedAnything, _) => !resumedAnything
    case DrainFails => false
  }

  /** How many passes start at actions a..b. */
  function ReconcilesIn(states: seq<State>, a: nat, b: nat): nat
    requires a <= b < |states|
    decreases b
  {
    if a == b then 0 else ReconcilesIn(states, a, b - 1) + if states[b].phase == Reconciling(b - 1) then 1 else 0
  }

  function DrainsIn(states: seq<State>, a: nat, b: nat): nat
    requires a <= b < |states|
    decreases b
  {
    if a == b then 0 else DrainsIn(states, a, b - 1) + if states[b].phase == Draining(b - 1) then 1 else 0
  }

  /** How many more reconciles an undisturbed worker will start. */
  function ReconcilesLeft(s: State): int {
    if s.phase.Reconciling? then s.gate.quietTicksRemaining - 1
    else if s.gate.dirtySignal then QUIET_TICKS else s.gate.quietTicksRemaining
  }

  function DrainsLeft(s: State): int {
    if s.phase.Draining? then s.gate.drainQuietTicksRemaining - 1
    else if s.gate.drainDirtySignal then DRAIN_QUIET_TICKS else s.gate.drainQuietTicksRemaining
  }

  ghost predicate Bounded(g: Gate) {
    g.quietTicksRemaining <= QUIET_TICKS && g.drainQuietTicksRemaining <= DRAIN_QUIET_TICKS
  }

  lemma {:induction false} QuietCountersAreBounded(states: seq<State>, actions: seq<Action>, k: nat)
    requires Trace(states, actions) && k <= |actions| && Bounded(states[0].gate)
    ensures Bounded(states[k].gate) && states[k].gate.interval == states[0].gate.interval
  {
    if k > 0 {
      QuietCountersAreBounded(states, actions, k - 1);
      assert states[k] == Apply(states[k - 1], actions[k - 1], k - 1);
    }
  }

  /** Passes started since the signal was consumed. */
  ghost predicate Settling(s: State) {
    && (s.phase.Reconciling? ==> !s.gate.dirtySignal && s.gate.quietTicksRemaining > 0)
    && (s.phase.Draining? ==> !s.gate.drainDirtySignal && s.gate.drainQuietTicksRemaining > 0)
  }

  lemma {:induction false} QuietTicksRunOut(states: seq<State>, actions: seq<Action>, a: nat, b: nat)
    requires Trace(states, actions) && a <= b <= |actions| && states[a].phase.Idle? && states[a].gate.interval > 0
    requires forall j :: a <= j < b ==> Undisturbed(states[j], actions[j])
    ensures Settling(states[b]) && states[b].gate.interval > 0
    ensures ReconcilesIn(states, a, b) + ReconcilesLeft(states[b]) <= ReconcilesLeft(states[a])
    ensures DrainsIn(states, a, b) + DrainsLeft(states[b]) <= DrainsLeft(states[a])
    decreases b
  {
    if a < b {
      QuietTicksRunOut(states, actions, a, b - 1);
      assert Undisturbed(states[b - 1], actions[b - 1]);
      assert states[b] == Apply(states[b - 1], actions[b - 1], b - 1);
    }
  }

  /** However many ticks: at most three reconciles and one drain before an undisturbed worker is idle. */
  lemma IdleWorkerGoesQuiet(states: seq<State>, actions: seq<Action>, seed: int, a: nat, b: nat)
    requires Trace(states, actions) && a <= b <= |actions| && states[a].phase.Idle?
    requires states[0].gate == Fresh(states[0].gate.interval, seed) && states[0].gate.interval > 0
    requires forall j :: a <= j < b ==> Undisturbed(states[j], actions[j])
    ensures ReconcilesIn(states, a, b) <= QUIET_TICKS && DrainsIn(states, a, b) <= DRAIN_QUIET_TICKS
  {
    QuietCountersAreBounded(states, actions, a);
    QuietTicksRunOut(states, actions, a, b);
    assert ReconcilesLeft(states[b]) >= 0 && DrainsLeft(states[b]) >= 0;
  }
}
