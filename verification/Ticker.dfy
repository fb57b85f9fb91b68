/**
 The periodic ticker of one worker (EventLoop.tickPeriodically): a timer, triggers, ticks in flight and close, in any
 interleaving their callbacks can have on the JavaScript runtime.  Promise reactions run before the next timer callback, so
 a timer, and a trigger dispatched by one as the notifier does, finds none pending; a trigger called from a microtask may.
 */
module Ticker {
  import opened Options

  /** Ticks are named by the number of the callback that started them. */
  type TickId = nat

  /**
   The closure's variables, and what the runtime still owes it: the tick a scheduledLoop awaits, and the finally
   callbacks of triggered ticks.  `dirty` is the gate's signal, consumed at the start of a tick.
   */
  datatype State = State(gateBusy: bool, closed: bool, shuttingDown: bool, timer: bool, inFlight: Option<TickId>,
                         running: set<TickId>, loopOn: Option<TickId>, finallys: set<TickId>, dirty: bool)

  datatype Action =
    | TimerFires
    | Trigger(fromMicrotask: bool)
    | TickEnds(tick: TickId)
    | LoopContinues
    | FinallyRuns(tick: TickId)
    | Close
    | ShutDown

  const STARTED := State(false, false, false, true, None, {}, None, {}, true)

  /** A tick has ended whose `await` or `finally` has not been run yet. */
  predicate ReactionPending(s: State) {
    (s.loopOn.Some? && s.loopOn.value !in s.running) || exists t :: t in s.finallys && t !in s.running
  }

  predicate Enabled(s: State, a: Action) {
    match a
    case TimerFires => s.timer && !ReactionPending(s)
    case Trigger(fromMicrotask) => fromMicrotask || !ReactionPending(s)
    case TickEnds(tick) => tick in s.running
    case LoopContinues => s.loopOn.Some? && s.loopOn.value !in s.running
    case FinallyRuns(tick) => tick in s.finallys && tick !in s.running
    case _ => true
  }

  function TimerFired(s: State, id: TickId): State {
    if !s.closed && !s.shuttingDown && !s.gateBusy
    then s.(timer := false, gateBusy := true, running := s.running + {id}, inFlight := Some(id), loopOn := Some(id),
            dirty := false)
    else s.(timer := !s.closed)
  }

  function Triggered(s: State, id: TickId): State {
    if s.closed || s.gateBusy then s.(dirty := true)
    else s.(gateBusy := true, running := s.running + {id}, inFlight := Some(id), finallys := s.finallys + {id},
            dirty := false)
  }

  function Apply(s: State, a: Action, id: TickId): State {
    match a
    case TimerFires => TimerFired(s, id)
    case Trigger(_) => Triggered(s, id)
    case TickEnds(tick) => s.(running := s.running - {tick}, gateBusy := false)
    case LoopContinues => s.(loopOn := None, inFlight := None, timer := !s.closed)
    case FinallyRuns(tick) => s.(finallys := s.finallys - {tick}, inFlight := None)
    case Close => s.(closed := true, timer := false)
    case ShutDown => s.(shuttingDown := true)
  }

  /** Callback number i starts tick i, if it starts one. */
  ghost predicate Trace(states: seq<State>, actions: seq<Action>) {
    && |states| == |actions| + 1 && states[0] == STARTED
    && forall i :: 0 <= i < |actions| ==> Enabled(states[i], actions[i]) && states[i + 1] == Apply(states[i], actions[i], i)
  }

  predicate StartsTick(s: State, a: Action) {
    !s.closed && !s.gateBusy && (a.Trigger? || (a.TimerFires? && !s.shuttingDown))
  }

  // ---------------------------------------------------------------- the callbacks, as the closure has them

  class PeriodicTick {
    var gateBusy: bool
    var closed: bool
    var shuttingDown: bool
    var timer: bool
    var inFlight: Option<TickId>
    var running: set<TickId>
    var loopOn: Option<TickId>
    var finallys: set<TickId>
    var dirty: bool

    function Value(): State
      reads this
    {
      State(gateBusy, closed, shuttingDown, timer, inFlight, running, loopOn, finallys, dirty)
    }

    constructor ()
      ensures Value() == STARTED
    {
      gateBusy, closed, shuttingDown, timer, inFlight := false, false, false, true, None;
      running, loopOn, finallys, dirty := {}, None, {}, true;
    }

    /** runTick up to its first await: the gate's signal is consumed. */
    method RunTick(id: TickId)
      modifies this`running, this`dirty
      ensures running == old(running) + {id} && !dirty
    {
      running := running + {id};
      dirty := false;
    }

    /** scheduledLoop up to its await, or to its end if it starts no tick. */
    method ScheduledLoop(id: TickId)
      modifies this
      ensures Value() == TimerFired(old(Value()), id)
    {
      timer := false;
      if !closed && !shuttingDown && !gateBusy {
        gateBusy := true;
        RunTick(id);
        inFlight := Some(id);
        loopOn := Some(id);
        return;
      }
      if !closed {
        timer := true;
      }
    }

    method Trigger(id: TickId)
      modifies this
      ensures Value() == Triggered(old(Value()), id)
    {
      dirty := true;
      if closed || gateBusy {
        return;
      }
      gateBusy := true;
      RunTick(id);
      inFlight := Some(id);
      finallys := finallys + {id};
    }

    method EndTick(tick: TickId)
      modifies this
      ensures Value() == Apply(old(Value()), TickEnds(tick), 0)
    {
      running := running - {tick};
      gateBusy := false;
    }

    method ContinueLoop()
      requires closed ==> !timer
      modifies this
      ensures Value() == Apply(old(Value()), LoopContinues, 0)
    {
      loopOn := None;
      inFlight := None;
      if !closed {
        timer := true;
      }
    }

    /** close up to its await of inFlight. */
    method Close() returns (awaits: Option<TickId>)
      modifies this
      ensures Value() == Apply(old(Value()), Action.Close, 0) && awaits == old(inFlight)
    {
      closed := true;
      timer := false;
      awaits := inFlight;
    }
  }

  // ---------------------------------------------------------------- at most one tick, none after close

  ghost predicate Inv(s: State) {
    && (s.gateBusy <==> s.running != {})
    && (forall t, u :: t in s.running && u in s.running ==> t == u)
    && (s.closed ==> !s.timer)
    && !(s.timer && s.loopOn.Some?)
    && (!s.closed ==> s.timer || s.loopOn.Some?)
  }

  /** Everything named in the state was started before. */
  ghost predicate NamesPast(s: State, k: nat) {
    && (forall t :: t in s.running || t in s.finallys ==> t < k)
    && (s.loopOn.Some? ==> s.loopOn.value < k) && (s.inFlight.Some? ==> s.inFlight.value < k)
  }

  lemma CallbackKeepsInv(s: State, a: Action, id: TickId)
    requires Inv(s) && Enabled(s, a)
    ensures Inv(Apply(s, a, id))
  {
    if a.TickEnds? {
      assert s.running == {a.tick};
    }
  }

  lemma CallbackKeepsNames(s: State, a: Action, id: TickId)
    requires NamesPast(s, id)
    ensures NamesPast(Apply(s, a, id), id + 1)
  {}

  lemma {:induction false} TraceKeepsInv(states: seq<State>, actions: seq<Action>, k: nat)
    requires Trace(states, actions) && k <= |actions|
    ensures Inv(states[k]) && NamesPast(states[k], k)
  {
    if k > 0 {
      TraceKeepsInv(states, actions, k - 1);
      CallbackKeepsInv(states[k - 1], actions[k - 1], k - 1);
      CallbackKeepsNames(states[k - 1], actions[k - 1], k - 1);
    }
  }

  lemma AtMostOneTickRuns(states: seq<State>, actions: seq<Action>, k: nat)
    requires Trace(states, actions) && k <= |actions|
    ensures |states[k].running| <= 1
  {
    TraceKeepsInv(states, actions, k);
    var running := states[k].running;
    if t :| t in running {
      assert running == {t};
    }
  }

  /** A tick starts exactly where one may, and never once close was called. */
  lemma NoTickStartsAfterClose(states: seq<State>, actions: seq<Action>, i: nat, k: nat)
    requires Trace(states, actions) && i <= k < |actions|
    ensures k in states[k + 1].running <==> StartsTick(states[k], actions[k])
    ensures actions[i].Close? ==> i == k || (states[k].closed && k !in states[k + 1].running)
  {
    TraceKeepsInv(states, actions, k);
    assert states[k + 1] == Apply(states[k], actions[k], k);
    if actions[i].Close? && i < k {
      ClosedStaysClosed(states, actions, i, k);
    }
  }

  lemma {:induction false} ClosedStaysClosed(states: seq<State>, actions: seq<Action>, i: nat, k: nat)
    requires Trace(states, actions) && i < k <= |actions| && actions[i].Close?
    ensures states[k].closed
    decreases k
  {
    assert states[k] == Apply(states[k - 1], actions[k - 1], k - 1);
    if k > i + 1 {
      ClosedStaysClosed(states, actions, i, k - 1);
    }
  }

  // ---------------------------------------------------------------- coalesced triggers

  /** No tick has started at or after callback i. */
  ghost predicate NoneStarted(states: seq<State>, actions: seq<Action>, i: nat, k: nat)
    requires Trace(states, actions) && k <= |actions|
  {
    forall j :: i <= j < k ==> !StartsTick(states[j], actions[j])
  }

  lemma {:induction false} SignalWaits(states: seq<State>, actions: seq<Action>, i: nat, k: nat)
    requires Trace(states, actions) && i < k <= |actions| && actions[i].Trigger?
    requires NoneStarted(states, actions, i, k)
    ensures states[k].dirty
    decreases k
  {
    assert states[k] == Apply(states[k - 1], actions[k - 1], k - 1);
    assert !StartsTick(states[k - 1], actions[k - 1]);
    if k > i + 1 {
      SignalWaits(states, actions, i, k - 1);
    }
  }

  /**
   An open ticker never stands still: a timer is armed, or the loop awaits a tick.  The tick can end; then the loop can go on,
   and arms the timer; and the timer fires as soon as no reaction is pending, and either starts a tick or is armed again.
   */
  lemma AnOpenTickerGoesOn(states: seq<State>, actions: seq<Action>, k: nat)
    requires Trace(states, actions) && k <= |actions| && !states[k].closed
    ensures var s := states[k];
            && (s.timer || s.loopOn.Some?)
            && (forall t :: t in s.running ==> Enabled(s, TickEnds(t)) && t !in Apply(s, TickEnds(t), k).running)
            && (s.loopOn.Some? && s.loopOn.value !in s.running
                ==> Enabled(s, LoopContinues) && Apply(s, LoopContinues, k).timer)
            && (forall t :: t in s.finallys && t !in s.running
                            ==> Enabled(s, FinallyRuns(t)) && t !in Apply(s, FinallyRuns(t), k).finallys)
            && (s.timer && s.running == {} && s.finallys == {}
                ==> Enabled(s, TimerFires) && (StartsTick(s, TimerFires) || Apply(s, TimerFires, k).timer))
            && (s.loopOn.None? && s.finallys == {} ==> Enabled(s, Trigger(false)))
  {
    TraceKeepsInv(states, actions, k);
  }

  /** What inFlight names is a tick whose loop or finally callback is still to come, and will clear it. */
  predicate InFlightOwed(s: State) {
    s.inFlight.Some? ==> s.loopOn == s.inFlight || s.inFlight.value in s.finallys
  }

  lemma CallbackKeepsOwed(s: State, a: Action, id: TickId)
    requires InFlightOwed(s)
    ensures InFlightOwed(Apply(s, a, id))
  {}

  lemma {:induction false} InFlightIsOwed(states: seq<State>, actions: seq<Action>, k: nat)
    requires Trace(states, actions) && k <= |actions|
    ensures InFlightOwed(states[k])
  {
    hide InFlightOwed, Apply;
    if k > 0 {
      InFlightIsOwed(states, actions, k - 1);
      CallbackKeepsOwed(states[k - 1], actions[k - 1], k - 1);
    } else {
      NothingOwed();
    }
  }

  lemma NothingOwed()
    ensures InFlightOwed(STARTED)
  {}

  /** Once every tick has ended and every reaction has run, close waits for nothing. */
  lemma IdleTickerAwaitsNothing(states: seq<State>, actions: seq<Action>, k: nat)
    requires Trace(states, actions) && k <= |actions| && states[k].running == {} && !ReactionPending(states[k])
    ensures states[k].inFlight == None
  {
    InFlightIsOwed(states, actions, k);
  }

  /**
   While open, a trigger no tick has answered leaves the gate dirty, and a timer or a loop that awaits a tick; the next timer
   callback then starts a tick unless one runs or the application is shutting down.
   */
  lemma CoalescedTriggerIsNotLost(states: seq<State>, actions: seq<Action>, i: nat, k: nat)
    requires Trace(states, actions) && i < k <= |actions| && actions[i].Trigger? && !states[k].closed
    requires NoneStarted(states, actions, i, k)
    ensures states[k].dirty && (states[k].timer || states[k].loopOn.Some?)
    ensures states[k].timer && states[k].running == {} && !states[k].shuttingDown ==> StartsTick(states[k], TimerFires)
    ensures k < |actions| && StartsTick(states[k], actions[k]) ==> k in states[k + 1].running && !states[k + 1].dirty
  {
    SignalWaits(states, actions, i, k);
    TraceKeepsInv(states, actions, k);
    if k < |actions| {
      assert states[k + 1] == Apply(states[k], actions[k], k);
    }
  }

  // ---------------------------------------------------------------- what close waits for

  /** No trigger is called from a microtask while a reaction is pending. */
  ghost predicate TriggersComeFromTimers(actions: seq<Action>) {
    forall i :: 0 <= i < |actions| && actions[i].Trigger? ==> !actions[i].fromMicrotask
  }

  /** Some reaction still to run is not that of tick t. */
  predicate OtherReactionPending(s: State, t: TickId) {
    (s.loopOn.Some? && s.loopOn.value != t) || exists u :: u in s.finallys && u != t
  }

  /** What a running tick's start left behind decides what inFlight says once the reactions have run. */
  ghost predicate FlightKnown(s: State, t: TickId, startedPending: bool) {
    && (!startedPending ==> !OtherReactionPending(s, t) && s.inFlight == Some(t))
    && (startedPending && !OtherReactionPending(s, t) ==> s.inFlight == None)
    && (s.inFlight == None || s.inFlight == Some(t))
  }

  lemma StartKnowsFlight(s: State, a: Action, id: TickId)
    requires Inv(s) && NamesPast(s, id) && Enabled(s, a) && StartsTick(s, a)
    ensures FlightKnown(Apply(s, a, id), id, ReactionPending(s))
    ensures ReactionPending(s) ==> a.Trigger? && a.fromMicrotask
  {
    assert s.running == {};
    var s' := Apply(s, a, id);
    if u :| u in s.finallys {
      assert u in s'.finallys && u != id;
    }
  }

  lemma CallbackKeepsFlight(s: State, a: Action, id: TickId, t: TickId, startedPending: bool)
    requires Inv(s) && Enabled(s, a) && t in s.running && t in Apply(s, a, id).running
    requires FlightKnown(s, t, startedPending)
    ensures FlightKnown(Apply(s, a, id), t, startedPending)
  {
    assert !StartsTick(s, a);
    assert forall u :: u in s.running ==> u == t;
  }

  lemma {:induction false} RunningTickIsKnown(states: seq<State>, actions: seq<Action>, k: nat, t: TickId)
    requires Trace(states, actions) && k <= |actions| && t in states[k].running
    ensures t < k && StartsTick(states[t], actions[t])
    ensures FlightKnown(states[k], t, ReactionPending(states[t]))
    ensures ReactionPending(states[t]) ==> actions[t].Trigger? && actions[t].fromMicrotask
    decreases k
  {
    hide Inv, FlightKnown, ReactionPending;
    TraceKeepsInv(states, actions, k - 1);
    assert Enabled(states[k - 1], actions[k - 1]) && states[k] == Apply(states[k - 1], actions[k - 1], k - 1);
    if t in states[k - 1].running {
      RunningTickIsKnown(states, actions, k - 1, t);
      CallbackKeepsFlight(states[k - 1], actions[k - 1], k - 1, t, ReactionPending(states[t]));
    } else {
      StartKnowsFlight(states[k - 1], actions[k - 1], k - 1);
    }
  }

  /**
   Where triggers are dispatched by timers, as the notifier dispatches them, inFlight names the running tick in every state:
   close always finds it.
   */
  lemma CloseFindsTheRunningTick(states: seq<State>, actions: seq<Action>, k: nat, t: TickId)
    requires Trace(states, actions) && TriggersComeFromTimers(actions) && k <= |actions| && t in states[k].running
    ensures states[k].inFlight == Some(t)
  {
    RunningTickIsKnown(states, actions, k, t);
  }

  /**
   With triggers from microtasks: once the reactions of earlier ticks have run, close finds the running tick exactly if none
   was pending when the tick was started.
   */
  lemma CloseFindsIffNonePending(states: seq<State>, actions: seq<Action>, k: nat, t: TickId)
    requires Trace(states, actions) && k <= |actions| && t in states[k].running && !OtherReactionPending(states[k], t)
    ensures t < k && (states[k].inFlight == Some(t) <==> !ReactionPending(states[t]))
  {
    RunningTickIsKnown(states, actions, k, t);
  }

  /** A trigger called from a microtask between the end of a scheduled tick and its loop's continuation: close misses it. */
  lemma MicrotaskTriggerCanBeMissed()
    ensures exists states: seq<State>, actions: seq<Action> ::
              Trace(states, actions) && |actions| == 5 && actions[2] == Trigger(true) && actions[4] == Close
              && states[4].running == {2} && states[4].inFlight == None
  {
    var s0 := STARTED;
    var s1 := Apply(s0, TimerFires, 0);
    var s2 := Apply(s1, TickEnds(0), 1);
    var s3 := Apply(s2, Trigger(true), 2);
    var s4 := Apply(s3, LoopContinues, 3);
    var s5 := Apply(s4, Close, 4);
    var states := [s0, s1, s2, s3, s4, s5];
    var actions := [TimerFires, TickEnds(0), Trigger(true), LoopContinues, Close];
    assert s2.running == {};
    assert !ReactionPending(s0);
    assert Trace(states, actions);
  }
}
