/**
 * The threadpool timer future: who keeps the shared state alive while the
 * timer callback may run, and what a ready poll means.  A run is a list of
 * steps of the owner, of the callback thread and of the threadpool.
 *
 * Threadpool contract, built into the guards: a timer fires at most once, not
 * before its creation and not after the drain, which finishes only when no
 * callback is executing.
 */
module Delays {
  import opened Prelude
  import opened Signals

  datatype Phase =
    | Armed          // state made and listened on
    | ContextMade    // the context holds a second reference
    | Live           // `new` has returned
    | Draining       // drop has stopped the timer and waits for callbacks
    | Drained        // the timer object is gone
    | ContextGone    // drop's body has finished
    | Gone           // the fields are dropped too

  /** Where the timer callback is. */
  datatype CallbackPc = NotRun | Entered | Signalling | Left

  datatype State = State(
    phase: Phase,
    timer: bool,             // CreateThreadpoolTimer succeeded
    callback: CallbackPc,
    slot: Slot<()>,
    fired: bool,
    strong: int,
    context: bool)           // the retained reference is held

  datatype Step =
    | MakeContext
    | Create(ok: bool)
    | Fires | Signals | Returns       // the callback
    | PollDelay
    | Drop | DrainEnds | DropContext | DropFields

  const INITIAL := State(Armed, false, NotRun, Listened<()>(Slot(None, [])), false, 1, false)

  function Apply(s: State, step: Step): (t: Option<State>)
    requires s.slot.Valid()
    ensures t.Some? ==> t.value.slot.Valid()
  {
    match step
    case MakeContext =>
      if s.phase == Armed then Some(s.(phase := ContextMade, strong := s.strong + 1, context := true)) else None
    case Create(ok) =>
      if s.phase != ContextMade then None
      else if ok then Some(s.(phase := Live, timer := true))
      else Some(s.(phase := Live, strong := s.strong - 1, context := false))
    case Fires =>
      if (s.phase == Live || s.phase == Draining) && s.timer && s.callback == NotRun
      then Some(s.(callback := Entered)) else None
    case Signals =>
      if s.callback == Entered then Some(s.(callback := Signalling, slot := Signalled(s.slot, ()))) else None
    case Returns =>
      if s.callback == Signalling then Some(s.(callback := Left)) else None
    case PollDelay =>
      if s.phase != Live || s.slot.cells == [] then None
      else Some(s.(fired := s.fired || !s.slot.cells[0].Waiting?))
    case Drop =>
      if s.phase == Live then Some(s.(phase := if s.timer then Draining else ContextGone)) else None
    case DrainEnds =>
      if s.phase == Draining && (s.callback == NotRun || s.callback == Left)
      then Some(s.(phase := Drained)) else None
    case DropContext =>
      if s.phase == Drained then Some(s.(phase := ContextGone, strong := s.strong - 1, context := false)) else None
    case DropFields =>
      if s.phase != ContextGone then None
      else if s.strong == 1 then Some(s.(phase := Gone, strong := 0, slot := Dropped(s.slot)))
      else Some(s.(phase := Gone, strong := s.strong - 1))
  }

  function Exec(s: State, run: seq<Step>): (t: Option<State>)
    requires s.slot.Valid()
    ensures t.Some? ==> t.value.slot.Valid()
    decreases |run|
  {
    if run == [] then Some(s)
    else match Apply(s, run[0])
      case None => None
      case Some(next) => Exec(next, run[1..])
  }

  predicate InCallback(s: State) {
    s.callback == Entered || s.callback == Signalling
  }

  ghost predicate Inv(s: State) {
    && s.slot.Valid() && |s.slot.cells| == 1
    && s.strong == (if s.phase == Gone then 0 else 1) + (if s.context then 1 else 0)
    && (s.context <==>
          s.phase == ContextMade || (s.timer && (s.phase == Live || s.phase == Draining || s.phase == Drained)))
    && (s.callback != NotRun || s.phase == Draining || s.phase == Drained ==> s.timer)
    && (s.timer ==> s.phase != Armed && s.phase != ContextMade)
    && (InCallback(s) ==> s.phase == Live || s.phase == Draining)
    && (s.phase != Gone ==>
          if s.callback == NotRun || s.callback == Entered
          then s.slot == Slot(Some(0), [Waiting])
          else s.slot == Slot(None, [Sent(())]))
    && (s.fired ==> s.callback == Signalling || s.callback == Left)
  }

  lemma StepKeepsInv(s: State, step: Step)
    requires Inv(s) && Apply(s, step).Some?
    ensures Inv(Apply(s, step).value)
  {
  }

  lemma {:induction false} RunKeepsInv(s: State, run: seq<Step>)
    requires Inv(s) && Exec(s, run).Some?
    ensures Inv(Exec(s, run).value)
    decreases |run|
  {
    if run != [] {
      StepKeepsInv(s, run[0]);
      RunKeepsInv(Apply(s, run[0]).value, run[1..]);
    }
  }

  /** Whenever the callback runs, the retained reference keeps its state alive;
      once drop's body is over no callback runs, now or later; and the state is
      freed exactly when the last field goes. */
  lemma CallbackNeverSeesFreedState(run: seq<Step>, s: State)
    requires Exec(INITIAL, run) == Some(s)
    ensures InCallback(s) ==> s.context && s.strong >= 2
    ensures s.phase == Drained || s.phase == ContextGone || s.phase == Gone ==> !InCallback(s) && Apply(s, Fires).None?
    ensures s.strong == 0 <==> s.phase == Gone
  {
    RunKeepsInv(INITIAL, run);
  }

  /** A ready poll means that the callback has signalled; in particular, a
      timer that could not be created is never ready, and never cancelled. */
  lemma ReadyMeansFired(run: seq<Step>, s: State)
    requires Exec(INITIAL, run) == Some(s) && s.phase == Live
    ensures Apply(s, PollDelay).Some? && (Apply(s, PollDelay).value.fired ==> Signals in run && Create(true) in run)
    ensures Apply(s, PollDelay).value.fired <==> s.callback == Signalling || s.callback == Left
  {
    RunKeepsInv(INITIAL, run);
    if Apply(s, PollDelay).value.fired {
      SignalledByStep(INITIAL, run);
    }
  }

  /** A timer that was created can fire, and the next poll is ready then. */
  lemma LiveTimerFires(run: seq<Step>, s: State)
    requires Exec(INITIAL, run) == Some(s) && s.phase == Live
    ensures s.timer <==> Create(true) in run
    ensures s.timer && s.callback == NotRun ==>
              var t := Exec(s, [Fires, Signals, PollDelay]); t.Some? && t.value.fired
  {
    RunKeepsInv(INITIAL, run);
    CreatedByStep(INITIAL, run);
    if s.timer && s.callback == NotRun {
      var a := Apply(s, Fires).value;
      var b := Apply(a, Signals).value;
      assert [Fires, Signals, PollDelay][1..] == [Signals, PollDelay];
      assert [Signals, PollDelay][1..] == [PollDelay] && [PollDelay][1..] == [];
      assert Exec(b, [PollDelay]) == Apply(b, PollDelay);
      assert Exec(a, [Signals, PollDelay]) == Apply(b, PollDelay);
    }
  }

  lemma {:induction false} CreatedByStep(s: State, run: seq<Step>)
    requires Inv(s) && Exec(s, run).Some?
    ensures Exec(s, run).value.timer <==> s.timer || Create(true) in run
    decreases |run|
  {
    if run != [] {
      StepKeepsInv(s, run[0]);
      CreatedByStep(Apply(s, run[0]).value, run[1..]);
      assert run == [run[0]] + run[1..];
    }
  }

  /** Dropping a live timer ends in a freed state: the drain waits for a running
      callback, which can always go on, and then everything goes. */
  lemma DropCanFinish(run: seq<Step>, s: State) returns (rest: seq<Step>)
    requires Exec(INITIAL, run) == Some(s) && s.phase == Live
    ensures Exec(s, rest).Some? && Exec(s, rest).value.phase == Gone && Exec(s, rest).value.strong == 0
  {
    RunKeepsInv(INITIAL, run);
    rest := FinishFrom(s);
  }

  function StepsLeft(s: State): nat {
    (match s.phase
     case Armed => 6 case ContextMade => 5 case Live => 4 case Draining => 3 case Drained => 2 case ContextGone => 1
     case Gone => 0)
    + (match s.callback case NotRun => 0 case Entered => 2 case Signalling => 1 case Left => 0)
  }

  lemma {:induction false} FinishFrom(s: State) returns (rest: seq<Step>)
    requires Inv(s) && s.phase != Armed && s.phase != ContextMade
    ensures Exec(s, rest).Some? && Exec(s, rest).value.phase == Gone && Exec(s, rest).value.strong == 0
    decreases StepsLeft(s)
  {
    if s.phase == Gone {
      rest := [];
    } else {
      var step :=
        if s.callback == Entered then Signals
        else if s.callback == Signalling then Returns
        else match s.phase
          case Live => Drop
          case Draining => DrainEnds
          case Drained => DropContext
          case _ => DropFields;
      StepKeepsInv(s, step);
      rest := FinishFrom(Apply(s, step).value);
      rest := [step] + rest;
    }
  }

  lemma {:induction false} SignalledByStep(s: State, run: seq<Step>)
    requires Inv(s) && Exec(s, run).Some?
    ensures var t := Exec(s, run).value;
            && (s.timer || Create(true) in run || !t.timer)
            && (s.callback == Signalling || s.callback == Left || Signals in run
                || (t.callback != Signalling && t.callback != Left))
    decreases |run|
  {
    if run != [] {
      StepKeepsInv(s, run[0]);
      SignalledByStep(Apply(s, run[0]).value, run[1..]);
      assert run[0] in run && forall x :: x in run[1..] ==> x in run;
    }
  }
}
