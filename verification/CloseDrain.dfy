/**
 * The request close/drain protocol as a state machine.
 *
 * One request is shared by its future, by the thread that drops its handle,
 * by any number of WinHTTP callback threads, and by the operating system.
 * Every step below is one critical section (or one operating-system call) of
 * the code, and the only nondeterminism is which step comes next and what the
 * operating system answers; both are parameters of the step, so a run is a
 * list of steps and `Exec` computes its final state.
 *
 * Operating-system contract, built into the guards of `Apply`:
 *  - closing a handle that is already closed returns false (a close of an
 *    open handle may return false as well);
 *  - HANDLE_CLOSING arrives at most once, only after a close that succeeded,
 *    and no other callback starts after it.
 */
module CloseDrain {
  import opened Prelude
  import opened RequestStates

  /** How far the requesting thread has got in setting the handle up. */
  datatype Setup =
    | Created          // Arc<RequestState> made
    | ContextMade      // CallbackContext holds a second reference
    | InstallFailed    // the option call failed and the context was dropped
    | Installed        // the retained reference now belongs to WinHTTP
    | HandleMade       // the draining handle holds a reference

  /** Where `Drop for WinHttpRequestHandle` is. */
  datatype DropPc =
    | Alive            // not started
    | AboutToClose     // saw no abort
    | Waiting          // about to take the lock and test the condition
    | Asleep           // in the condition variable's wait
    | Returned         // the body of drop has finished
    | Released         // the handle's reference is dropped too

  /** Where the HANDLE_CLOSING callback is. */
  datatype ClosingPc = NotSeen | Cloned | Dropped | Marked | Finished

  datatype State = State(
    close: CloseState,
    abort: Abort,
    callbacks: set<nat>,     // live callback guards
    aborter: Option<nat>,    // the guard that stashed the abort and has still to close
    setup: Setup,
    futureOwns: bool,        // the future's own Arc
    drop: DropPc,
    skipped: bool,           // drop's own close returned false
    closing: ClosingPc,
    osClosed: bool,          // some close of the handle has succeeded
    strong: int,             // the Arc's strong count, as the code moves it
    released: nat,           // how often the retained reference was given back
    callbackCloses: nat)     // close calls made from callbacks

  const INITIAL := State(
    CloseState(false, 0), NotAborted, {}, None, Created, true, Alive, false, NotSeen, false, 1, 0, 0)

  datatype Step =
    | MakeContext
    | InstallFails
    | InstallSucceeds
    | MakeHandle
    | FutureDropsArc
    | FutureTakesReason
    | CallbackEnters(id: nat)
    | CallbackAborts(id: nat, reason: Reason)
    | CallbackCloses(id: nat, ok: bool)
    | CallbackExits(id: nat)
    | ClosingArrives                          // clone_arc_from_raw
    | ClosingDropsContext                     // drop_raw
    | ClosingMarks                            // mark_final_callback_seen
    | ClosingEnds                             // the clone goes out of scope
    | DropReadsAbort
    | DropCloses(ok: bool)
    | DropTestsIdle
    | SpuriousWake
    | DropReleasesArc

  function Woken(pc: DropPc, notify: bool): DropPc {
    if notify && pc == Asleep then Waiting else pc
  }

  /** A context is installed, so callbacks for this request reach the state. */
  predicate HasContext(s: State) {
    s.setup == Installed || s.setup == HandleMade
  }

  /** One step of one participant; None when it cannot happen in `s`. */
  function Apply(s: State, step: Step): Option<State> {
    match step
    case MakeContext =>
      if s.setup == Created && s.futureOwns then Some(s.(setup := ContextMade, strong := s.strong + 1)) else None
    case InstallFails =>
      if s.setup == ContextMade
      then Some(s.(setup := InstallFailed, strong := s.strong - 1, released := s.released + 1)) else None
    case InstallSucceeds =>
      if s.setup == ContextMade then Some(s.(setup := Installed)) else None
    case MakeHandle =>
      if s.setup == Installed then Some(s.(setup := HandleMade, strong := s.strong + 1)) else None
    case FutureDropsArc =>
      if s.futureOwns && s.setup != ContextMade && s.setup != Installed
      then Some(s.(futureOwns := false, strong := s.strong - 1)) else None
    case FutureTakesReason =>
      if s.futureOwns then Some(s.(abort := Taken(s.abort))) else None
    case CallbackEnters(id) =>
      if HasContext(s) && s.closing == NotSeen && id !in s.callbacks then
        match Entered(s.close)
        case None => Some(s)
        case Some(c) => Some(s.(close := c, callbacks := s.callbacks + {id}))
      else None
    case CallbackAborts(id, reason) =>
      if id in s.callbacks && s.aborter != Some(id) then
        Some(s.(abort := Stashed(s.abort, reason), aborter := if s.abort.Aborted? then s.aborter else Some(id)))
      else None
    case CallbackCloses(id, ok) =>
      if s.aborter == Some(id) && (ok ==> !s.osClosed) then
        Some(s.(aborter := None, osClosed := s.osClosed || ok, callbackCloses := s.callbackCloses + 1))
      else None
    case CallbackExits(id) =>
      if id in s.callbacks && s.aborter != Some(id) then
        var c := Exited(s.close);
        Some(s.(close := c, callbacks := s.callbacks - {id}, drop := Woken(s.drop, Drained(c))))
      else None
    case ClosingArrives =>
      if HasContext(s) && s.osClosed && s.closing == NotSeen
      then Some(s.(closing := Cloned, strong := s.strong + 1)) else None
    case ClosingDropsContext =>
      if s.closing == Cloned
      then Some(s.(closing := Dropped, strong := s.strong - 1, released := s.released + 1)) else None
    case ClosingMarks =>
      if s.closing == Dropped then
        var c := MarkedFinal(s.close);
        Some(s.(close := c, closing := Marked, drop := Woken(s.drop, Drained(c))))
      else None
    case ClosingEnds =>
      if s.closing == Marked then Some(s.(closing := Finished, strong := s.strong - 1)) else None
    case DropReadsAbort =>
      if s.setup == HandleMade && s.drop == Alive
      then Some(s.(drop := if s.abort.Aborted? then Waiting else AboutToClose)) else None
    case DropCloses(ok) =>
      if s.drop == AboutToClose && (ok ==> !s.osClosed) then
        Some(s.(drop := if ok then Waiting else Returned, skipped := !ok, osClosed := s.osClosed || ok))
      else None
    case DropTestsIdle =>
      if s.drop == Waiting then Some(s.(drop := if Drained(s.close) then Returned else Asleep)) else None
    case SpuriousWake =>
      if s.drop == Asleep then Some(s.(drop := Waiting)) else None
    case DropReleasesArc =>
      if s.drop == Returned then Some(s.(drop := Released, strong := s.strong - 1)) else None
  }

  /** The state after a whole run; None when some step could not happen. */
  function Exec(s: State, run: seq<Step>): Option<State>
    decreases |run|
  {
    if run == [] then Some(s)
    else match Apply(s, run[0])
      case None => None
      case Some(next) => Exec(next, run[1..])
  }

  lemma ExecNothing(s: State)
    ensures Exec(s, []) == Some(s)
  {
  }

  lemma {:induction false} ExecAppend(s: State, a: seq<Step>, b: seq<Step>)
    requires Exec(s, a).Some?
    ensures Exec(s, a + b) == Exec(Exec(s, a).value, b)
    decreases |a|
  {
    if a == [] {
      assert a + b == b;
    } else {
      assert (a + b)[1..] == a[1..] + b;
      ExecAppend(Apply(s, a[0]).value, a[1..], b);
    }
  }

  lemma ExecStep(s: State, step: Step)
    ensures Exec(s, [step]) == Apply(s, step)
  {
    hide Apply;
    assert [step][1..] == [];
  }

  lemma ExecSnoc(s: State, run: seq<Step>, t: State, step: Step)
    requires Exec(s, run) == Some(t)
    ensures Exec(s, run + [step]) == Apply(t, step)
  {
    hide Apply, Exec;
    ExecAppend(s, run, [step]);
    ExecStep(t, step);
  }

  // ----- Ownership --------------------------------------------------------

  function Count(b: bool): nat {
    if b then 1 else 0
  }

  /** The reference WinHTTP holds, from into_raw to drop_raw. */
  predicate Retained(s: State) {
    HasContext(s) && (s.closing == NotSeen || s.closing == Cloned)
  }

  predicate HandleOwns(s: State) {
    s.setup == HandleMade && s.drop != Released
  }

  predicate CloneOwns(s: State) {
    s.closing == Cloned || s.closing == Dropped || s.closing == Marked
  }

  /** The live owners of the request state. */
  function Owners(s: State): nat {
    Count(s.futureOwns) + Count(s.setup == ContextMade) + Count(Retained(s)) + Count(HandleOwns(s))
    + Count(CloneOwns(s))
  }

  // ----- The invariant ----------------------------------------------------

  /** The counter is the number of live guards, and the flag is the final callback's. */
  ghost predicate CloseMatches(s: State) {
    && s.close.active == |s.callbacks|
    && (s.close.closed <==> s.closing == Marked || s.closing == Finished)
  }

  /** The retained reference has been given back once for each way to lose it. */
  ghost predicate ReleasedMatches(s: State) {
    s.released == Count(s.setup == InstallFailed) + Count(HasContext(s) && !Retained(s))
  }

  /** The strong count is the number of live owners. */
  ghost predicate OwnersMatch(s: State) {
    && s.strong == Owners(s)
    && ReleasedMatches(s)
  }

  ghost predicate PhasesMatch(s: State) {
    && (s.callbacks != {} ==> HasContext(s))
    && (s.closing != NotSeen ==> HasContext(s) && s.osClosed)
    && (s.osClosed ==> HasContext(s))
    && (s.drop != Alive ==> s.setup == HandleMade)
    && (s.setup == ContextMade || s.setup == Installed ==> s.futureOwns)
    && (s.drop == Alive || s.drop == AboutToClose ==> !s.skipped)
    && (s.skipped ==> s.drop == Returned || s.drop == Released)
  }

  ghost predicate AbortMatches(s: State) {
    && (s.aborter.Some? ==> s.aborter.value in s.callbacks)
    && s.callbackCloses + Count(s.aborter.Some?) == Count(s.abort.Aborted?)
    && (s.drop == Waiting || s.drop == Asleep ==> s.osClosed || s.abort.Aborted?)
  }

  ghost predicate WaiterSound(s: State) {
    && (s.drop == Asleep ==> !Drained(s.close))
    && ((s.drop == Returned || s.drop == Released) && !s.skipped ==> Drained(s.close))
  }

  ghost predicate Inv(s: State) {
    CloseMatches(s) && OwnersMatch(s) && PhasesMatch(s) && AbortMatches(s) && WaiterSound(s)
  }

  lemma GuardKeepsClose(s: State, step: Step)
    requires CloseMatches(s) && Apply(s, step).Some? && (step.CallbackEnters? || step.CallbackExits?)
    ensures CloseMatches(Apply(s, step).value)
  {
    hide Drained, Woken;
  }

  lemma StepKeepsClose(s: State, step: Step)
    requires CloseMatches(s) && Apply(s, step).Some?
    ensures CloseMatches(Apply(s, step).value)
  {
    if step.CallbackEnters? || step.CallbackExits? {
      GuardKeepsClose(s, step);
    } else {
      hide Entered, Exited, Stashed, Taken, Drained, Woken;
      assert s.callbacks == Apply(s, step).value.callbacks;
    }
  }

  lemma StepKeepsReleased(s: State, step: Step)
    requires ReleasedMatches(s) && PhasesMatch(s) && Apply(s, step).Some?
    ensures ReleasedMatches(Apply(s, step).value)
  {
    hide Entered, Exited, MarkedFinal, Stashed, Taken, Drained, Woken;
  }

  lemma StepKeepsOwners(s: State, step: Step)
    requires OwnersMatch(s) && PhasesMatch(s) && Apply(s, step).Some?
    ensures OwnersMatch(Apply(s, step).value)
  {
    StepKeepsReleased(s, step);
    hide Entered, Exited, MarkedFinal, Stashed, Taken, Drained, ReleasedMatches;
  }

  lemma StepKeepsPhases(s: State, step: Step)
    requires PhasesMatch(s) && AbortMatches(s) && Apply(s, step).Some?
    ensures PhasesMatch(Apply(s, step).value)
  {
    hide Stashed, Taken, Drained, Entered, Exited, MarkedFinal, Count;
  }

  lemma StepKeepsAbort(s: State, step: Step)
    requires PhasesMatch(s) && AbortMatches(s) && Apply(s, step).Some?
    ensures AbortMatches(Apply(s, step).value)
  {
    hide Entered, Exited, MarkedFinal, Drained;
  }

  lemma StepKeepsWaiter(s: State, step: Step)
    requires CloseMatches(s) && PhasesMatch(s) && WaiterSound(s) && Apply(s, step).Some?
    ensures WaiterSound(Apply(s, step).value)
  {
  }

  lemma StepKeepsInv(s: State, step: Step)
    requires Inv(s) && Apply(s, step).Some?
    ensures Inv(Apply(s, step).value)
  {
    StepKeepsClose(s, step);
    StepKeepsOwners(s, step);
    StepKeepsPhases(s, step);
    StepKeepsAbort(s, step);
    StepKeepsWaiter(s, step);
  }

  /** Every state that some run reaches from the start of a request. */
  ghost predicate Reachable(s: State) {
    exists run :: Exec(INITIAL, run) == Some(s)
  }

  lemma {:induction false} RunKeepsInv(s: State, run: seq<Step>)
    requires Inv(s) && Exec(s, run).Some?
    ensures Inv(Exec(s, run).value)
    decreases |run|
  {
    if run != [] {
      StepKeepsInv(s, run[0]);
      RunKeepsInv(Apply(s, run[0]).value, run[1..]);
    }
  }

  lemma InitialInv()
    ensures Inv(INITIAL) && !Doomed(INITIAL)
  {
  }

  lemma ReachedInv(run: seq<Step>, s: State)
    requires Exec(INITIAL, run) == Some(s)
    ensures Inv(s)
  {
    hide *;
    InitialInv();
    RunKeepsInv(INITIAL, run);
  }

  lemma ReachableInv(s: State)
    requires Reachable(s)
    ensures Inv(s)
  {
    var run :| Exec(INITIAL, run) == Some(s);
    hide *;
    ReachedInv(run, s);
  }

  /** Callbacks are never turned away: until HANDLE_CLOSING, as many can run at
      once as the counter can count. */
  lemma CallbackMayEnter(s: State, id: nat)
    requires Reachable(s) && id !in s.callbacks
    ensures HasContext(s) && s.closing == NotSeen && |s.callbacks| < USIZE_MAX ==>
              var t := Apply(s, CallbackEnters(id));
              && t.Some?
              && t.value.callbacks == s.callbacks + {id}
              && t.value.close.active == |s.callbacks| + 1
  {
    ReachableInv(s);
  }

  // ----- Counting and waking ----------------------------------------------

  lemma GuardsNeverUnderflow(s: State, id: nat)
    requires Reachable(s) && id in s.callbacks
    ensures s.close.active == |s.callbacks| > 0
    ensures Exited(s.close).active == |s.callbacks - {id}|
  {
    ReachableInv(s);
  }

  lemma StepWakesSleeper(s: State, step: Step)
    requires CloseMatches(s) && WaiterSound(s) && s.drop == Asleep && Apply(s, step).Some?
    ensures !Drained(s.close)
    ensures Drained(Apply(s, step).value.close) ==> Apply(s, step).value.drop == Waiting
  {
    hide Stashed, Taken;
  }

  lemma ReadyTestReturns(s: State)
    ensures s.drop == Waiting && Drained(s.close) ==> Apply(s, DropTestsIdle) == Some(s.(drop := Returned))
  {
  }

  /** A sleeper may also wake for no reason, and then tests again. */
  lemma SpuriousWakeTestsAgain(s: State)
    requires s.drop == Asleep && !Drained(s.close)
    ensures Exec(s, [SpuriousWake, DropTestsIdle]) == Some(s)
  {
    var t := s.(drop := Waiting);
    assert [SpuriousWake, DropTestsIdle][1..] == [DropTestsIdle];
    ExecStep(t, DropTestsIdle);
  }

  /** No lost wake-up: the step that completes the condition wakes the sleeper,
      and its next test of the condition returns. */
  lemma SleeperIsWoken(s: State, step: Step)
    requires Reachable(s) && s.drop == Asleep && Apply(s, step).Some?
    ensures !Drained(s.close)
    ensures var t := Apply(s, step).value;
            Drained(t.close) ==> t.drop == Waiting && Apply(t, DropTestsIdle) == Some(t.(drop := Returned))
  {
    ReachableInv(s);
    StepKeepsWaiter(s, step);
    StepWakesSleeper(s, step);
    ReadyTestReturns(Apply(s, step).value);
    hide Apply, Inv, Drained;
  }

  // ----- After drop -------------------------------------------------------

  /** Steps of callback threads that read or write the shared state. */
  predicate CallbackTouches(step: Step) {
    step.CallbackEnters? || step.CallbackAborts? || step.CallbackCloses? || step.CallbackExits?
    || step.ClosingArrives? || step.ClosingDropsContext? || step.ClosingMarks?
  }

  predicate DropDone(s: State) {
    s.drop == Returned || s.drop == Released
  }

  lemma DropDoneIsQuiet(s: State, step: Step)
    requires Inv(s) && DropDone(s) && !s.skipped && Apply(s, step).Some?
    ensures Drained(s.close) && s.callbacks == {} && !CallbackTouches(step)
    ensures DropDone(Apply(s, step).value) && !Apply(s, step).value.skipped
  {
    hide Stashed, Taken, Owners;
  }

  /** Unless drop's own close returned false, drop returns only once the
      request is drained, and from then on, in every continuation, callback
      threads do nothing but let HANDLE_CLOSING's own clone go. */
  lemma {:induction false} DropEndsCallbacks(s: State, run: seq<Step>)
    requires Inv(s) && DropDone(s) && !s.skipped && Exec(s, run).Some?
    ensures Drained(s.close) && s.callbacks == {}
    ensures forall i :: 0 <= i < |run| ==> !CallbackTouches(run[i])
    ensures DropDone(Exec(s, run).value) && Drained(Exec(s, run).value.close)
    decreases |run|
  {
    if run != [] {
      StepKeepsInv(s, run[0]);
      DropDoneIsQuiet(s, run[0]);
      hide Apply, Inv, DropDone, Drained, CallbackTouches;
      DropEndsCallbacks(Apply(s, run[0]).value, run[1..]);
      assert forall i :: 1 <= i < |run| ==> run[i] == run[1..][i - 1];
    }
  }

  lemma DropDrainsRequest(before: seq<Step>, s: State, after: seq<Step>)
    requires Exec(INITIAL, before) == Some(s) && Exec(INITIAL, before + after).Some?
    requires DropDone(s) && !s.skipped
    ensures Drained(s.close) && s.callbacks == {}
    ensures forall i :: 0 <= i < |after| ==> !CallbackTouches(after[i])
  {
    ReachedInv(before, s);
    ExecAppend(INITIAL, before, after);
    DropEndsCallbacks(s, after);
  }

  /** Whatever happens from `s` on, drop does not end before the request is drained. */
  ghost predicate AlwaysEndsDrained(s: State) {
    forall run, t :: Exec(s, run) == Some(t) && DropDone(t) ==> Drained(t.close)
  }

  lemma StepKeepsDrained(s: State, step: Step)
    requires CloseMatches(s) && Drained(s.close) && Apply(s, step).Some?
    ensures Drained(Apply(s, step).value.close)
  {
    assert s.callbacks == {};
  }

  lemma {:induction false} StaysDrained(s: State, run: seq<Step>)
    requires Inv(s) && Drained(s.close) && Exec(s, run).Some?
    ensures Drained(Exec(s, run).value.close)
    decreases |run|
  {
    if run != [] {
      StepKeepsInv(s, run[0]);
      StepKeepsDrained(s, run[0]);
      hide Apply, Inv, Drained;
      StaysDrained(Apply(s, run[0]).value, run[1..]);
    }
  }

  lemma StepKeepsUnskipped(s: State, step: Step)
    requires s.drop != AboutToClose && !s.skipped && Apply(s, step).Some?
    ensures !Apply(s, step).value.skipped
    ensures s.drop != Alive ==> Apply(s, step).value.drop != Alive && Apply(s, step).value.drop != AboutToClose
  {
  }

  lemma {:induction false} StaysUnskipped(s: State, run: seq<Step>)
    requires s.drop != Alive && s.drop != AboutToClose && !s.skipped && Exec(s, run).Some?
    ensures !Exec(s, run).value.skipped
    decreases |run|
  {
    if run != [] {
      StepKeepsUnskipped(s, run[0]);
      hide Apply;
      StaysUnskipped(Apply(s, run[0]).value, run[1..]);
    }
  }

  lemma DropClosesOutcome(s: State, ok: bool)
    requires s.drop == AboutToClose && Apply(s, DropCloses(ok)).Some?
    ensures var t := Apply(s, DropCloses(ok)).value;
            && t.drop == (if ok then Waiting else Returned) && t.skipped == !ok && t.setup == s.setup
            && t.close == s.close && t.callbacks == s.callbacks && t.closing == s.closing
            && t.abort == s.abort && t.aborter == s.aborter && t.osClosed == (s.osClosed || ok)
  {
  }

  lemma AlwaysEndsDrainedAfter(s: State)
    requires Inv(s) && s.drop != Alive && s.drop != AboutToClose && (!s.skipped || Drained(s.close))
    ensures AlwaysEndsDrained(s)
  {
    hide Apply, Exec, CloseMatches, OwnersMatch, PhasesMatch, AbortMatches, Drained;
    forall run, t | Exec(s, run) == Some(t) && DropDone(t) ensures Drained(t.close) {
      RunKeepsInv(s, run);
      if s.skipped {
        StaysDrained(s, run);
      } else {
        StaysUnskipped(s, run);
      }
    }
  }

  /** Drop's guarantee, exactly: once drop has decided to close the handle
      itself, it is certain to end drained if and only if that close succeeds
      or the request is drained already. */
  lemma DropSafeExactly(s: State, ok: bool)
    requires Reachable(s) && s.drop == AboutToClose && Apply(s, DropCloses(ok)).Some?
    ensures AlwaysEndsDrained(Apply(s, DropCloses(ok)).value) <==> ok || Drained(s.close)
  {
    var next := Apply(s, DropCloses(ok)).value;
    ReachableInv(s);
    StepKeepsInv(s, DropCloses(ok));
    DropClosesOutcome(s, ok);
    hide Apply, Exec, Reachable, Inv, Drained;
    if ok || Drained(s.close) {
      AlwaysEndsDrainedAfter(next);
    } else {
      ExecNothing(next);
    }
  }

  lemma ReachableStep(s: State, step: Step, t: State)
    requires Reachable(s) && Apply(s, step) == Some(t)
    ensures Reachable(t)
  {
    var run :| Exec(INITIAL, run) == Some(s);
    hide Apply, Exec;
    ExecSnoc(INITIAL, run, s, step);
  }

  lemma ReachableRun(s: State, run: seq<Step>)
    requires Reachable(s) && Exec(s, run).Some?
    ensures Reachable(Exec(s, run).value)
  {
    var before :| Exec(INITIAL, before) == Some(s);
    hide Exec;
    ExecAppend(INITIAL, before, run);
  }

  /** A request in flight with one callback running. */
  const IN_CALLBACK := INITIAL.(setup := HandleMade, strong := 3, close := CloseState(false, 1), callbacks := {0})

  lemma InCallbackIsReachable()
    ensures Reachable(IN_CALLBACK)
  {
    assert Exec(INITIAL, []) == Some(INITIAL);
    var s := INITIAL.(setup := ContextMade, strong := 2);
    ReachableStep(INITIAL, MakeContext, s);
    ReachableStep(s, InstallSucceeds, s.(setup := Installed));
    ReachableStep(s.(setup := Installed), MakeHandle, s.(setup := HandleMade, strong := 3));
    assert s.callbacks + {0} == {0};
    ReachableStep(s.(setup := HandleMade, strong := 3), CallbackEnters(0), IN_CALLBACK);
  }

  const RACED := IN_CALLBACK.(abort := Aborted(Some(7)), callbackCloses := 1, osClosed := true,
                              drop := Returned, skipped := true)

  /** The handle's documentation promises a drained request whenever drop
      returns.  A callback that aborts between drop's two tests breaks that:
      the callback's close wins, drop's own close returns false, and drop
      returns without waiting while the callback is still running. */
  lemma RacingAbortSkipsTheWait()
    ensures Reachable(RACED)
    ensures RACED.drop == Returned && RACED.callbacks == {0} && !Drained(RACED.close)
  {
    InCallbackIsReachable();
    var a := IN_CALLBACK.(drop := AboutToClose);
    ReachableStep(IN_CALLBACK, DropReadsAbort, a);
    var b := a.(abort := Aborted(Some(7)), aborter := Some(0));
    ReachableStep(a, CallbackAborts(0, 7), b);
    var c := b.(aborter := None, osClosed := true, callbackCloses := 1);
    ReachableStep(b, CallbackCloses(0, true), c);
    ReachableStep(c, DropCloses(false), RACED);
  }

  // ----- Lifetime ---------------------------------------------------------

  lemma CountIsOwners(s: State)
    requires Reachable(s)
    ensures s.strong == Owners(s)
    ensures s.released <= 1
    ensures s.released == 1 <==> s.setup == InstallFailed || (s.closing != NotSeen && s.closing != Cloned)
    ensures HasContext(s) && !s.osClosed ==> s.released == 0 && Retained(s)
  {
    ReachableInv(s);
  }

  /** Everybody but the callbacks has let go: drop did not wait, and neither
      the future, nor the handle, nor HANDLE_CLOSING holds a reference. */
  predicate LetGoEarly(s: State) {
    s.skipped && s.drop == Released && !s.futureOwns && s.closing == Finished
  }

  lemma LetGoIsUnowned(s: State)
    requires CloseMatches(s) && PhasesMatch(s) && AbortMatches(s) && WaiterSound(s)
    requires HasContext(s)
    ensures Owners(s) == 0 <==> !s.futureOwns && s.closing == Finished && s.drop == Released
    ensures s.callbacks != {} && s.drop == Released ==> s.skipped
  {
  }

  /** When a running callback sees a freed state, exactly. */
  lemma FreedUnderCallbackExactly(s: State)
    requires Reachable(s) && s.callbacks != {}
    ensures s.strong == 0 <==> LetGoEarly(s)
  {
    ReachableInv(s);
    LetGoIsUnowned(s);
  }

  lemma ParticipantIsOwned(s: State, step: Step)
    requires Inv(s) && !LetGoEarly(s) && Apply(s, step).Some?
    ensures Owners(s) >= 1
  {
  }

  lemma CallbackKeepsLetGo(s: State, step: Step)
    requires Inv(s) && CallbackTouches(step) && Apply(s, step).Some?
    ensures LetGoEarly(Apply(s, step).value) <==> LetGoEarly(s)
    ensures !LetGoEarly(s) ==> Owners(Apply(s, step).value) >= 1
  {
  }

  /** Nobody runs on a freed state, exactly: whoever can take a step finds a
      live reference unless drop skipped its wait and all the owners are gone,
      and a callback still finds the state alive when its step is over. */
  lemma NeverFreedInUse(s: State, step: Step)
    requires Reachable(s) && Apply(s, step).Some?
    ensures s.strong >= 1 <==> !LetGoEarly(s)
    ensures CallbackTouches(step) ==> (Apply(s, step).value.strong >= 1 <==> !LetGoEarly(s))
  {
    ReachableInv(s);
    StepKeepsInv(s, step);
    if CallbackTouches(step) {
      CallbackKeepsLetGo(s, step);
    }
    if !LetGoEarly(s) {
      ParticipantIsOwned(s, step);
    }
  }

  /** Whatever happens from `s` on, a running callback has a live state. */
  ghost predicate AlwaysOwned(s: State) {
    forall run, t :: Exec(s, run) == Some(t) && t.callbacks != {} ==> t.strong >= 1
  }

  /** No callback is running and none can start any more. */
  predicate NoCallbackLeft(s: State) {
    s.callbacks == {} && s.closing != NotSeen
  }

  /** The handle is open, and the one close that callbacks make has failed. */
  predicate AbortCloseFailed(s: State) {
    !s.osClosed && s.abort.Aborted? && s.aborter.None?
  }

  lemma StepKeepsEnd(s: State, step: Step)
    requires Apply(s, step).Some?
    ensures NoCallbackLeft(s) ==> NoCallbackLeft(Apply(s, step).value)
    ensures AbortCloseFailed(s) && s.drop != AboutToClose ==>
              AbortCloseFailed(Apply(s, step).value) && Apply(s, step).value.drop != AboutToClose
  {
  }

  lemma {:induction false} RunKeepsEnd(s: State, run: seq<Step>)
    requires Exec(s, run).Some?
    ensures NoCallbackLeft(s) ==> NoCallbackLeft(Exec(s, run).value)
    ensures AbortCloseFailed(s) && s.drop != AboutToClose ==> AbortCloseFailed(Exec(s, run).value)
    decreases |run|
  {
    if run != [] {
      StepKeepsEnd(s, run[0]);
      hide Apply, NoCallbackLeft, AbortCloseFailed;
      RunKeepsEnd(Apply(s, run[0]).value, run[1..]);
    }
  }

  /** With the handle closed and drop's wait skipped, everybody but the
      callbacks can let go. */
  lemma {:induction false} AllLetGo(s: State) returns (run: seq<Step>)
    requires s.skipped && s.osClosed && s.setup == HandleMade && DropDone(s)
    ensures Exec(s, run).Some? && LetGoEarly(Exec(s, run).value) && Exec(s, run).value.callbacks == s.callbacks
    decreases Count(s.futureOwns) + DropRank(s.drop) + ClosingRank(s.closing)
  {
    if LetGoEarly(s) {
      run := [];
    } else {
      var step :=
        if s.futureOwns then FutureDropsArc
        else if s.drop == Returned then DropReleasesArc
        else match s.closing
          case NotSeen => ClosingArrives
          case Cloned => ClosingDropsContext
          case Dropped => ClosingMarks
          case _ => ClosingEnds;
      run := AllLetGo(Apply(s, step).value);
      run := [step] + run;
    }
  }

  /** Unless that is ruled out, a callback can be running with the handle closed. */
  lemma ClosedUnderCallback(s: State) returns (run: seq<Step>)
    requires Inv(s) && s.skipped && !NoCallbackLeft(s) && !AbortCloseFailed(s)
    ensures Exec(s, run).Some?
    ensures var t := Exec(s, run).value;
            t.osClosed && t.callbacks != {} && t.skipped && t.setup == HandleMade && DropDone(t)
  {
    hide Exec;
    var t := s;
    run := [];
    ExecNothing(s);
    if s.callbacks == {} {
      t := Apply(s, CallbackEnters(0)).value;
      run := [CallbackEnters(0)];
      ExecStep(s, CallbackEnters(0));
    }
    assert AbortMatches(t) && t.callbacks != {};
    if !t.osClosed && t.aborter.None? {
      var id :| id in t.callbacks;
      ExecSnoc(s, run, t, CallbackAborts(id, 0));
      run := run + [CallbackAborts(id, 0)];
      t := Apply(t, CallbackAborts(id, 0)).value;
    }
    if !t.osClosed {
      var step := CallbackCloses(t.aborter.value, true);
      ExecSnoc(s, run, t, step);
      run := run + [step];
    }
  }

  /** The lifetime guarantee, exactly, at the moment of drop's own close: no
      callback will ever run on a freed state if and only if that close
      succeeds, or no callback is left, or no close can succeed any more. */
  lemma DropKeepsStateExactly(s: State, ok: bool)
    requires Reachable(s) && s.drop == AboutToClose && Apply(s, DropCloses(ok)).Some?
    ensures AlwaysOwned(Apply(s, DropCloses(ok)).value) <==> ok || NoCallbackLeft(s) || AbortCloseFailed(s)
  {
    var next := Apply(s, DropCloses(ok)).value;
    ReachableStep(s, DropCloses(ok), next);
    DropClosesOutcome(s, ok);
    hide Apply, Exec, Reachable;
    if ok || NoCallbackLeft(s) || AbortCloseFailed(s) {
      hide NoCallbackLeft, AbortCloseFailed;
      forall run, t | Exec(next, run) == Some(t) && t.callbacks != {} ensures t.strong >= 1 {
        StaysOwned(next, run);
      }
    } else {
      var t := CanBeFreed(next);
    }
  }

  lemma CanBeFreed(s: State) returns (t: State)
    requires Reachable(s) && s.skipped && !NoCallbackLeft(s) && !AbortCloseFailed(s)
    ensures t.callbacks != {} && t.strong == 0 && !AlwaysOwned(s)
  {
    ReachableInv(s);
    hide Apply, Exec, Inv, LetGoEarly, NoCallbackLeft, AbortCloseFailed;
    var first := ClosedUnderCallback(s);
    var mid := Exec(s, first).value;
    var rest := AllLetGo(mid);
    ExecAppend(s, first, rest);
    t := Exec(mid, rest).value;
    assert Exec(s, first + rest) == Some(t);
    ReachableRun(s, first + rest);
    FreedUnderCallbackExactly(t);
  }

  lemma StaysOwned(s: State, run: seq<Step>)
    requires Reachable(s) && Exec(s, run).Some? && Exec(s, run).value.callbacks != {}
    requires s.drop != Alive && s.drop != AboutToClose
    requires !s.skipped || NoCallbackLeft(s) || AbortCloseFailed(s)
    ensures Exec(s, run).value.strong >= 1
  {
    var t := Exec(s, run).value;
    ReachableRun(s, run);
    hide Apply, Exec;
    RunKeepsEnd(s, run);
    if !s.skipped {
      StaysUnskipped(s, run);
    }
    NotLetGo(t);
  }

  lemma NotLetGo(s: State)
    requires Reachable(s) && s.callbacks != {}
    requires !s.skipped || NoCallbackLeft(s) || AbortCloseFailed(s)
    ensures s.strong >= 1
  {
    ReachableInv(s);
    FreedUnderCallbackExactly(s);
  }

  /** The race above, with everybody but the callback gone. */
  const FREED := RACED.(futureOwns := false, drop := Released, closing := Finished, close := CloseState(true, 1),
                        strong := 0, released := 1)

  /** A run in which the condition fails: the callback that raced drop is still
      running, with its guard still to be dropped, when the last reference goes. */
  lemma RacingAbortOutlivesState()
    ensures Reachable(FREED)
    ensures FREED.callbacks == {0} && FREED.strong == 0 && Apply(FREED, CallbackExits(0)).Some?
  {
    RacingAbortSkipsTheWait();
    hide Reachable, Exec;
    var a := RACED.(futureOwns := false, strong := 2);
    ReachableStep(RACED, FutureDropsArc, a);
    var b := a.(drop := Released, strong := 1);
    ReachableStep(a, DropReleasesArc, b);
    ReachableStep(b, ClosingArrives, b.(closing := Cloned, strong := 2));
    var c := b.(closing := Dropped, strong := 1, released := 1);
    ReachableStep(b.(closing := Cloned, strong := 2), ClosingDropsContext, c);
    ReachableStep(c, ClosingMarks, c.(closing := Marked, close := CloseState(true, 1)));
    ReachableStep(c.(closing := Marked, close := CloseState(true, 1)), ClosingEnds, FREED);
  }

  // ----- Aborting ---------------------------------------------------------

  /** Position of the first abort in a run, or its length. */
  function FirstAbort(run: seq<Step>): (k: nat)
    ensures k <= |run|
    ensures k < |run| ==> run[k].CallbackAborts?
    ensures forall i :: 0 <= i < k ==> !run[i].CallbackAborts?
  {
    if run == [] || run[0].CallbackAborts? then 0 else 1 + FirstAbort(run[1..])
  }

  lemma {:induction false} AbortIsSticky(s: State, run: seq<Step>)
    requires s.abort.Aborted? && Exec(s, run).Some?
    ensures Exec(s, run).value.abort == if FutureTakesReason in run then Aborted(None) else s.abort
    decreases |run|
  {
    if run != [] {
      AbortIsSticky(Apply(s, run[0]).value, run[1..]);
    }
  }

  lemma {:induction false} AbortFollowsRun(s: State, run: seq<Step>)
    requires s.abort == NotAborted && Exec(s, run).Some?
    ensures var k := FirstAbort(run);
            Exec(s, run).value.abort ==
              if k == |run| then NotAborted
              else Aborted(if FutureTakesReason in run[k + 1..] then None else Some(run[k].reason))
    decreases |run|
  {
    if run == [] {
    } else if run[0].CallbackAborts? {
      AbortIsSticky(Apply(s, run[0]).value, run[1..]);
    } else {
      AbortFollowsRun(Apply(s, run[0]).value, run[1..]);
      var k := FirstAbort(run[1..]);
      assert run[1..][k..] == run[k + 1..];
      if k < |run[1..]| {
        assert run[1..][k + 1..] == run[k + 2..];
      }
    }
  }

  /** Only the first abort's reason is ever stored, the flag never clears, and
      callbacks close the handle at most once, only after an abort. */
  lemma FirstAbortWins(run: seq<Step>, s: State)
    requires Exec(INITIAL, run) == Some(s)
    ensures s.abort.Aborted? <==> FirstAbort(run) < |run|
    ensures s.abort.Aborted? && s.abort.reason.Some? ==> s.abort.reason.value == run[FirstAbort(run)].reason
    ensures s.abort.Aborted? && s.abort.reason.None? ==> FutureTakesReason in run[FirstAbort(run) + 1..]
    ensures s.callbackCloses <= Count(s.abort.Aborted?)
  {
    hide Apply, Exec;
    AbortFollowsRun(INITIAL, run);
    ReachedInv(run, s);
  }

  // ----- Drop finishes ----------------------------------------------------

  /** A step of someone with work left: not a new callback, not a spurious
      wake-up, and not a call that changes nothing. */
  ghost predicate Progress(s: State, step: Step) {
    !step.CallbackEnters? && step != SpuriousWake && Apply(s, step).Some? && Apply(s, step).value != s
  }

  ghost predicate Quiet(s: State) {
    forall step :: !Progress(s, step)
  }

  ghost predicate ProgressRun(s: State, run: seq<Step>)
    decreases |run|
  {
    run == [] || (Progress(s, run[0]) && ProgressRun(Apply(s, run[0]).value, run[1..]))
  }

  function SetupRank(p: Setup): nat {
    match p case Created => 4 case ContextMade => 3 case Installed => 2 case HandleMade => 1 case InstallFailed => 0
  }

  function DropRank(p: DropPc): nat {
    match p
    case Alive => 5 case AboutToClose => 4 case Waiting => 3 case Asleep => 2 case Returned => 1 case Released => 0
  }

  function ClosingRank(p: ClosingPc): nat {
    match p case NotSeen => 5 case Cloned => 4 case Dropped => 3 case Marked => 1 case Finished => 0
  }

  function AbortRank(a: Abort): nat {
    match a case NotAborted => 3 case Aborted(r) => Count(r.Some?)
  }

  /** How many progress steps can still be taken, at most. */
  function WorkLeft(s: State): nat {
    SetupRank(s.setup) + DropRank(s.drop) + ClosingRank(s.closing) + AbortRank(s.abort) + 2 * |s.callbacks|
    + Count(s.aborter.Some?) + Count(s.futureOwns)
  }

  lemma CallbackProgress(s: State, step: Step)
    requires Progress(s, step)
    requires step.CallbackAborts? || step.CallbackCloses? || step.CallbackExits?
    ensures WorkLeft(Apply(s, step).value) < WorkLeft(s)
  {
    if step.CallbackExits? {
      assert |s.callbacks - {step.id}| == |s.callbacks| - 1;
    }
  }

  lemma ClosingProgress(s: State, step: Step)
    requires Progress(s, step)
    requires step.ClosingArrives? || step.ClosingDropsContext? || step.ClosingMarks? || step.ClosingEnds?
    ensures WorkLeft(Apply(s, step).value) < WorkLeft(s)
  {
  }

  lemma DropProgress(s: State, step: Step)
    requires Progress(s, step)
    requires step.DropReadsAbort? || step.DropCloses? || step.DropTestsIdle? || step.DropReleasesArc?
    ensures WorkLeft(Apply(s, step).value) < WorkLeft(s)
  {
  }

  lemma ProgressShrinksWork(s: State, step: Step)
    requires Progress(s, step)
    ensures WorkLeft(Apply(s, step).value) < WorkLeft(s)
  {
    match step
    case CallbackAborts(_, _) => CallbackProgress(s, step);
    case CallbackCloses(_, _) => CallbackProgress(s, step);
    case CallbackExits(_) => CallbackProgress(s, step);
    case ClosingArrives => ClosingProgress(s, step);
    case ClosingDropsContext => ClosingProgress(s, step);
    case ClosingMarks => ClosingProgress(s, step);
    case ClosingEnds => ClosingProgress(s, step);
    case DropReadsAbort => DropProgress(s, step);
    case DropCloses(_) => DropProgress(s, step);
    case DropTestsIdle => DropProgress(s, step);
    case DropReleasesArc => DropProgress(s, step);
    case _ =>
  }

  /** A callback's close that fails although the handle is open, when drop will
      not close the handle and has not given up on closing it. */
  predicate FatalClose(s: State, step: Step) {
    step.CallbackCloses? && !step.ok && !s.osClosed && s.drop != AboutToClose && !s.skipped
  }

  /** No step of the run is a fatal close. */
  predicate NoFatalClose(s: State, run: seq<Step>)
    decreases |run|
  {
    run != [] && Apply(s, run[0]).Some? ==>
      !FatalClose(s, run[0]) && NoFatalClose(Apply(s, run[0]).value, run[1..])
  }

  /** Nobody will ever close the handle, and drop will wait for it. */
  predicate Doomed(s: State) {
    AbortCloseFailed(s) && s.drop != AboutToClose && !s.skipped
  }

  lemma StepDooms(s: State, step: Step)
    requires AbortMatches(s) && Apply(s, step).Some?
    ensures Doomed(Apply(s, step).value) <==> Doomed(s) || FatalClose(s, step)
  {
  }

  lemma DoomedStays(s: State, run: seq<Step>)
    requires Doomed(s) && Exec(s, run).Some?
    ensures Doomed(Exec(s, run).value)
    decreases |run|
  {
    if run != [] {
      StepKeepsEnd(s, run[0]);
      StepKeepsUnskipped(s, run[0]);
      hide Apply;
      DoomedStays(Apply(s, run[0]).value, run[1..]);
    }
  }

  lemma {:induction false} RunDooms(s: State, run: seq<Step>)
    requires Inv(s) && !Doomed(s) && Exec(s, run).Some?
    ensures Doomed(Exec(s, run).value) <==> !NoFatalClose(s, run)
    decreases |run|
  {
    if run != [] {
      StepDooms(s, run[0]);
      StepKeepsInv(s, run[0]);
      hide Apply, Inv, Doomed, FatalClose;
      var next := Apply(s, run[0]).value;
      if Doomed(next) {
        DoomedStays(next, run[1..]);
      } else {
        RunDooms(next, run[1..]);
      }
    }
  }

  lemma QuietCallbacks(s: State)
    requires PhasesMatch(s) && Quiet(s)
    ensures s.aborter == None && s.callbacks == {} && !s.futureOwns
    ensures s.setup != ContextMade && s.setup != Installed
  {
    if s.aborter.Some? {
      assert Progress(s, CallbackCloses(s.aborter.value, false));
    }
    if s.callbacks != {} {
      var id :| id in s.callbacks;
      assert Progress(s, CallbackExits(id));
    }
    assert !Progress(s, MakeHandle) && !Progress(s, InstallFails) && !Progress(s, FutureDropsArc);
  }

  lemma QuietClosing(s: State)
    requires PhasesMatch(s) && Quiet(s)
    ensures s.osClosed ==> s.closing == Finished
  {
    assert !Progress(s, ClosingArrives) && !Progress(s, ClosingDropsContext);
    assert !Progress(s, ClosingMarks) && !Progress(s, ClosingEnds);
  }

  lemma QuietDrop(s: State)
    requires Quiet(s) && s.setup == HandleMade
    ensures s.drop == Asleep || s.drop == Released
  {
    assert !Progress(s, DropReadsAbort) && !Progress(s, DropCloses(false));
    assert !Progress(s, DropTestsIdle) && !Progress(s, DropReleasesArc);
  }

  /** If nobody can make progress, no callback is live and the future is gone;
      drop is over if and only if somebody closed the handle or drop gave up
      waiting, and otherwise it is asleep, and the handle was doomed. */
  lemma QuietMeansOver(s: State)
    requires Inv(s) && Quiet(s)
    ensures s.callbacks == {} && !s.futureOwns
    ensures s.strong == Count(HasContext(s) && !s.osClosed) + Count(HandleOwns(s))
    ensures s.setup == HandleMade ==>
              && (s.drop == Released || s.drop == Asleep)
              && (s.drop == Released <==> s.osClosed || s.skipped)
              && (s.drop == Asleep <==> Doomed(s))
  {
    QuietCallbacks(s);
    QuietClosing(s);
    if s.setup == HandleMade {
      QuietDrop(s);
    }
  }

  lemma {:induction false} ProgressRunBounded(s: State, run: seq<Step>)
    requires ProgressRun(s, run)
    ensures Exec(s, run).Some?
    ensures |run| + WorkLeft(Exec(s, run).value) <= WorkLeft(s)
    decreases |run|
  {
    if run != [] {
      ProgressShrinksWork(s, run[0]);
      ProgressRunBounded(Apply(s, run[0]).value, run[1..]);
    }
  }

  lemma {:induction false} HandleStaysMade(s: State, run: seq<Step>)
    requires s.setup == HandleMade && Exec(s, run).Some?
    ensures Exec(s, run).value.setup == HandleMade
    decreases |run|
  {
    if run != [] {
      HandleStaysMade(Apply(s, run[0]).value, run[1..]);
    }
  }

  /** Drop's termination, exactly.  From any reachable state with a handle, in
      any order of progress steps, the work runs out after at most WorkLeft
      steps.  When it has, no callback is left, and drop has returned if and
      only if no close by a callback was fatal; then, drop's own close not
      having failed, the request state is freed. */
  lemma DropFinishes(before: seq<Step>, s: State, run: seq<Step>)
    requires Exec(INITIAL, before) == Some(s) && s.setup == HandleMade
    requires ProgressRun(s, run)
    ensures |run| <= WorkLeft(s)
    ensures Exec(s, run).Some?
    ensures var t := Exec(s, run).value;
            Quiet(t) ==>
              && t.callbacks == {}
              && (t.drop == Released <==> NoFatalClose(INITIAL, before + run))
              && (t.drop == Released && !t.skipped ==> t.strong == 0)
  {
    hide *;
    ProgressRunBounded(s, run);
    HandleStaysMade(s, run);
    ExecAppend(INITIAL, before, run);
    FinishesExactly(before + run, Exec(s, run).value);
  }

  lemma FinishesExactly(run: seq<Step>, t: State)
    requires Exec(INITIAL, run) == Some(t) && t.setup == HandleMade
    ensures Quiet(t) ==>
              && t.callbacks == {}
              && (t.drop == Released <==> NoFatalClose(INITIAL, run))
              && (t.drop == Released && !t.skipped ==> t.strong == 0)
  {
    hide *;
    InitialInv();
    ReachedInv(run, t);
    RunDooms(INITIAL, run);
    if Quiet(t) {
      QuietMeansOver(t);
      if t.drop == Released && !t.skipped {
        QuietDropFrees(t);
      }
    }
  }

  lemma QuietDropFrees(s: State)
    requires Inv(s) && Quiet(s) && s.setup == HandleMade && s.drop == Released && !s.skipped
    ensures s.strong == 0
  {
    QuietMeansOver(s);
  }

  /** The same at the callback's close itself: from there on, every state in
      which nobody can make progress has drop over if and only if the close
      worked, or the handle was closed before, or drop was about to close it,
      or had given up waiting. */
  lemma CloseDecides(s: State, id: nat, ok: bool, run: seq<Step>, t: State)
    requires Reachable(s) && Apply(s, CallbackCloses(id, ok)).Some?
    requires Exec(Apply(s, CallbackCloses(id, ok)).value, run) == Some(t) && Quiet(t)
    ensures t.drop == Released <==> ok || s.osClosed || s.drop == AboutToClose || s.skipped
  {
    var next := Apply(s, CallbackCloses(id, ok)).value;
    ReachableInv(s);
    StepKeepsInv(s, CallbackCloses(id, ok));
    OnlyClose(s, id, ok);
    hide Apply, Exec, Inv, Quiet, HasContext, Doomed;
    RunKeepsInv(next, run);
    AbortIsLast(next, run);
    QuietHasHandle(t);
    QuietMeansOver(t);
    if Doomed(next) {
      DoomedStays(next, run);
    } else {
      RunDooms(next, run);
    }
  }

  lemma OnlyClose(s: State, id: nat, ok: bool)
    requires Inv(s) && Apply(s, CallbackCloses(id, ok)).Some?
    ensures var t := Apply(s, CallbackCloses(id, ok)).value;
            && t.callbackCloses > 0 && HasContext(t)
            && (Doomed(t) <==> !(ok || s.osClosed || s.drop == AboutToClose || s.skipped))
  {
  }

  lemma QuietHasHandle(s: State)
    requires Inv(s) && Quiet(s) && HasContext(s)
    ensures s.setup == HandleMade
  {
    QuietCallbacks(s);
  }

  lemma ClosesOnce(s: State, step: Step)
    requires AbortMatches(s) && s.callbackCloses > 0 && HasContext(s) && Apply(s, step).Some?
    ensures !FatalClose(s, step)
    ensures Apply(s, step).value.callbackCloses > 0 && HasContext(Apply(s, step).value)
  {
  }

  /** After the callbacks' one close, none of them closes again. */
  lemma {:induction false} AbortIsLast(s: State, run: seq<Step>)
    requires Inv(s) && s.callbackCloses > 0 && HasContext(s) && Exec(s, run).Some?
    ensures NoFatalClose(s, run) && HasContext(Exec(s, run).value)
    decreases |run|
  {
    if run != [] {
      ClosesOnce(s, run[0]);
      StepKeepsInv(s, run[0]);
      hide Apply, Inv, HasContext, FatalClose;
      AbortIsLast(Apply(s, run[0]).value, run[1..]);
    }
  }

  const STUCK := INITIAL.(setup := HandleMade, futureOwns := false, strong := 2, abort := Aborted(None),
                          callbackCloses := 1, drop := Asleep)

  /** A fatal close: the code ignores the result of the callback's close, so if
      the open handle did not close, drop sleeps with nobody left to wake it. */
  lemma FailedAbortCloseHangs()
    ensures Reachable(STUCK)
    ensures STUCK.drop == Asleep && Quiet(STUCK)
  {
    InCallbackIsReachable();
    hide Reachable, Quiet;
    var a := IN_CALLBACK.(abort := Aborted(Some(7)), aborter := Some(0));
    ReachableStep(IN_CALLBACK, CallbackAborts(0, 7), a);
    var b := a.(aborter := None, callbackCloses := 1);
    ReachableStep(a, CallbackCloses(0, false), b);
    var c := b.(close := CloseState(false, 0), callbacks := {});
    assert b.callbacks - {0} == {};
    ReachableStep(b, CallbackExits(0), c);
    ReachableStep(c, FutureTakesReason, c.(abort := Aborted(None)));
    var d := c.(abort := Aborted(None), futureOwns := false, strong := 2);
    ReachableStep(c.(abort := Aborted(None)), FutureDropsArc, d);
    ReachableStep(d, DropReadsAbort, d.(drop := Waiting));
    ReachableStep(d.(drop := Waiting), DropTestsIdle, STUCK);
    StuckIsQuiet();
  }

  lemma StuckIsQuiet()
    ensures Quiet(STUCK)
  {
  }
}
