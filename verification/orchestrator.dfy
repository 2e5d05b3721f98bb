/** The top-level step: Start or Restarted, the input phase, the compute
    function's events drained through the gate and dispatched one at a
    time, then Success. */
module Orchestrator {
  import opened Model
  import opened Boundaries
  import opened Gate
  import opened Inputs
  import opened Outputs

  /** Lifecycle events for one event the gate let through. */
  function Dispatch(ctx: StepContext, e: UserEvent): (r: Trace<DagsterEvent>)
    ensures forall x :: x in r.events ==> x.IsBodyEvent()
    ensures e.UserMaterialization? ==> r == Emit([StepMaterializationEvent(e.materialization)])
    ensures e.UserExpectation? ==> r == Emit([StepExpectationEvent(e.expectation)])
    ensures e.Unrecognized? ==> r == Fail(CheckFailed(UnexpectedUserEvent(e.pythonType)))
    ensures e.IsOutput() ==>
              match OutputNamed(ctx.step.outputs, e.outputName)
              case Some(o) => r == StepEventsForOutput(ctx, o, e)
              case None => r == Fail(CheckFailed(UnknownStepOutput(e.outputName)))
  {
    match e
    case UserMaterialization(m) => Emit([StepMaterializationEvent(m)])
    case UserExpectation(x) => Emit([StepExpectationEvent(x)])
    case Unrecognized(t) => Fail(CheckFailed(UnexpectedUserEvent(t)))
    case _ =>
      match OutputNamed(ctx.step.outputs, e.outputName)
      case None => Fail(CheckFailed(UnknownStepOutput(e.outputName)))
      case Some(o) => StepEventsForOutput(ctx, o, e)
  }

  /** The compute function's sequence as the gate receives it: its events,
      and the raise that ended it, as it leaves the compute boundary. A
      compute function that returns nothing iterable yields no events. */
  function UserEvents(ctx: StepContext, inputs: map<string, Value>): (r: (seq<UserEvent>, Option<StepError>))
    ensures ctx.calls.compute(inputs).None? ==> r == ([], None)
    ensures ctx.calls.compute(inputs).Some? ==>
              var us := ctx.calls.compute(inputs).value;
              && r.0 == us.events
              && (r.1.Some? <==> us.stop.Some?)
              && (us.stop.Some? ==>
                    r.1.value == Wrap(ComputeBoundary(ctx.step.key, ctx.step.solidHandle.name, ctx.step.solidDefName), us.stop.value))
    ensures r.1.Some? ==>
              || r.1.value.ControlFlowPassed?
              || (r.1.value.UserCodeError? && r.1.value.boundary.ComputeBoundary?)
  {
    match ctx.calls.compute(inputs)
    case None => ([], None)
    case Some(us) =>
      var boundary := ComputeBoundary(ctx.step.key, ctx.step.solidHandle.name, ctx.step.solidDefName);
      (us.events, if us.stop.Some? then Some(Wrap(boundary, us.stop.value)) else None)
  }

  /** The gate and the dispatch interleaved as the generators run: the gate
      pulls the next event only after the previous one has been turned into
      lifecycle events, and records it as seen only afterwards. This gives
      the same trace as running the gate to its end and then dispatching
      what it yielded, stopping at the first error. */
  function Drain(ctx: StepContext, st: GateState, events: seq<UserEvent>, stop: Option<StepError>): (r: Trace<DagsterEvent>)
    ensures forall x :: x in r.events ==> x.IsBodyEvent()
    ensures var g := GateFrom(ctx.step, st, events, stop);
            r == DispatchEach(ctx, g.events, g.error)
    decreases |events|
  {
    if |events| == 0 then
      if stop.Some? then Fail(stop.value) else DrainImplicit(ctx, ctx.step.outputs, st.seenOutputs)
    else
      match Admit(ctx.step, st, events[0])
      case Err(e) => Fail(e)
      case Ok(next) =>
        var rest := GateFrom(ctx.step, next, events[1..], stop);
        assert GateFrom(ctx.step, st, events, stop).events == [events[0]] + rest.events;
        assert ([events[0]] + rest.events)[1..] == rest.events;
        Then(Dispatch(ctx, events[0]), Drain(ctx, next, events[1..], stop))
  }

  /** The gate's post-pass, each implicit output dispatched as it is yielded:
      the same trace as finishing the post-pass and then dispatching what it
      yielded. */
  function DrainImplicit(ctx: StepContext, outputs: seq<StepOutput>, seen: set<string>): (r: Trace<DagsterEvent>)
    ensures forall x :: x in r.events ==> x.IsBodyEvent()
    ensures var f := Finish(ctx.step, outputs, seen);
            r == DispatchEach(ctx, f.events, f.error)
  {
    if |outputs| == 0 then Emit([])
    else
      match Complete(ctx.step, outputs[0], seen)
      case Skip => DrainImplicit(ctx, outputs[1..], seen)
      case Implicit(e) =>
        var rest := Finish(ctx.step, outputs[1..], seen);
        assert Finish(ctx.step, outputs, seen).events == [e] + rest.events;
        assert ([e] + rest.events)[1..] == rest.events;
        Then(Dispatch(ctx, e), DrainImplicit(ctx, outputs[1..], seen))
      case NotFound(err) => Fail(err)
  }

  /** Dispatches a finished list of events in order, stopping at the first
      error, then raises `tail` if everything succeeded. */
  function DispatchEach(ctx: StepContext, events: seq<UserEvent>, tail: Option<StepError>): Trace<DagsterEvent> {
    if |events| == 0 then Trace([], tail)
    else Then(Dispatch(ctx, events[0]), DispatchEach(ctx, events[1..], tail))
  }

  /** The compute phase: the compute function run on the resolved inputs. */
  function ComputeEvents(ctx: StepContext, resolved: seq<Resolved>): (r: Trace<DagsterEvent>)
    ensures forall x :: x in r.events ==> x.IsBodyEvent()
  {
    var user := UserEvents(ctx, InputsMap(resolved));
    Drain(ctx, Initial, user.0, user.1)
  }

  function Opening(priorAttemptCount: int): DagsterEvent {
    if priorAttemptCount > 0 then StepRestarted(priorAttemptCount) else StepStart
  }

  /** One execution of a step; `durationMs` stands for the timer reading
      taken around the compute phase. */
  function ExecuteStep(ctx: StepContext, priorAttemptCount: int, durationMs: nat): (r: Trace<DagsterEvent>)
    ensures |r.events| >= 1
    ensures r.events[0] == (if priorAttemptCount > 0 then StepRestarted(priorAttemptCount) else StepStart)
    ensures r.error.None? <==> r.events[|r.events| - 1] == StepSuccess(durationMs)
    ensures forall i :: 0 < i < |r.events| - 1 ==> r.events[i].IsBodyEvent()
    ensures r.error.Some? ==> forall i :: 0 < i < |r.events| ==> r.events[i].IsBodyEvent()
    ensures var inputs := ResolveInputs(ctx);
            var user := UserEvents(ctx, InputsMap(inputs.resolved));
            var g := Gate.Gate(ctx.step, user.0, user.1);
            r == Then(Emit([Opening(priorAttemptCount)]),
                   Then(inputs.trace, Then(DispatchEach(ctx, g.events, g.error), Emit([StepSuccess(durationMs)]))))
  {
    var inputs := ResolveInputs(ctx);
    var body := Then(inputs.trace, ComputeEvents(ctx, inputs.resolved));
    Framed(Opening(priorAttemptCount), body, StepSuccess(durationMs));
    StepPhasesInOrder(ctx, inputs, StepSuccess(durationMs));
    Then(Emit([Opening(priorAttemptCount)]), Then(body, Emit([StepSuccess(durationMs)])))
  }

  /** Input resolution, then the gate's events each dispatched, then the
      closing event, each phase ending the run when it raises. */
  lemma StepPhasesInOrder(ctx: StepContext, inputs: InputPhase, closing: DagsterEvent)
    ensures var user := UserEvents(ctx, InputsMap(inputs.resolved));
            var g := Gate.Gate(ctx.step, user.0, user.1);
            Then(Then(inputs.trace, ComputeEvents(ctx, inputs.resolved)), Emit([closing])) ==
            Then(inputs.trace, Then(DispatchEach(ctx, g.events, g.error), Emit([closing])))
  {
    ThenAssociative(inputs.trace, ComputeEvents(ctx, inputs.resolved), Emit([closing]));
  }

  /** A body of body events between an opening event and a closing one: the
      closing event appears exactly when the body succeeded. */
  lemma Framed(opening: DagsterEvent, body: Trace<DagsterEvent>, closing: DagsterEvent)
    requires forall x :: x in body.events ==> x.IsBodyEvent()
    requires !closing.IsBodyEvent() && opening != closing
    ensures var r := Then(Emit([opening]), Then(body, Emit([closing])));
            && |r.events| >= 1
            && r.events[0] == opening
            && (r.error.None? <==> r.events[|r.events| - 1] == closing)
            && (forall i :: 0 < i < |r.events| - 1 ==> r.events[i].IsBodyEvent())
            && (r.error.Some? ==> forall i :: 0 < i < |r.events| ==> r.events[i].IsBodyEvent())
  {
  }

  // ---------------------------------------------------------------------
  // What a successful run implies

  /** Every output the gate yields reaches the handling of its own
      definition: the unknown-output branch of `Dispatch` is never taken. */
  lemma GateOutputsReachTheirDefinition(ctx: StepContext, events: seq<UserEvent>, stop: Option<StepError>)
    ensures var g := Gate.Gate(ctx.step, events, stop);
            forall i :: 0 <= i < |g.events| && g.events[i].IsOutput() ==>
              && OutputNamed(ctx.step.outputs, g.events[i].outputName).Some?
              && Dispatch(ctx, g.events[i]) == StepEventsForOutput(ctx, OutputNamed(ctx.step.outputs, g.events[i].outputName).value, g.events[i])
  {
    GateYieldsDeclaredOutputs(ctx.step, events, stop);
  }

  lemma {:induction false} DispatchEachSucceedsOnlyIfTailDoes(ctx: StepContext, events: seq<UserEvent>, tail: Option<StepError>)
    ensures DispatchEach(ctx, events, tail).error.None? ==> tail.None?
    decreases |events|
  {
    if |events| > 0 {
      DispatchEachSucceedsOnlyIfTailDoes(ctx, events[1..], tail);
    }
  }

  /** A step that reaches Success had every event of its compute function
      accepted by the gate, its compute function did not raise, and every
      declared output that is neither optional nor of type `Nothing` was
      yielded by the compute function. */
  lemma SuccessMeansGateAccepted(ctx: StepContext, priorAttemptCount: int, durationMs: nat)
    requires ExecuteStep(ctx, priorAttemptCount, durationMs).error.None?
    ensures var user := UserEvents(ctx, InputsMap(ResolveInputs(ctx).resolved));
            && user.1.None?
            && AcceptedLength(ctx.step.outputs, [], user.0) == |user.0|
            && forall i :: 0 <= i < |ctx.step.outputs| ==> Settled(ctx.step.outputs[i], SeenNames(user.0))
  {
    var inputs := ResolveInputs(ctx);
    var user := UserEvents(ctx, InputsMap(inputs.resolved));
    var g := Gate.Gate(ctx.step, user.0, user.1);
    assert ComputeEvents(ctx, inputs.resolved).error.None?;
    DispatchEachSucceedsOnlyIfTailDoes(ctx, g.events, g.error);
    SummaryOfEmpty();
    GateCharacterised(ctx.step, [], user.0, user.1);
    assert [] + user.0 == user.0;
  }
}
