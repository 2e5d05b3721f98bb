/** User-code error boundaries and the type-check adapter shared by inputs
    and outputs. */
module Boundaries {
  import opened Model

  /** The boundaries around loading an input, iterating the compute function
      and handing an output to its manager list Failure and RetryRequested
      as control-flow exceptions; the type-check and materialization
      boundaries list none. */
  predicate PassesControlFlow(b: Boundary) {
    b.LoadInputBoundary? || b.ComputeBoundary? || b.HandleOutputBoundary?
  }

  /** What reaches the caller when user code raises inside a boundary: a
      listed control-flow signal as it is, anything else wrapped with the
      boundary's context. */
  function Wrap(b: Boundary, exc: Raise): (e: StepError)
    ensures e.ControlFlowPassed? <==> exc.ControlFlow? && PassesControlFlow(b)
    ensures e.ControlFlowPassed? ==> e.signal == exc.signal
    ensures !e.ControlFlowPassed? ==> e == UserCodeError(b, exc)
  {
    if exc.ControlFlow? && PassesControlFlow(b) then ControlFlowPassed(exc.signal)
    else UserCodeError(b, exc)
  }

  /** Runs a collaborator call inside a boundary: a returned value passes
      through, a raise reaches the caller as `Wrap` says; nothing is
      swallowed. */
  function Guard<T>(b: Boundary, c: Call<T>): (r: Result<T>)
    ensures r.Ok? <==> c.Returned?
    ensures c.Returned? ==> r.value == c.value
    ensures c.Raised? ==> r.error == Wrap(b, c.exc)
  {
    match c
    case Returned(v) => Ok(v)
    case Raised(exc) => Err(Wrap(b, exc))
  }

  /** Calls the type's validator; any return value that is not a `TypeCheck`
      becomes a failing one, a proper `TypeCheck` is handed back as it is. */
  function DoTypeCheck(calls: Collaborators, t: DagsterType, v: Value): (r: Call<TypeCheck>)
    ensures calls.typeCheck(t, v).Raised? ==> r == Raised(calls.typeCheck(t, v).exc)
    ensures calls.typeCheck(t, v).Returned? && calls.typeCheck(t, v).value.ProperTypeCheck? ==>
              r == Returned(calls.typeCheck(t, v).value.check)
    ensures calls.typeCheck(t, v).Returned? && calls.typeCheck(t, v).value.OtherReturn? ==>
              r.Returned? && !r.value.success
  {
    match calls.typeCheck(t, v)
    case Raised(exc) => Raised(exc)
    case Returned(ProperTypeCheck(tc)) => Returned(tc)
    case Returned(OtherReturn(pythonType)) =>
      Returned(TypeCheck(false, MustReturnTypeCheck(t.displayName, pythonType), []))
  }

  /** The type check of one value inside the type-check boundary. */
  function CheckUnderBoundary(ctx: StepContext, subject: Subject, t: DagsterType, v: Value): Result<TypeCheck> {
    Guard(TypeCheckBoundary(ctx.step.key, subject), DoTypeCheck(ctx.calls, t, v))
  }

  function CheckData(name: string, tc: TypeCheck): TypeCheckData {
    TypeCheckData(tc.success, name, tc.description, tc.metadata)
  }

  /** The event is emitted whatever the verdict; a failing verdict then stops
      the step. */
  function EmitThenVerdict(event: DagsterEvent, subject: Subject, t: DagsterType, tc: TypeCheck): Trace<DagsterEvent> {
    Trace([event], if tc.success then None else Some(TypeCheckDidNotPass(subject, t.displayName, tc.metadata)))
  }

  /** The events of type-checking one loaded input value. */
  function InputTypeCheckEvents(ctx: StepContext, input: StepInput, value: Value): (r: Trace<DagsterEvent>)
    ensures var checked := DoTypeCheck(ctx.calls, input.dagsterType, value);
      && (checked.Raised? ==>
            r == Fail(UserCodeError(TypeCheckBoundary(ctx.step.key, InputSubject(input.name)), checked.exc)))
      && (checked.Returned? ==>
            && |r.events| == 1
            && r.events[0] == StepInputEvent(input.name, CheckData(input.name, checked.value))
            && r.events[0].typeCheck.success == checked.value.success
            && (r.error.None? <==> checked.value.success)
            && (!checked.value.success ==>
                  r.error == Some(TypeCheckDidNotPass(InputSubject(input.name), input.dagsterType.displayName, checked.value.metadata))))
  {
    match CheckUnderBoundary(ctx, InputSubject(input.name), input.dagsterType, value)
    case Err(e) => Fail(e)
    case Ok(tc) =>
      EmitThenVerdict(StepInputEvent(input.name, CheckData(input.name, tc)), InputSubject(input.name), input.dagsterType, tc)
  }

  /** The events of type-checking one output value against its declared type. */
  function OutputTypeCheckEvents(ctx: StepContext, output: StepOutput, handle: StepOutputHandle, value: Value, version: Option<string>)
    : (r: Trace<DagsterEvent>)
    ensures var checked := DoTypeCheck(ctx.calls, output.dagsterType, value);
      && (checked.Raised? ==>
            r == Fail(UserCodeError(TypeCheckBoundary(ctx.step.key, OutputSubject(output.name)), checked.exc)))
      && (checked.Returned? ==>
            && |r.events| == 1
            && r.events[0] == StepOutputEvent(handle, CheckData(handle.outputName, checked.value), version)
            && r.events[0].typeCheck.success == checked.value.success
            && (r.error.None? <==> checked.value.success)
            && (!checked.value.success ==>
                  r.error == Some(TypeCheckDidNotPass(OutputSubject(output.name), output.dagsterType.displayName, checked.value.metadata))))
  {
    match CheckUnderBoundary(ctx, OutputSubject(output.name), output.dagsterType, value)
    case Err(e) => Fail(e)
    case Ok(tc) =>
      EmitThenVerdict(StepOutputEvent(handle, CheckData(handle.outputName, tc), version), OutputSubject(output.name), output.dagsterType, tc)
  }
}
