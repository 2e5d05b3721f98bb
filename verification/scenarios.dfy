/** Whole-step runs for three situations: a single
    output that is yielded and stored, a required output that is never
    yielded, and a dynamic output whose mapping key repeats. */
module Scenarios {
  import opened Model
  import opened Boundaries
  import opened Gate
  import opened Inputs
  import opened Outputs
  import opened Orchestrator

  /** A step without inputs emits nothing in the input phase. */
  lemma NoInputPhase(ctx: StepContext)
    requires ctx.step.inputs == []
    ensures ResolveInputs(ctx) == InputPhase(Emit([]), [])
  {
  }

  /** With no solid configuration anywhere, no materializer runs. */
  lemma {:induction false} NoConfiguredMaterializers(ctx: StepContext, o: StepOutput, h: Option<SolidHandle>, value: Value)
    requires ctx.solidConfigs == map[]
    ensures MaterializeFrom(ctx, o, h, value) == Emit([])
    decreases h
  {
    if h.Some? {
      NoConfiguredMaterializers(ctx, o, h.value.parent, value);
    }
  }

  /** The events of one static output whose type check passes and whose
      manager returns nothing: its output event, then the set-asset event. */
  lemma StoredOutput(ctx: StepContext, o: StepOutput, v: Value, tc: TypeCheck)
    requires !o.isDynamic && tc.success
    requires ctx.calls.typeCheck(o.dagsterType, v) == Returned(ProperTypeCheck(tc))
    requires ctx.calls.handleOutput(o.managerKey, StepOutputHandle(ctx.step.key, o.name, None), v) == Returned(ReturnedNone)
    requires ctx.solidConfigs == map[]
    ensures var h := StepOutputHandle(ctx.step.key, o.name, None);
            StepEventsForOutput(ctx, o, Output(o.name, v)) ==
              Emit([StepOutputEvent(h, CheckData(o.name, tc), VersionFor(ctx, h)), SetAssetEvent(o, h)])
  {
    var h := StepOutputHandle(ctx.step.key, o.name, None);
    NoConfiguredMaterializers(ctx, o, Some(ctx.step.solidHandle), v);
    var manager := SetObjects(ctx, o, h, v);
    assert manager == Emit([SetAssetEvent(o, h)]);
  }

  /** A step with one required static output that its compute function
      yields once, accepted by its type and stored by its manager:
      Start or Restarted, the output event, the set-asset event, Success. */
  lemma SingleOutputSucceeds(ctx: StepContext, v: Value, tc: TypeCheck, priorAttemptCount: int, durationMs: nat)
    requires ctx.step.inputs == [] && |ctx.step.outputs| == 1 && !ctx.step.outputs[0].isDynamic
    requires ctx.calls.compute(map[]) == Some(UserSequence([Output(ctx.step.outputs[0].name, v)], None))
    requires tc.success && ctx.calls.typeCheck(ctx.step.outputs[0].dagsterType, v) == Returned(ProperTypeCheck(tc))
    requires ctx.calls.handleOutput(ctx.step.outputs[0].managerKey, StepOutputHandle(ctx.step.key, ctx.step.outputs[0].name, None), v)
               == Returned(ReturnedNone)
    requires ctx.solidConfigs == map[]
    ensures var o := ctx.step.outputs[0];
            var h := StepOutputHandle(ctx.step.key, o.name, None);
            ExecuteStep(ctx, priorAttemptCount, durationMs) ==
              Emit([Opening(priorAttemptCount), StepOutputEvent(h, CheckData(o.name, tc), VersionFor(ctx, h)),
                    SetAssetEvent(o, h), StepSuccess(durationMs)])
  {
    var o := ctx.step.outputs[0];
    NoInputPhase(ctx);
    assert InputsMap([]) == map[];
    StoredOutput(ctx, o, v, tc);
    SingleOutputDrains(ctx, v);
  }

  /** The only declared output, yielded once, passes the gate and is
      dispatched; the post-pass then has nothing to settle. */
  lemma SingleOutputDrains(ctx: StepContext, v: Value)
    requires |ctx.step.outputs| == 1 && !ctx.step.outputs[0].isDynamic
    ensures Drain(ctx, Initial, [Output(ctx.step.outputs[0].name, v)], None) ==
              StepEventsForOutput(ctx, ctx.step.outputs[0], Output(ctx.step.outputs[0].name, v))
  {
    var o := ctx.step.outputs[0];
    var e := Output(o.name, v);
    assert Dispatch(ctx, e) == StepEventsForOutput(ctx, o, e);
    var next := GateState({o.name}, {});
    assert OutputNamed(ctx.step.outputs, o.name) == Some(o);
    assert Initial.seenOutputs + {o.name} == {o.name};
    assert Admit(ctx.step, Initial, e) == Ok(next);
    assert DrainImplicit(ctx, ctx.step.outputs[1..], {o.name}) == Emit([]);
    assert Drain(ctx, next, [], None) == Emit([]);
    assert [e][1..] == [];
    var d := Dispatch(ctx, e);
    assert d.error.None? ==> d.events + [] == d.events;
  }

  /** A step with one required output, not of type `Nothing`, that its
      compute function never yields: Start or Restarted, then output not
      found naming that output, and no Success. */
  lemma MissingOutputFails(ctx: StepContext, priorAttemptCount: int, durationMs: nat)
    requires ctx.step.inputs == [] && |ctx.step.outputs| == 1
    requires !ctx.step.outputs[0].optional && !IsNothing(ctx.step.outputs[0].dagsterType)
    requires ctx.calls.compute(map[]) == Some(UserSequence([], None))
    ensures ExecuteStep(ctx, priorAttemptCount, durationMs) ==
              Trace([Opening(priorAttemptCount)], Some(StepOutputNotFound(ctx.step.key, ctx.step.outputs[0].name)))
  {
  }

  /** A dynamic output yielded twice with the same mapping key: the first
      is type-checked and stored in full, the second stops the step with a
      duplicate-mapping-key violation before anything of it is emitted. */
  lemma RepeatedMappingKeyAborts(ctx: StepContext, key: string, v1: Value, v2: Value, tc: TypeCheck,
                                 more: seq<UserEvent>, stop: Option<Raise>, priorAttemptCount: int, durationMs: nat)
    requires ctx.step.inputs == [] && |ctx.step.outputs| == 1 && ctx.step.outputs[0].isDynamic
    requires var n := ctx.step.outputs[0].name;
             ctx.calls.compute(map[]) == Some(UserSequence([DynamicOutput(n, key, v1), DynamicOutput(n, key, v2)] + more, stop))
    requires tc.success && ctx.calls.typeCheck(ctx.step.outputs[0].dagsterType, v1) == Returned(ProperTypeCheck(tc))
    requires ctx.calls.handleOutput(ctx.step.outputs[0].managerKey, StepOutputHandle(ctx.step.key, ctx.step.outputs[0].name, Some(key)), v1)
               == Returned(ReturnedNone)
    requires ctx.solidConfigs == map[]
    ensures var o := ctx.step.outputs[0];
            var h := StepOutputHandle(ctx.step.key, o.name, Some(key));
            ExecuteStep(ctx, priorAttemptCount, durationMs) ==
              Trace([Opening(priorAttemptCount), StepOutputEvent(h, CheckData(o.name, tc), VersionFor(ctx, h)), SetAssetEvent(o, h)],
                    Some(InvariantViolation(DuplicateMappingKey(o.name, key))))
  {
    var o := ctx.step.outputs[0];
    var h := StepOutputHandle(ctx.step.key, o.name, Some(key));
    NoInputPhase(ctx);
    assert InputsMap([]) == map[];
    NoConfiguredMaterializers(ctx, o, Some(ctx.step.solidHandle), v1);
    assert SetObjects(ctx, o, h, v1) == Emit([SetAssetEvent(o, h)]);
    RepeatedMappingKeyDrains(ctx, key, v1, v2, more, UserEvents(ctx, map[]).1);
  }

  /** The first dynamic output passes the gate and is dispatched; the
      second, with the same mapping key, is refused. */
  lemma RepeatedMappingKeyDrains(ctx: StepContext, key: string, v1: Value, v2: Value,
                                 more: seq<UserEvent>, stop: Option<StepError>)
    requires |ctx.step.outputs| == 1 && ctx.step.outputs[0].isDynamic
    ensures var o := ctx.step.outputs[0];
            var first := DynamicOutput(o.name, key, v1);
            Drain(ctx, Initial, [first, DynamicOutput(o.name, key, v2)] + more, stop) ==
              Then(StepEventsForOutput(ctx, o, first), Fail(InvariantViolation(DuplicateMappingKey(o.name, key))))
  {
    var o := ctx.step.outputs[0];
    var events := [DynamicOutput(o.name, key, v1), DynamicOutput(o.name, key, v2)] + more;
    var next := GateState({o.name}, {(o.name, key)});
    assert OutputNamed(ctx.step.outputs, o.name) == Some(o);
    assert Initial.seenOutputs + {o.name} == {o.name};
    assert Initial.seenMappingKeys + {(o.name, key)} == {(o.name, key)};
    assert events[0] == DynamicOutput(o.name, key, v1);
    assert Admit(ctx.step, Initial, events[0]) == Ok(next);
    assert Admit(ctx.step, next, events[1]) == Err(InvariantViolation(DuplicateMappingKey(o.name, key)));
    assert events[1..][0] == events[1];
    assert Drain(ctx, next, events[1..], stop) == Fail(InvariantViolation(DuplicateMappingKey(o.name, key)));
  }
}
