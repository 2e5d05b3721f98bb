/** The output validation gate: it re-yields the compute function's events,
    refusing outputs that break the emission rules, and after the last event
    settles every declared output that was never yielded. */
module Gate {
  import opened Model

  /** What the gate remembers: the names of the outputs already yielded, and
      for dynamic outputs the (output name, mapping key) pairs already
      yielded (a name's mapping-key set is the pairs that carry that name). */
  datatype GateState = GateState(seenOutputs: set<string>, seenMappingKeys: set<(string, string)>)

  const Initial: GateState := GateState({}, {})

  /** The checks one event goes through, in the order the gate runs them. */
  function Admit(step: Step, st: GateState, e: UserEvent): (r: Result<GateState>)
    ensures r.Err? ==> r.error.InvariantViolation?
    ensures r.Ok? && e.IsOutput() ==> r.value.seenOutputs == st.seenOutputs + {e.outputName}
  {
    if !e.IsOutput() then Ok(st)
    else
      match OutputNamed(step.outputs, e.outputName)
      case None => Err(InvariantViolation(UndeclaredOutput(e.outputName, OutputNames(step.outputs))))
      case Some(def) =>
        if e.Output? then
          if e.outputName in st.seenOutputs then Err(InvariantViolation(DuplicateOutput(e.outputName)))
          else if def.isDynamic then Err(InvariantViolation(StaticOutputForDynamic(e.outputName)))
          else Ok(GateState(st.seenOutputs + {e.outputName}, st.seenMappingKeys))
        else
          if !def.isDynamic then Err(InvariantViolation(DynamicOutputWithoutDefinition(e.outputName)))
          else if (e.outputName, e.mappingKey) in st.seenMappingKeys then
            Err(InvariantViolation(DuplicateMappingKey(e.outputName, e.mappingKey)))
          else Ok(GateState(st.seenOutputs + {e.outputName}, st.seenMappingKeys + {(e.outputName, e.mappingKey)}))
  }

  /** How the post-pass settles one declared output. */
  datatype Completion = Skip | Implicit(event: UserEvent) | NotFound(error: StepError)

  function Complete(step: Step, o: StepOutput, seen: set<string>): Completion {
    if o.name !in seen && !o.optional then
      if IsNothing(o.dagsterType) then Implicit(Output(o.name, NoValue))
      else NotFound(StepOutputNotFound(step.key, o.name))
    else Skip
  }

  /** An output needs nothing from the post-pass: it was yielded, it is
      optional, or its type is `Nothing`. */
  predicate Settled(o: StepOutput, seen: set<string>) {
    o.name in seen || o.optional || IsNothing(o.dagsterType)
  }

  /** A required `Nothing` output that was never yielded. */
  predicate MissingNothing(o: StepOutput, seen: set<string>) {
    o.name !in seen && !o.optional && IsNothing(o.dagsterType)
  }

  /** The position of the first declared output that is not settled, or the
      number of outputs when all are. */
  function FirstUnsettled(outputs: seq<StepOutput>, seen: set<string>): (k: nat)
    ensures k <= |outputs|
    ensures forall j :: 0 <= j < k ==> Settled(outputs[j], seen)
    ensures k < |outputs| ==> !Settled(outputs[k], seen)
  {
    if |outputs| == 0 || !Settled(outputs[0], seen) then 0
    else 1 + FirstUnsettled(outputs[1..], seen)
  }

  /** The valueless output of each required `Nothing` output never yielded,
      in declaration order. */
  function ImplicitOutputs(outputs: seq<StepOutput>, seen: set<string>): seq<UserEvent> {
    if |outputs| == 0 then []
    else (if MissingNothing(outputs[0], seen) then [Output(outputs[0].name, NoValue)] else [])
         + ImplicitOutputs(outputs[1..], seen)
  }

  /** The post-pass over the declared outputs, in declaration order. */
  function Finish(step: Step, outputs: seq<StepOutput>, seen: set<string>): (r: Trace<UserEvent>)
    ensures r.error.None? <==> forall i :: 0 <= i < |outputs| ==> Settled(outputs[i], seen)
    ensures forall e :: e in r.events ==>
              e.Output? && e.value == NoValue &&
              exists i :: 0 <= i < |outputs| && outputs[i].name == e.outputName && MissingNothing(outputs[i], seen)
    ensures r.error.None? ==>
              forall i :: 0 <= i < |outputs| && MissingNothing(outputs[i], seen) ==> Output(outputs[i].name, NoValue) in r.events
    ensures r.error.Some? ==>
              exists i :: 0 <= i < |outputs| && !Settled(outputs[i], seen) &&
                (forall j :: 0 <= j < i ==> Settled(outputs[j], seen)) &&
                r.error.value == StepOutputNotFound(step.key, outputs[i].name)
    ensures r.events == ImplicitOutputs(outputs[..FirstUnsettled(outputs, seen)], seen)
    ensures FirstUnsettled(outputs, seen) < |outputs| ==>
              r.error == Some(StepOutputNotFound(step.key, outputs[FirstUnsettled(outputs, seen)].name))
  {
    if |outputs| == 0 then Emit([])
    else
      var rest := Finish(step, outputs[1..], seen);
      assert forall i :: 1 <= i < |outputs| ==> outputs[i] == outputs[1..][i - 1];
      assert Settled(outputs[0], seen) ==>
               outputs[..FirstUnsettled(outputs, seen)][1..] == outputs[1..][..FirstUnsettled(outputs[1..], seen)];
      match Complete(step, outputs[0], seen)
      case Skip => rest
      case Implicit(e) => Then(Emit([e]), rest)
      case NotFound(err) => Fail(err)
  }

  /** What happens once the compute function's sequence ends: its exception,
      if it raised one, else the post-pass. */
  function PostPass(step: Step, seen: set<string>, stop: Option<StepError>): Trace<UserEvent> {
    if stop.Some? then Fail(stop.value) else Finish(step, step.outputs, seen)
  }

  /** The gate from state `st` over the remaining events; `stop` is the
      error, already wrapped by the compute boundary, that the compute
      function raises after its last event, if any. */
  function GateFrom(step: Step, st: GateState, events: seq<UserEvent>, stop: Option<StepError>): Trace<UserEvent>
    decreases |events|
  {
    if |events| == 0 then PostPass(step, st.seenOutputs, stop)
    else
      match Admit(step, st, events[0])
      case Err(e) => Fail(e)
      case Ok(next) => Then(Emit([events[0]]), GateFrom(step, next, events[1..], stop))
  }

  function Gate(step: Step, events: seq<UserEvent>, stop: Option<StepError>): Trace<UserEvent> {
    GateFrom(step, Initial, events, stop)
  }

  // ---------------------------------------------------------------------
  // The emission rules stated over the history of yielded events

  /** Names of all outputs, static or dynamic, among `prior`. */
  function SeenNames(prior: seq<UserEvent>): set<string> {
    set j | 0 <= j < |prior| && prior[j].IsOutput() :: prior[j].outputName
  }

  /** (name, mapping key) of all dynamic outputs among `prior`. */
  function SeenKeys(prior: seq<UserEvent>): set<(string, string)> {
    set j | 0 <= j < |prior| && prior[j].DynamicOutput? :: (prior[j].outputName, prior[j].mappingKey)
  }

  function Summary(prior: seq<UserEvent>): GateState {
    GateState(SeenNames(prior), SeenKeys(prior))
  }

  /** Whether `e` may follow the events `prior` already let through: an
      output must name a declared output; a static output must target a
      non-dynamic definition and no earlier output may carry its name; a
      dynamic output must target a dynamic definition and no earlier dynamic
      output may carry its name and mapping key. Other events always may. */
  predicate Acceptable(outputs: seq<StepOutput>, prior: seq<UserEvent>, e: UserEvent) {
    match e
    case Output(n, _) =>
      && OutputNamed(outputs, n).Some?
      && !OutputNamed(outputs, n).value.isDynamic
      && forall j :: 0 <= j < |prior| ==> !(prior[j].IsOutput() && prior[j].outputName == n)
    case DynamicOutput(n, k, _) =>
      && OutputNamed(outputs, n).Some?
      && OutputNamed(outputs, n).value.isDynamic
      && forall j :: 0 <= j < |prior| ==> !(prior[j].DynamicOutput? && prior[j].outputName == n && prior[j].mappingKey == k)
    case _ => true
  }

  /** The length of the longest prefix of `rest` whose events are each
      acceptable after `prior` and the events before them. */
  function AcceptedLength(outputs: seq<StepOutput>, prior: seq<UserEvent>, rest: seq<UserEvent>): (k: nat)
    ensures k <= |rest|
    ensures forall i :: 0 <= i < k ==> Acceptable(outputs, prior + rest[..i], rest[i])
    ensures k < |rest| ==> !Acceptable(outputs, prior + rest[..k], rest[k])
    decreases |rest|
  {
    if |rest| == 0 then 0
    else if !Acceptable(outputs, prior, rest[0]) then
      assert prior + rest[..0] == prior;
      0
    else
      var k' := AcceptedLength(outputs, prior + [rest[0]], rest[1..]);
      assert prior + rest[..0] == prior;
      assert forall i :: 0 <= i <= k' ==> (prior + [rest[0]]) + rest[1..][..i] == prior + rest[..i + 1];
      assert forall i :: 0 <= i < k' ==> rest[1..][i] == rest[i + 1];
      k' + 1
  }

  lemma SummaryOfEmpty()
    ensures Summary([]) == Initial
  {
  }

  lemma {:induction false} SummarySnoc(prior: seq<UserEvent>, e: UserEvent)
    ensures SeenNames(prior + [e]) == SeenNames(prior) + (if e.IsOutput() then {e.outputName} else {})
    ensures SeenKeys(prior + [e]) == SeenKeys(prior) + (if e.DynamicOutput? then {(e.outputName, e.mappingKey)} else {})
  {
    var p := prior + [e];
    assert forall j :: 0 <= j < |prior| ==> p[j] == prior[j];
    assert p[|prior|] == e;
    forall x | x in SeenNames(p)
      ensures x in SeenNames(prior) + (if e.IsOutput() then {e.outputName} else {})
    {
      var j :| 0 <= j < |p| && p[j].IsOutput() && p[j].outputName == x;
      if j < |prior| {
        assert prior[j].IsOutput() && prior[j].outputName == x;
      }
    }
    forall x | x in SeenKeys(p)
      ensures x in SeenKeys(prior) + (if e.DynamicOutput? then {(e.outputName, e.mappingKey)} else {})
    {
      var j :| 0 <= j < |p| && p[j].DynamicOutput? && (p[j].outputName, p[j].mappingKey) == x;
      if j < |prior| {
        assert prior[j].DynamicOutput? && (prior[j].outputName, prior[j].mappingKey) == x;
      }
    }
  }

  /** One gate step from the summary of the history accepts exactly the
      acceptable events, moves to the summary of the extended history, and
      refuses with an invariant violation naming the rule broken first. */
  lemma {:induction false} AdmitAgreesWithReference(step: Step, prior: seq<UserEvent>, e: UserEvent)
    ensures Admit(step, Summary(prior), e).Ok? <==> Acceptable(step.outputs, prior, e)
    ensures Admit(step, Summary(prior), e).Ok? ==> Admit(step, Summary(prior), e).value == Summary(prior + [e])
    ensures e.IsOutput() && OutputNamed(step.outputs, e.outputName).None? ==>
              Admit(step, Summary(prior), e) == Err(InvariantViolation(UndeclaredOutput(e.outputName, OutputNames(step.outputs))))
    ensures e.Output? && OutputNamed(step.outputs, e.outputName).Some? && e.outputName in SeenNames(prior) ==>
              Admit(step, Summary(prior), e) == Err(InvariantViolation(DuplicateOutput(e.outputName)))
    ensures e.DynamicOutput? && OutputNamed(step.outputs, e.outputName).Some? && OutputNamed(step.outputs, e.outputName).value.isDynamic &&
            (e.outputName, e.mappingKey) in SeenKeys(prior) ==>
              Admit(step, Summary(prior), e) == Err(InvariantViolation(DuplicateMappingKey(e.outputName, e.mappingKey)))
  {
    SummarySnoc(prior, e);
    match e
    case Output(n, _) =>
      if n in SeenNames(prior) {
        var j :| 0 <= j < |prior| && prior[j].IsOutput() && prior[j].outputName == n;
      }
    case DynamicOutput(n, k, _) =>
      if (n, k) in SeenKeys(prior) {
        var j :| 0 <= j < |prior| && prior[j].DynamicOutput? && (prior[j].outputName, prior[j].mappingKey) == (n, k);
      }
    case _ =>
  }

  /** One accepted event: the gate yields it and carries on from the
      summary of the extended history. */
  lemma GateStepsOnAcceptable(step: Step, prior: seq<UserEvent>, rest: seq<UserEvent>, stop: Option<StepError>)
    requires |rest| > 0 && Acceptable(step.outputs, prior, rest[0])
    ensures GateFrom(step, Summary(prior), rest, stop) ==
              Then(Emit([rest[0]]), GateFrom(step, Summary(prior + [rest[0]]), rest[1..], stop))
    ensures AcceptedLength(step.outputs, prior, rest) == AcceptedLength(step.outputs, prior + [rest[0]], rest[1..]) + 1
  {
    AdmitAgreesWithReference(step, prior, rest[0]);
  }

  /** The part of `GateCharacterised` about the accepted prefix. */
  predicate PrefixCharacterised(step: Step, prior: seq<UserEvent>, rest: seq<UserEvent>, stop: Option<StepError>) {
    var r := GateFrom(step, Summary(prior), rest, stop);
    var k := AcceptedLength(step.outputs, prior, rest);
    && k <= |r.events|
    && r.events[..k] == rest[..k]
    && (k < |rest| ==> |r.events| == k && r.error.Some? && r.error.value.InvariantViolation?)
  }

  /** The part of `GateCharacterised` about a fully accepted sequence. */
  predicate CompletionCharacterised(step: Step, prior: seq<UserEvent>, rest: seq<UserEvent>, stop: Option<StepError>) {
    AcceptedLength(step.outputs, prior, rest) == |rest| ==>
      GateFrom(step, Summary(prior), rest, stop) == Then(Emit(rest), PostPass(step, SeenNames(prior + rest), stop))
  }

  /** The gate, run from the summary of `prior`, lets through exactly the
      acceptable prefix of `rest`, unchanged; at the first event that is not
      acceptable it raises an invariant violation and yields nothing more;
      if every event is acceptable it ends with the post-pass over the names
      of all outputs yielded. */
  lemma {:induction false} GateCharacterised(step: Step, prior: seq<UserEvent>, rest: seq<UserEvent>, stop: Option<StepError>)
    ensures var r := GateFrom(step, Summary(prior), rest, stop);
            var k := AcceptedLength(step.outputs, prior, rest);
            && k <= |r.events|
            && r.events[..k] == rest[..k]
            && (k < |rest| ==> |r.events| == k && r.error.Some? && r.error.value.InvariantViolation?)
            && (k == |rest| ==> r == Then(Emit(rest), PostPass(step, SeenNames(prior + rest), stop)))
    decreases |rest|
  {
    if |rest| == 0 {
      assert prior + rest == prior;
    } else if Acceptable(step.outputs, prior, rest[0]) {
      GateCharacterised(step, prior + [rest[0]], rest[1..], stop);
      GateStepsOnAcceptable(step, prior, rest, stop);
      PrefixStep(step, prior, rest, stop);
      CompletionStep(step, prior, rest, stop);
    } else {
      AdmitAgreesWithReference(step, prior, rest[0]);
      assert prior + rest[..0] == prior;
    }
  }

  /** An acceptable first event extends the accepted prefix of the rest by one. */
  lemma PrefixStep(step: Step, prior: seq<UserEvent>, rest: seq<UserEvent>, stop: Option<StepError>)
    requires |rest| > 0
    requires GateFrom(step, Summary(prior), rest, stop) ==
               Then(Emit([rest[0]]), GateFrom(step, Summary(prior + [rest[0]]), rest[1..], stop))
    requires AcceptedLength(step.outputs, prior, rest) == AcceptedLength(step.outputs, prior + [rest[0]], rest[1..]) + 1
    requires PrefixCharacterised(step, prior + [rest[0]], rest[1..], stop)
    ensures PrefixCharacterised(step, prior, rest, stop)
  {
  }

  /** An acceptable first event followed by a fully accepted rest ends with
      the same post-pass. */
  lemma CompletionStep(step: Step, prior: seq<UserEvent>, rest: seq<UserEvent>, stop: Option<StepError>)
    requires |rest| > 0
    requires GateFrom(step, Summary(prior), rest, stop) ==
               Then(Emit([rest[0]]), GateFrom(step, Summary(prior + [rest[0]]), rest[1..], stop))
    requires AcceptedLength(step.outputs, prior, rest) == AcceptedLength(step.outputs, prior + [rest[0]], rest[1..]) + 1
    requires CompletionCharacterised(step, prior + [rest[0]], rest[1..], stop)
    ensures CompletionCharacterised(step, prior, rest, stop)
  {
    if AcceptedLength(step.outputs, prior, rest) == |rest| {
      SplitFirst(prior, rest);
      EmitCons(rest[0], rest[1..], PostPass(step, SeenNames(prior + rest), stop));
    }
  }

  lemma SplitFirst(prior: seq<UserEvent>, rest: seq<UserEvent>)
    requires |rest| > 0
    ensures (prior + [rest[0]]) + rest[1..] == prior + rest
    ensures rest == [rest[0]] + rest[1..]
    ensures forall k :: 0 < k <= |rest| ==> rest[..k] == [rest[0]] + rest[1..][..k - 1]
  {
  }

  // ---------------------------------------------------------------------
  // Consequences for a whole run of the gate

  /** An output the post-pass adds: a declared output, without a value. */
  predicate IsImplicitOutput(step: Step, e: UserEvent) {
    e.Output? && e.value == NoValue && OutputNamed(step.outputs, e.outputName).Some?
  }

  /** Every event the gate lets through is the compute function's event,
      unchanged and in its original position, and anything after them is
      an implicit output of a declared output; if the gate stops early it
      raises. */
  lemma {:induction false} GatePassesEventsThrough(step: Step, events: seq<UserEvent>, stop: Option<StepError>)
    ensures var r := Gate(step, events, stop);
            var k := AcceptedLength(step.outputs, [], events);
            && k <= |r.events|
            && r.events[..k] == events[..k]
            && (forall i :: k <= i < |r.events| ==> IsImplicitOutput(step, r.events[i]))
            && (k < |events| ==> r.error.Some? && r.error.value.InvariantViolation?)
  {
    SummaryOfEmpty();
    GateCharacterised(step, [], events, stop);
    if AcceptedLength(step.outputs, [], events) == |events| {
      assert [] + events == events;
      PostPassIsImplicit(step, SeenNames(events), stop);
      EventsThenImplicit(step, events, PostPass(step, SeenNames(events), stop));
    }
  }

  lemma EventsThenImplicit(step: Step, events: seq<UserEvent>, post: Trace<UserEvent>)
    requires forall i :: 0 <= i < |post.events| ==> IsImplicitOutput(step, post.events[i])
    ensures var r := Then(Emit(events), post);
            && r.events[..|events|] == events
            && forall i :: |events| <= i < |r.events| ==> IsImplicitOutput(step, r.events[i])
  {
    var r := Then(Emit(events), post);
    forall i | |events| <= i < |r.events| ensures IsImplicitOutput(step, r.events[i]) {
      assert r.events[i] == post.events[i - |events|];
    }
  }

  /** The post-pass yields only implicit outputs of declared outputs, each
      without a value. */
  lemma PostPassIsImplicit(step: Step, seen: set<string>, stop: Option<StepError>)
    ensures forall i :: 0 <= i < |PostPass(step, seen, stop).events| ==> IsImplicitOutput(step, PostPass(step, seen, stop).events[i])
  {
  }

  /** Among accepted events, every output names a declared output, is
      dynamic exactly when its definition is, a static output's name occurs
      on no other output, and two dynamic outputs of one name never share a
      mapping key. */
  lemma {:induction false} AcceptedOutputsWellFormed(outputs: seq<StepOutput>, events: seq<UserEvent>)
    requires forall i :: 0 <= i < |events| ==> Acceptable(outputs, [] + events[..i], events[i])
    ensures forall i :: 0 <= i < |events| && events[i].IsOutput() ==>
              OutputNamed(outputs, events[i].outputName).Some? &&
              (events[i].DynamicOutput? <==> OutputNamed(outputs, events[i].outputName).value.isDynamic)
    ensures forall i, j :: (0 <= i < j < |events| && events[i].IsOutput() && events[j].IsOutput() &&
              events[i].outputName == events[j].outputName) ==>
              events[i].DynamicOutput? && events[j].DynamicOutput? && events[i].mappingKey != events[j].mappingKey
  {
    forall i | 0 <= i < |events| && events[i].IsOutput()
      ensures OutputNamed(outputs, events[i].outputName).Some? &&
              (events[i].DynamicOutput? <==> OutputNamed(outputs, events[i].outputName).value.isDynamic)
    {
      assert Acceptable(outputs, [] + events[..i], events[i]);
    }
    forall i, j | 0 <= i < j < |events| && events[i].IsOutput() && events[j].IsOutput() &&
                  events[i].outputName == events[j].outputName
      ensures events[i].DynamicOutput? && events[j].DynamicOutput? && events[i].mappingKey != events[j].mappingKey
    {
      var prior := [] + events[..j];
      assert Acceptable(outputs, prior, events[j]);
      assert prior[i] == events[i];
      assert Acceptable(outputs, [] + events[..i], events[i]);
    }
  }

  /** The outputs the gate lets through obey the emission rules. */
  lemma GateOutputsWellFormed(step: Step, events: seq<UserEvent>, stop: Option<StepError>)
    ensures var r := Gate(step, events, stop);
            var k := AcceptedLength(step.outputs, [], events);
            && k <= |r.events|
            && r.events[..k] == events[..k]
            && (forall i :: 0 <= i < k && events[i].IsOutput() ==>
                  OutputNamed(step.outputs, events[i].outputName).Some? &&
                  (events[i].DynamicOutput? <==> OutputNamed(step.outputs, events[i].outputName).value.isDynamic))
            && (forall i, j :: (0 <= i < j < k && events[i].IsOutput() && events[j].IsOutput() &&
                  events[i].outputName == events[j].outputName) ==>
                  events[i].DynamicOutput? && events[j].DynamicOutput? && events[i].mappingKey != events[j].mappingKey)
  {
    GatePassesEventsThrough(step, events, stop);
    var k := AcceptedLength(step.outputs, [], events);
    var accepted := events[..k];
    assert forall i :: 0 <= i < k ==> accepted[..i] == events[..i] && accepted[i] == events[i];
    AcceptedOutputsWellFormed(step.outputs, accepted);
  }

  /** Every output the gate yields, let through or implicit, names a
      declared output. */
  lemma GateYieldsDeclaredOutputs(step: Step, events: seq<UserEvent>, stop: Option<StepError>)
    ensures var r := Gate(step, events, stop);
            forall i :: 0 <= i < |r.events| && r.events[i].IsOutput() ==>
              OutputNamed(step.outputs, r.events[i].outputName).Some?
  {
    GatePassesEventsThrough(step, events, stop);
    var r := Gate(step, events, stop);
    var k := AcceptedLength(step.outputs, [], events);
    forall i | 0 <= i < k && r.events[i].IsOutput()
      ensures OutputNamed(step.outputs, r.events[i].outputName).Some?
    {
      assert r.events[i] == r.events[..k][i] == events[i];
      assert Acceptable(step.outputs, [] + events[..i], events[i]);
    }
  }

  /** With distinct output names, every required `Nothing` output that was
      never yielded is emitted implicitly exactly once when the post-pass
      completes. */
  lemma {:induction false} ImplicitOutputExactlyOnce(step: Step, outputs: seq<StepOutput>, seen: set<string>, i: nat)
    requires forall a, b :: 0 <= a < b < |outputs| ==> outputs[a].name != outputs[b].name
    requires i < |outputs| && MissingNothing(outputs[i], seen)
    requires Finish(step, outputs, seen).error.None?
    ensures multiset(Finish(step, outputs, seen).events)[Output(outputs[i].name, NoValue)] == 1
    decreases |outputs|
  {
    var rest := Finish(step, outputs[1..], seen);
    var target := Output(outputs[i].name, NoValue);
    if i == 0 {
      assert Complete(step, outputs[0], seen) == Implicit(target);
      assert Finish(step, outputs, seen).events == [target] + rest.events;
    } else {
      assert outputs[1..][i - 1] == outputs[i];
      ImplicitOutputExactlyOnce(step, outputs[1..], seen, i - 1);
      match Complete(step, outputs[0], seen)
      case Skip =>
      case Implicit(e) =>
        assert e.outputName == outputs[0].name != outputs[i].name;
        assert Finish(step, outputs, seen).events == [e] + rest.events;
      case NotFound(err) =>
    }
  }

  /** With distinct output names, an optional output the compute function
      never yielded produces no event and is named by no error. */
  lemma OptionalOutputIsSilent(step: Step, outputs: seq<StepOutput>, seen: set<string>, i: nat)
    requires forall a, b :: 0 <= a < b < |outputs| ==> outputs[a].name != outputs[b].name
    requires i < |outputs| && outputs[i].optional
    ensures forall e :: e in Finish(step, outputs, seen).events ==> e.outputName != outputs[i].name
    ensures Finish(step, outputs, seen).error != Some(StepOutputNotFound(step.key, outputs[i].name))
  {
  }
}
