/** Input resolution: load every input that carries a value, unwrap store
    records into the values they hold while emitting one store event per
    record, then type-check the resolved values. */
module Inputs {
  import opened Model
  import opened Boundaries

  predicate IsStoreItem(item: FanInItem) {
    !item.InnerValue?
  }

  /** The value a fan-in element contributes: the object a store record
      wraps, or the element itself. */
  function ItemValue(item: FanInItem): Value {
    match item
    case InnerValue(v) => v
    case InnerObjectStore(op) => op.obj
    case InnerAssetStore(op) => op.obj
  }

  /** The number of store records among fan-in elements. */
  function StoreItemCount(items: seq<FanInItem>): nat {
    if |items| == 0 then 0
    else (if IsStoreItem(items[0]) then 1 else 0) + StoreItemCount(items[1..])
  }

  datatype Unwrapped = Unwrapped(events: seq<DagsterEvent>, value: Value)

  /** The store event a fan-in element contributes: none for a plain value,
      one labelled with the input for an object-store record, one for an
      asset-store record. */
  function ItemEvents(name: string, item: FanInItem): (r: seq<DagsterEvent>)
    ensures |r| == (if IsStoreItem(item) then 1 else 0)
  {
    match item
    case InnerValue(_) => []
    case InnerObjectStore(op) => [ObjectStoreEventFor(name, op)]
    case InnerAssetStore(op) => [AssetStoreEventFor(op)]
  }

  /** The elements of a fan-in input, unwrapped one by one: the events are
      each element's store event in element order. */
  function UnwrapFanIn(name: string, items: seq<FanInItem>): (r: (seq<DagsterEvent>, seq<Value>))
    ensures |r.1| == |items|
    ensures forall i :: 0 <= i < |items| ==> r.1[i] == ItemValue(items[i])
    ensures r.0 == Flatten(seq(|items|, i requires 0 <= i < |items| => ItemEvents(name, items[i])))
    ensures |r.0| == StoreItemCount(items)
    ensures forall e :: e in r.0 ==> e.IsStoreEvent()
    ensures forall e :: e in r.0 && e.ObjectStoreEvent? ==> e.valueName == name
  {
    if |items| == 0 then ([], [])
    else
      var rest := UnwrapFanIn(name, items[1..]);
      var each := seq(|items|, i requires 0 <= i < |items| => ItemEvents(name, items[i]));
      assert each[1..] == seq(|items| - 1, i requires 0 <= i < |items| - 1 => ItemEvents(name, items[1..][i]));
      (ItemEvents(name, items[0]) + rest.0, [ItemValue(items[0])] + rest.1)
  }

  /** What one loaded input object contributes: its store events and the
      plain value the compute function receives. */
  function Unwrap(name: string, obj: InputObject): (r: Unwrapped)
    ensures obj.PlainValue? ==> r == Unwrapped([], obj.value)
    ensures obj.ObjectStoreResult? ==> r == Unwrapped([ObjectStoreEventFor(name, obj.objectOp)], obj.objectOp.obj)
    ensures obj.AssetStoreResult? ==> r == Unwrapped([AssetStoreEventFor(obj.assetOp)], obj.assetOp.obj)
    ensures obj.FanIn? ==>
              && r.value.Many?
              && |r.value.items| == |obj.items|
              && (forall i :: 0 <= i < |obj.items| ==> r.value.items[i] == ItemValue(obj.items[i]))
              && r.events == Flatten(seq(|obj.items|, i requires 0 <= i < |obj.items| => ItemEvents(name, obj.items[i])))
              && |r.events| == StoreItemCount(obj.items)
    ensures forall e :: e in r.events ==> e.IsStoreEvent()
  {
    match obj
    case PlainValue(v) => Unwrapped([], v)
    case ObjectStoreResult(op) => Unwrapped([ObjectStoreEventFor(name, op)], op.obj)
    case AssetStoreResult(op) => Unwrapped([AssetStoreEventFor(op)], op.obj)
    case FanIn(items) =>
      var u := UnwrapFanIn(name, items);
      Unwrapped(u.0, Many(u.1))
  }

  /** One entry of the resolved-inputs dictionary. */
  datatype Resolved = Resolved(input: StepInput, value: Value)

  /** The loading loop: the store events emitted so far, the inputs resolved
      so far, and the error that stopped loading, if any. */
  datatype Loading = Loading(events: seq<DagsterEvent>, resolved: seq<Resolved>, error: Option<StepError>)

  /** Whether `input` was resolved to the value its loaded object unwraps to. */
  predicate ResolvedFromSource(ctx: StepContext, r: Resolved) {
    && ctx.calls.loadInput(r.input).Returned?
    && r.value == Unwrap(r.input.name, ctx.calls.loadInput(r.input).value).value
  }

  /** Whether loading `input` raises; an input of type `Nothing` is never loaded. */
  predicate LoadRaises(ctx: StepContext, input: StepInput) {
    !IsNothing(input.dagsterType) && ctx.calls.loadInput(input).Raised?
  }

  /** The position of the first input whose source raises, or the number of
      inputs when none does. */
  function FirstLoadFailure(ctx: StepContext, inputs: seq<StepInput>): (k: nat)
    ensures k <= |inputs|
    ensures forall i :: 0 <= i < k ==> !LoadRaises(ctx, inputs[i])
    ensures k < |inputs| ==> LoadRaises(ctx, inputs[k])
  {
    if |inputs| == 0 || LoadRaises(ctx, inputs[0]) then 0
    else
      var k := 1 + FirstLoadFailure(ctx, inputs[1..]);
      assert forall i :: 1 <= i < |inputs| ==> inputs[i] == inputs[1..][i - 1];
      k
  }

  /** The store events of loading one input, when its source returns. */
  function SourceEvents(ctx: StepContext, input: StepInput): seq<DagsterEvent> {
    match ctx.calls.loadInput(input)
    case Returned(obj) => Unwrap(input.name, obj).events
    case Raised(_) => []
  }

  function LoadInputs(ctx: StepContext, inputs: seq<StepInput>): (r: Loading)
    ensures forall e :: e in r.events ==> e.IsStoreEvent()
    ensures (forall i :: 0 <= i < |inputs| ==> !LoadRaises(ctx, inputs[i])) ==> r.error.None?
    ensures r.error.Some? ==>
              || r.error.value.ControlFlowPassed?
              || (r.error.value.UserCodeError? && r.error.value.boundary.LoadInputBoundary?)
    decreases |inputs|
  {
    if |inputs| == 0 then Loading([], [], None)
    else if IsNothing(inputs[0].dagsterType) then LoadInputs(ctx, inputs[1..])
    else
      match Guard(LoadInputBoundary(ctx.step.key, inputs[0].name), ctx.calls.loadInput(inputs[0]))
      case Err(e) => Loading([], [], Some(e))
      case Ok(obj) =>
        var u := Unwrap(inputs[0].name, obj);
        var rest := LoadInputs(ctx, inputs[1..]);
        Loading(u.events + rest.events, [Resolved(inputs[0], u.value)] + rest.resolved, rest.error)
  }

  /** How one loading step extends what the rest of the inputs load. */
  lemma LoadInputsStep(ctx: StepContext, inputs: seq<StepInput>)
    requires |inputs| > 0 && !IsNothing(inputs[0].dagsterType) && ctx.calls.loadInput(inputs[0]).Returned?
    ensures var rest := LoadInputs(ctx, inputs[1..]);
            var u := Unwrap(inputs[0].name, ctx.calls.loadInput(inputs[0]).value);
            LoadInputs(ctx, inputs) == Loading(u.events + rest.events, [Resolved(inputs[0], u.value)] + rest.resolved, rest.error)
  {
  }

  /** Loading skips every `Nothing` input and resolves every other input it
      reaches to the value its source's object unwraps to. */
  lemma {:induction false} LoadInputsResolves(ctx: StepContext, inputs: seq<StepInput>)
    ensures var r := LoadInputs(ctx, inputs);
            forall j :: 0 <= j < |r.resolved| ==>
              && !IsNothing(r.resolved[j].input.dagsterType)
              && ResolvedFromSource(ctx, r.resolved[j])
              && exists i :: 0 <= i < |inputs| && inputs[i] == r.resolved[j].input
    decreases |inputs|
  {
    if |inputs| > 0 {
      var r := LoadInputs(ctx, inputs);
      var rest := LoadInputs(ctx, inputs[1..]);
      LoadInputsResolves(ctx, inputs[1..]);
      if !IsNothing(inputs[0].dagsterType) && ctx.calls.loadInput(inputs[0]).Returned? {
        LoadInputsStep(ctx, inputs);
        forall j | 0 <= j < |r.resolved|
          ensures !IsNothing(r.resolved[j].input.dagsterType) && ResolvedFromSource(ctx, r.resolved[j])
          ensures exists i :: 0 <= i < |inputs| && inputs[i] == r.resolved[j].input
        {
          if j == 0 {
            assert inputs[0] == r.resolved[j].input;
          } else {
            assert r.resolved[j] == rest.resolved[j - 1];
            var i :| 0 <= i < |inputs[1..]| && inputs[1..][i] == rest.resolved[j - 1].input;
            assert inputs[i + 1] == r.resolved[j].input;
          }
        }
      }
    }
  }

  /** When loading completes it has resolved every input that carries a value. */
  lemma {:induction false} LoadInputsComplete(ctx: StepContext, inputs: seq<StepInput>)
    ensures var r := LoadInputs(ctx, inputs);
            r.error.None? ==>
              forall i :: 0 <= i < |inputs| && !IsNothing(inputs[i].dagsterType) ==>
                exists j :: 0 <= j < |r.resolved| && r.resolved[j].input == inputs[i]
    decreases |inputs|
  {
    if |inputs| > 0 {
      var r := LoadInputs(ctx, inputs);
      var rest := LoadInputs(ctx, inputs[1..]);
      LoadInputsComplete(ctx, inputs[1..]);
      if r.error.None? {
        forall i | 0 <= i < |inputs| && !IsNothing(inputs[i].dagsterType)
          ensures exists j :: 0 <= j < |r.resolved| && r.resolved[j].input == inputs[i]
        {
          if i == 0 {
            LoadInputsStep(ctx, inputs);
            assert r.resolved[0].input == inputs[0];
          } else {
            assert inputs[i] == inputs[1..][i - 1];
            var j :| 0 <= j < |rest.resolved| && rest.resolved[j].input == inputs[1..][i - 1];
            if !IsNothing(inputs[0].dagsterType) {
              LoadInputsStep(ctx, inputs);
              assert r.resolved[j + 1].input == inputs[i];
            } else {
              assert r == rest;
            }
          }
        }
      }
    }
  }

  /** The inputs that carry a value, in declaration order. */
  function ValueInputs(inputs: seq<StepInput>): (r: seq<StepInput>)
    ensures forall x :: x in r ==> x in inputs && !IsNothing(x.dagsterType)
    ensures forall x :: x in inputs && !IsNothing(x.dagsterType) ==> x in r
  {
    if |inputs| == 0 then []
    else (if IsNothing(inputs[0].dagsterType) then [] else [inputs[0]]) + ValueInputs(inputs[1..])
  }

  /** A `Nothing` input is never loaded and leaves no trace: loading all
      inputs gives the same events, values and error as loading only those
      that carry a value. */
  lemma {:induction false} NothingInputsAreSkipped(ctx: StepContext, inputs: seq<StepInput>)
    ensures LoadInputs(ctx, inputs) == LoadInputs(ctx, ValueInputs(inputs))
    decreases |inputs|
  {
    if |inputs| > 0 {
      NothingInputsAreSkipped(ctx, inputs[1..]);
      var v := ValueInputs(inputs);
      if IsNothing(inputs[0].dagsterType) {
        assert v == ValueInputs(inputs[1..]);
      } else {
        assert v[0] == inputs[0] && v[1..] == ValueInputs(inputs[1..]);
      }
    }
  }

  /** The inputs before position `k` that carry a value, taken apart at the first. */
  lemma ValueInputsPrefix(inputs: seq<StepInput>, k: nat)
    requires 0 < k <= |inputs|
    ensures ValueInputs(inputs[..k]) ==
              (if IsNothing(inputs[0].dagsterType) then [] else [inputs[0]]) + ValueInputs(inputs[1..][..k - 1])
  {
    assert inputs[..k][0] == inputs[0] && inputs[..k][1..] == inputs[1..][..k - 1];
  }

  /** Loading stops at the first input whose source raises, with that raise
      under the input's load boundary as its error; it completes exactly
      when no source raises. */
  lemma {:induction false} LoadFailsAtFirstRaise(ctx: StepContext, inputs: seq<StepInput>)
    ensures var r := LoadInputs(ctx, inputs);
            var k := FirstLoadFailure(ctx, inputs);
            && (r.error.None? <==> k == |inputs|)
            && (k < |inputs| ==>
                  r.error == Some(Wrap(LoadInputBoundary(ctx.step.key, inputs[k].name), ctx.calls.loadInput(inputs[k]).exc)))
    decreases |inputs|
  {
    if |inputs| > 0 && !LoadRaises(ctx, inputs[0]) {
      LoadFailsAtFirstRaise(ctx, inputs[1..]);
      if !IsNothing(inputs[0].dagsterType) {
        LoadInputsStep(ctx, inputs);
      }
    }
  }

  /** The resolved entries are exactly the inputs before the first raising
      source that carry a value, in declaration order, each holding what its
      source's object unwraps to: no later input is loaded. */
  lemma {:induction false} LoadResolvesPrefix(ctx: StepContext, inputs: seq<StepInput>)
    ensures var r := LoadInputs(ctx, inputs);
            var loaded := ValueInputs(inputs[..FirstLoadFailure(ctx, inputs)]);
            && |r.resolved| == |loaded|
            && forall j :: 0 <= j < |loaded| ==> r.resolved[j].input == loaded[j] && ResolvedFromSource(ctx, r.resolved[j])
    decreases |inputs|
  {
    if |inputs| > 0 && !LoadRaises(ctx, inputs[0]) {
      var k := FirstLoadFailure(ctx, inputs);
      LoadResolvesPrefix(ctx, inputs[1..]);
      ValueInputsPrefix(inputs, k);
      if !IsNothing(inputs[0].dagsterType) {
        LoadInputsStep(ctx, inputs);
      }
    }
  }

  /** The store events of loading each of `vs`, input after input. */
  function EventsOfSources(ctx: StepContext, vs: seq<StepInput>): seq<DagsterEvent> {
    Flatten(seq(|vs|, j requires 0 <= j < |vs| => SourceEvents(ctx, vs[j])))
  }

  lemma EventsOfSourcesCons(ctx: StepContext, x: StepInput, vs: seq<StepInput>)
    ensures EventsOfSources(ctx, [x] + vs) == SourceEvents(ctx, x) + EventsOfSources(ctx, vs)
  {
    var xs := [x] + vs;
    var each := seq(|xs|, j requires 0 <= j < |xs| => SourceEvents(ctx, xs[j]));
    assert each[1..] == seq(|vs|, j requires 0 <= j < |vs| => SourceEvents(ctx, vs[j]));
  }

  /** The loading events are the store events of the inputs before the
      first raising source that carry a value, input after input. */
  lemma {:induction false} LoadEventsOfPrefix(ctx: StepContext, inputs: seq<StepInput>)
    ensures LoadInputs(ctx, inputs).events == EventsOfSources(ctx, ValueInputs(inputs[..FirstLoadFailure(ctx, inputs)]))
    decreases |inputs|
  {
    if |inputs| > 0 && !LoadRaises(ctx, inputs[0]) {
      var k := FirstLoadFailure(ctx, inputs);
      assert k == 1 + FirstLoadFailure(ctx, inputs[1..]);
      var later := ValueInputs(inputs[1..][..k - 1]);
      LoadEventsOfPrefix(ctx, inputs[1..]);
      ValueInputsPrefix(inputs, k);
      if IsNothing(inputs[0].dagsterType) {
        assert LoadInputs(ctx, inputs) == LoadInputs(ctx, inputs[1..]);
        assert ValueInputs(inputs[..k]) == later;
      } else {
        LoadInputsStep(ctx, inputs);
        assert ValueInputs(inputs[..k]) == [inputs[0]] + later;
        EventsOfSourcesCons(ctx, inputs[0], later);
      }
    }
  }

  /** The type checks of the resolved inputs, in resolution order. */
  function TypeCheckInputs(ctx: StepContext, resolved: seq<Resolved>): (r: Trace<DagsterEvent>)
    ensures |r.events| <= |resolved|
    ensures forall i :: 0 <= i < |r.events| ==>
              r.events[i].StepInputEvent? && r.events[i].inputName == resolved[i].input.name
    ensures r.error.None? ==>
              |r.events| == |resolved| && forall i :: 0 <= i < |r.events| ==> r.events[i].typeCheck.success
  {
    if |resolved| == 0 then Emit([])
    else
      var first := InputTypeCheckEvents(ctx, resolved[0].input, resolved[0].value);
      var rest := TypeCheckInputs(ctx, resolved[1..]);
      var r := Then(first, rest);
      assert first.error.None? ==> r.events == first.events + rest.events && |first.events| == 1;
      r
  }

  /** Whether the validator of the input's type returned a passing check. */
  predicate InputCheckPasses(ctx: StepContext, r: Resolved) {
    var c := DoTypeCheck(ctx.calls, r.input.dagsterType, r.value);
    c.Returned? && c.value.success
  }

  /** The position of the first resolved input whose check does not pass,
      or the number of resolved inputs when every check passes. */
  function FirstFailingCheck(ctx: StepContext, resolved: seq<Resolved>): (k: nat)
    ensures k <= |resolved|
    ensures forall i :: 0 <= i < k ==> InputCheckPasses(ctx, resolved[i])
    ensures k < |resolved| ==> !InputCheckPasses(ctx, resolved[k])
  {
    if |resolved| == 0 || !InputCheckPasses(ctx, resolved[0]) then 0
    else
      var k := 1 + FirstFailingCheck(ctx, resolved[1..]);
      assert forall i :: 1 <= i < |resolved| ==> resolved[i] == resolved[1..][i - 1];
      k
  }

  /** The type checks run input after input until the first that does not
      pass: the phase completes exactly when every check passes; each event
      reports its input's verdict; a failing input ends the phase with its
      own error, after its event when its validator returned. */
  lemma {:induction false} TypeChecksStopAtFirstFailure(ctx: StepContext, resolved: seq<Resolved>)
    ensures var r := TypeCheckInputs(ctx, resolved);
            var k := FirstFailingCheck(ctx, resolved);
            && (r.error.None? <==> k == |resolved|)
            && (forall i :: 0 <= i < |r.events| ==>
                  var c := DoTypeCheck(ctx.calls, resolved[i].input.dagsterType, resolved[i].value);
                  c.Returned? && r.events[i] == StepInputEvent(resolved[i].input.name, CheckData(resolved[i].input.name, c.value)))
            && (k < |resolved| ==>
                  && r.error == InputTypeCheckEvents(ctx, resolved[k].input, resolved[k].value).error
                  && |r.events| == k + (if DoTypeCheck(ctx.calls, resolved[k].input.dagsterType, resolved[k].value).Returned? then 1 else 0))
    decreases |resolved|
  {
    if |resolved| > 0 {
      var first := InputTypeCheckEvents(ctx, resolved[0].input, resolved[0].value);
      var rest := TypeCheckInputs(ctx, resolved[1..]);
      var r := TypeCheckInputs(ctx, resolved);
      TypeChecksStopAtFirstFailure(ctx, resolved[1..]);
      assert r == Then(first, rest);
      if InputCheckPasses(ctx, resolved[0]) {
        assert r.events == first.events + rest.events;
        assert forall i :: 1 <= i < |r.events| ==> r.events[i] == rest.events[i - 1] && resolved[i] == resolved[1..][i - 1];
      }
    }
  }

  /** The dictionary handed to the compute function; a later entry for the
      same name overwrites an earlier one. */
  function InputsMap(resolved: seq<Resolved>): (m: map<string, Value>)
    ensures forall i :: 0 <= i < |resolved| ==> resolved[i].input.name in m
    ensures forall n :: n in m ==> exists i :: 0 <= i < |resolved| && resolved[i].input.name == n && m[n] == resolved[i].value
  {
    if |resolved| == 0 then map[]
    else
      var last := resolved[|resolved| - 1];
      InputsMap(resolved[..|resolved| - 1])[last.input.name := last.value]
  }

  /** No later resolved entry has the name of entry `i`. */
  predicate LastOfItsName(resolved: seq<Resolved>, i: nat)
    requires i < |resolved|
  {
    forall j :: i < j < |resolved| ==> resolved[j].input.name != resolved[i].input.name
  }

  /** A name maps to the value of the last resolved entry with that name;
      with distinct names, to each entry's own value. */
  lemma {:induction false} InputsMapKeepsLastEntry(resolved: seq<Resolved>, i: nat)
    requires i < |resolved| && LastOfItsName(resolved, i)
    ensures InputsMap(resolved)[resolved[i].input.name] == resolved[i].value
    decreases |resolved|
  {
    var n := |resolved| - 1;
    var prefix := resolved[..n];
    assert InputsMap(resolved) == InputsMap(prefix)[resolved[n].input.name := resolved[n].value];
    if i < n {
      assert prefix[i] == resolved[i];
      assert LastOfItsName(prefix, i) by {
        forall j | i < j < n ensures prefix[j].input.name != prefix[i].input.name {
          assert prefix[j] == resolved[j];
        }
      }
      InputsMapKeepsLastEntry(prefix, i);
      var m := InputsMap(prefix);
      var key := resolved[i].input.name;
      assert resolved[n].input.name != key;
      assert m[key] == resolved[i].value;
      assert m[resolved[n].input.name := resolved[n].value][key] == m[key];
    } else {
      assert i == n;
    }
  }

  datatype InputPhase = InputPhase(trace: Trace<DagsterEvent>, resolved: seq<Resolved>)

  /** Loading and unwrapping every input, then type-checking the values. */
  function ResolveInputs(ctx: StepContext): (r: InputPhase)
    ensures forall e :: e in r.trace.events ==> e.IsStoreEvent() || e.StepInputEvent?
    ensures var load := LoadInputs(ctx, ctx.step.inputs);
            && r.resolved == load.resolved
            && |load.events| <= |r.trace.events| && r.trace.events[..|load.events|] == load.events
            && (load.error.Some? ==> r.trace == Trace(load.events, load.error))
            && (load.error.None? ==>
                  var checks := TypeCheckInputs(ctx, load.resolved);
                  r.trace.events[|load.events|..] == checks.events && r.trace.error == checks.error)
  {
    var load := LoadInputs(ctx, ctx.step.inputs);
    if load.error.Some? then InputPhase(Trace(load.events, load.error), load.resolved)
    else
      var checks := TypeCheckInputs(ctx, load.resolved);
      var r := InputPhase(Then(Emit(load.events), checks), load.resolved);
      assert forall e :: e in checks.events ==> e.StepInputEvent? by {
        forall e | e in checks.events ensures e.StepInputEvent? {
          var i :| 0 <= i < |checks.events| && checks.events[i] == e;
        }
      }
      r
  }

  /** Every store event of the loading loop comes before every input
      type-check event, and the phase emits nothing else; when it
      completes, there is one passing check per input that carries a value. */
  lemma LoadEventsPrecedeTypeChecks(ctx: StepContext)
    ensures var r := ResolveInputs(ctx);
            var k := |LoadInputs(ctx, ctx.step.inputs).events|;
            && k <= |r.trace.events|
            && (forall i :: 0 <= i < k ==> r.trace.events[i].IsStoreEvent())
            && (forall i :: k <= i < |r.trace.events| ==> r.trace.events[i].StepInputEvent?)
            && (r.trace.error.None? ==>
                  && |r.trace.events| - k == |r.resolved|
                  && forall i :: k <= i < |r.trace.events| ==> r.trace.events[i].typeCheck.success)
  {
  }
}
