/** Data model of one step execution: runtime values, step definitions,
    the results handed back by code outside the core, the user-level events
    a compute function yields, the lifecycle events the step emits, and the
    errors that end a step. */
module Model {

  datatype Option<+T> = None | Some(value: T)

  /** A runtime value. `NoValue` is Python's `None`; `Many` is the list a
      fan-in input resolves to. */
  datatype Value = NoValue | Atom(id: int) | Many(items: seq<Value>)

  datatype MetadataEntry = MetadataEntry(entryLabel: string, text: string)

  /** Only `Nothing` changes behaviour: such inputs are never loaded and such
      outputs are emitted implicitly when the compute function omits them. */
  datatype TypeKind = Any | Scalar | List | Nullable | Nothing

  datatype DagsterType = DagsterType(displayName: string, kind: TypeKind)

  // ---------------------------------------------------------------------
  // What code outside the core hands back

  /** The two exceptions user code raises on purpose to steer control flow. */
  datatype Signal = Failure(description: string) | RetryRequested(secondsToWait: Option<nat>)

  /** Anything a collaborator can raise. */
  datatype Raise = ControlFlow(signal: Signal) | UserException(message: string)

  /** The outcome of one call into code outside the core. */
  datatype Call<T> = Returned(value: T) | Raised(exc: Raise)

  datatype Description =
    | NoDescription
    | Text(text: string)
      /** the description of the failing check made up for a validator that
          returned something other than a `TypeCheck` */
    | MustReturnTypeCheck(typeName: string, returnedType: string)

  datatype TypeCheck = TypeCheck(success: bool, description: Description, metadata: seq<MetadataEntry>)

  /** What a type validator returns: a proper `TypeCheck`, or any other
      Python object (named by its type). */
  datatype CheckReturn = ProperTypeCheck(check: TypeCheck) | OtherReturn(pythonType: string)

  datatype Materialization =
    | AssetMaterialization(assetKey: string, description: string)
    | LegacyMaterialization(legacyLabel: string, description: string)

  /** One item an output manager or a materializer hands back. */
  datatype ReturnedItem = Materialized(materialization: Materialization) | Foreign(pythonType: string)

  datatype ExpectationResult = ExpectationResult(success: bool, expectationLabel: string)

  datatype StepOutputHandle = StepOutputHandle(stepKey: string, outputName: string, mappingKey: Option<string>)

  /** The legacy record of a direct object-store read or write. */
  datatype ObjectStoreOperation = ObjectStoreOperation(opType: string, key: string, obj: Value)

  datatype AssetStoreOpType = SetAsset | GetAsset

  datatype AssetStoreHandle = AssetStoreHandle(managerKey: string, metadata: seq<MetadataEntry>)

  datatype AssetStoreOperation =
    AssetStoreOperation(opType: AssetStoreOpType, handle: StepOutputHandle, assetStore: AssetStoreHandle, obj: Value)

  /** One element of a fan-in input: a plain value or a store record wrapping one. */
  datatype FanInItem =
    | InnerValue(value: Value)
    | InnerObjectStore(objectOp: ObjectStoreOperation)
    | InnerAssetStore(assetOp: AssetStoreOperation)

  /** What an input source loads. */
  datatype InputObject =
    | PlainValue(value: Value)
    | ObjectStoreResult(objectOp: ObjectStoreOperation)
    | AssetStoreResult(assetOp: AssetStoreOperation)
    | FanIn(items: seq<FanInItem>)

  /** What an output manager's `handle_output` returns. A single item is
      iterated as a one-element generator; a generator is iterated item by
      item (a Python list is therefore a single `Foreign` item). */
  datatype ManagerReturn =
    | ReturnedNone
    | ReturnedSingle(item: ReturnedItem)
    | ReturnedGenerator(items: seq<ReturnedItem>)
    | ReturnedObjectStoreOp(objectOp: ObjectStoreOperation)

  datatype MaterializerSpec = MaterializerSpec(config: string)

  // ---------------------------------------------------------------------
  // Step definitions and configuration

  /** The position of a solid in the composition tree. */
  datatype SolidHandle = SolidHandle(name: string, parent: Option<SolidHandle>)

  datatype StepInput = StepInput(name: string, dagsterType: DagsterType)

  datatype StepOutput = StepOutput(
    name: string,
    dagsterType: DagsterType,
    optional: bool,
    isDynamic: bool,
    managerKey: string,
    metadata: seq<MetadataEntry>)

  datatype Step = Step(
    key: string,
    solidHandle: SolidHandle,
    solidDefName: string,
    inputs: seq<StepInput>,
    outputs: seq<StepOutput>)

  /** Each materializer-spec entry of a solid's output config is a list of
      (output name, spec) pairs that is expected to hold exactly one pair. */
  datatype SolidConfig = SolidConfig(typeMaterializerSpecs: seq<seq<(string, MaterializerSpec)>>)

  /** What the compute function yields: finitely many events, then either
      exhaustion or an exception raised while pulling the next one. */
  datatype UserSequence = UserSequence(events: seq<UserEvent>, stop: Option<Raise>)

  /** The code the step calls out to, as total functions of their arguments. */
  datatype Collaborators = Collaborators(
    typeCheck: (DagsterType, Value) -> Call<CheckReturn>,
    materialize: (DagsterType, MaterializerSpec, Value) -> Call<seq<ReturnedItem>>,
    loadInput: StepInput -> Call<InputObject>,
    handleOutput: (string, StepOutputHandle, Value) -> Call<ManagerReturn>,
    compute: map<string, Value> -> Option<UserSequence>)

  /** Everything one execution of a step reads: the step, its collaborators,
      the solid configuration keyed by handle string, and the version table
      consulted when the run is tagged for memoized execution. */
  datatype StepContext = StepContext(
    step: Step,
    calls: Collaborators,
    solidConfigs: map<string, SolidConfig>,
    memoized: bool,
    versions: map<StepOutputHandle, string>)

  // ---------------------------------------------------------------------
  // Events

  /** The events a compute function yields. */
  datatype UserEvent =
    | Output(outputName: string, value: Value)
    | DynamicOutput(outputName: string, mappingKey: string, value: Value)
    | UserMaterialization(materialization: Materialization)
    | UserExpectation(expectation: ExpectationResult)
    | Unrecognized(pythonType: string)
  {
    predicate IsOutput() {
      Output? || DynamicOutput?
    }
  }

  datatype TypeCheckData = TypeCheckData(success: bool, checkLabel: string, description: Description, metadata: seq<MetadataEntry>)

  /** The lifecycle events a step emits, in emission order. */
  datatype DagsterEvent =
    | StepStart
    | StepRestarted(priorAttemptCount: int)
    | ObjectStoreEvent(opType: string, key: string, valueName: string)
    | AssetStoreEvent(assetOpType: AssetStoreOpType, handle: StepOutputHandle, assetStore: AssetStoreHandle)
    | StepInputEvent(inputName: string, typeCheck: TypeCheckData)
    | StepOutputEvent(handle: StepOutputHandle, typeCheck: TypeCheckData, version: Option<string>)
    | StepMaterializationEvent(materialization: Materialization)
    | StepExpectationEvent(expectation: ExpectationResult)
    | StepSuccess(durationMs: nat)
  {
    predicate IsStoreEvent() {
      ObjectStoreEvent? || AssetStoreEvent?
    }

    /** Events emitted between the opening Start/Restarted and the closing Success. */
    predicate IsBodyEvent() {
      !(StepStart? || StepRestarted? || StepSuccess?)
    }
  }

  /** The event for an object-store record: the record without its object,
      labelled with the input or output it belongs to. */
  function ObjectStoreEventFor(valueName: string, op: ObjectStoreOperation): DagsterEvent {
    ObjectStoreEvent(op.opType, op.key, valueName)
  }

  function AssetStoreEventFor(op: AssetStoreOperation): DagsterEvent {
    AssetStoreEvent(op.opType, op.handle, op.assetStore)
  }

  // ---------------------------------------------------------------------
  // Errors

  datatype Violation =
    | UndeclaredOutput(outputName: string, declared: seq<string>)
    | DuplicateOutput(outputName: string)
    | StaticOutputForDynamic(outputName: string)
    | DynamicOutputWithoutDefinition(outputName: string)
    | DuplicateMappingKey(outputName: string, mappingKey: string)
    | ManagerReturnedNonAsset(outputName: string, pythonType: string)
    | MaterializerReturnedNonMaterialization(typeName: string, pythonType: string)

  datatype Subject = InputSubject(inputName: string) | OutputSubject(outputName: string)

  /** The user-code error boundaries of the step, with the context each attaches. */
  datatype Boundary =
    | LoadInputBoundary(stepKey: string, inputName: string)
    | ComputeBoundary(stepKey: string, solidName: string, solidDefName: string)
    | HandleOutputBoundary(stepKey: string, outputName: string)
    | TypeCheckBoundary(stepKey: string, subject: Subject)
    | MaterializationBoundary(stepKey: string, outputName: string)

  /** Failures of the framework's own `check` assertions. */
  datatype CheckReason =
    | UnexpectedUserEvent(pythonType: string)
    | MalformedMaterializerSpec(size: nat)
    | UnknownStepOutput(outputName: string)

  datatype StepError =
    | InvariantViolation(violation: Violation)
    | StepOutputNotFound(stepKey: string, outputName: string)
    | TypeCheckDidNotPass(subject: Subject, typeName: string, metadata: seq<MetadataEntry>)
      /** an exception raised by user code, wrapped with its boundary's context */
    | UserCodeError(boundary: Boundary, cause: Raise)
      /** a control-flow signal that reached the caller unwrapped */
    | ControlFlowPassed(signal: Signal)
    | CheckFailed(reason: CheckReason)

  datatype Result<T> = Ok(value: T) | Err(error: StepError)

  /** What a generator produced: the events it yielded and, if it did not run
      to exhaustion, the error it raised after them. */
  datatype Trace<E> = Trace(events: seq<E>, error: Option<StepError>)

  function Emit<E>(events: seq<E>): Trace<E> {
    Trace(events, None)
  }

  function Fail<E>(error: StepError): Trace<E> {
    Trace([], Some(error))
  }

  /** Runs `b` after `a` as a generator that delegates to both in turn: once
      `a` raises, `b` never starts. */
  function Then<E>(a: Trace<E>, b: Trace<E>): Trace<E> {
    if a.error.Some? then a else Trace(a.events + b.events, b.error)
  }

  /** Yielding one event and then some more is yielding them all at once. */
  lemma EmitCons<E>(a: E, rest: seq<E>, t: Trace<E>)
    ensures Then(Emit([a]), Then(Emit(rest), t)) == Then(Emit([a] + rest), t)
  {
    if t.error.None? {
      assert [a] + (rest + t.events) == ([a] + rest) + t.events;
    }
  }

  /** The sequences of `ss`, one after the other. */
  function Flatten<T>(ss: seq<seq<T>>): seq<T> {
    if |ss| == 0 then [] else ss[0] + Flatten(ss[1..])
  }

  // ---------------------------------------------------------------------
  // Lookups on a step

  /** The first declared output with the given name. */
  function OutputNamed(outputs: seq<StepOutput>, name: string): (r: Option<StepOutput>)
    ensures r.Some? <==> exists i :: 0 <= i < |outputs| && outputs[i].name == name
    ensures r.Some? ==> r.value.name == name
  {
    if |outputs| == 0 then None
    else if outputs[0].name == name then Some(outputs[0])
    else
      var r := OutputNamed(outputs[1..], name);
      assert forall i :: 0 <= i < |outputs| - 1 ==> outputs[1..][i] == outputs[i + 1];
      r
  }

  function OutputNames(outputs: seq<StepOutput>): (names: seq<string>)
    ensures |names| == |outputs|
    ensures forall i :: 0 <= i < |outputs| ==> names[i] == outputs[i].name
  {
    seq(|outputs|, i requires 0 <= i < |outputs| => outputs[i].name)
  }

  predicate IsNothing(t: DagsterType) {
    t.kind == Nothing
  }
}
