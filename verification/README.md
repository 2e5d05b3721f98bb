# Step execution in dagster, modelled in Dafny

This project models the core of dagster's step execution,
`python_modules/dagster/dagster/core/execution/plan/execute_step.py`. The
core takes one step of a pipeline, loads its inputs, runs its compute
function, and validates every output that function yields. It then
type-checks, stores and materializes those outputs, producing the ordered
sequence of lifecycle events: Start or Restarted, store and type-check
events, then Success.

In the model, every generator of the source is a function that returns a
`Trace`. A trace holds the events yielded, in order, and the error raised
after them, if any. `Then` chains two traces the way nested `yield from`
loops do: once the first one raises, the second never starts.

Code the step calls out to is supplied as data, bundled as total functions
in `Model.Collaborators`. This covers:
- type validators;
- input sources;
- the compute function;
- output managers;
- type materializers.

Files:
- `model.dfy`: events, errors, step definitions, collaborator results, traces.
- `boundaries.dfy`: the user-code error boundaries and the type-check adapter.
- `gate.dfy`: the output validation gate. It is a state machine over seen output names and (name, mapping key) pairs, plus its post-pass. It also holds a reference definition stated over the history of yielded events, with the lemmas tying the two together.
- `inputs.dfy`: input loading, store-record unwrapping (fan-in included) and input type checks.
- `outputs.dfy`: the events for one output. These are the handle, the type check, the output manager's events, and the materializer walk up the composition hierarchy.
- `orchestrator.dfy`: the whole step. The gate and the dispatch run interleaved, one event at a time, as the nested generators do. The contract of `Orchestrator.Drain` states that this equals gating everything first and then dispatching.
- `scenarios.dfy`: whole-step runs for three concrete situations.

Two points of ordering the model follows closely:
- All inputs are loaded (execute_step.py:268-298) before any is type-checked (execute_step.py:300-304). `Inputs.LoadEventsPrecedeTypeChecks` states this order.
- The compute function is called outside the compute boundary (execute_step.py:485); only iterating its generator is guarded (execute_step.py:489-508). The model wraps only what is raised during iteration.

Some functions carry no contract of their own and are characterised by a lemma:
- `Gate.GateFrom` and `Gate.Gate` by `Gate.GateCharacterised`.
- `Outputs.MaterializeFrom` by `Outputs.WalkVisitsEveryAncestor`.

## Model

| member | source | states |
|---|---|---|
| `Boundaries.Wrap` | python_modules/dagster/dagster/core/execution/plan/execute_step.py:489-505 | a raise inside a boundary reaches the caller unwrapped exactly when it is Failure or RetryRequested and the boundary lists control-flow exceptions; anything else is wrapped with the boundary's context |
| `Boundaries.Guard` | python_modules/dagster/dagster/core/execution/plan/execute_step.py:532-542 | a boundary never swallows: it succeeds exactly when the call returned, with the returned value, and otherwise carries the wrapped raise |
| `Boundaries.DoTypeCheck` | python_modules/dagster/dagster/core/execution/plan/execute_step.py:124-138 | a validator's `TypeCheck` comes back unchanged; any other return value becomes a failing check; a raise propagates |
| `Boundaries.InputTypeCheckEvents` | python_modules/dagster/dagster/core/execution/plan/execute_step.py:156-192 | exactly one input event whose success flag is the check's; DidNotPass after it exactly when the check failed; a raising validator gives a type-check error and no event |
| `Boundaries.OutputTypeCheckEvents` | python_modules/dagster/dagster/core/execution/plan/execute_step.py:211-250 | the same for an output: one output event carrying the handle and version, then DidNotPass exactly when the check failed |
| `Gate.Admit` | python_modules/dagster/dagster/core/execution/plan/execute_step.py:58-100 | a refusal is always an invariant violation; an accepted output adds its name to the seen names |
| `Gate.AdmitAgreesWithReference` | python_modules/dagster/dagster/core/execution/plan/execute_step.py:58-100 | from the summary of the events already yielded, the gate accepts an event exactly when the history-based emission rules allow it; its next state is the summary of the extended history; undeclared, duplicate and repeated-mapping-key outputs get their own violations |
| `Gate.AcceptedLength` | python_modules/dagster/dagster/core/execution/plan/execute_step.py:58-100 | the index of the first event the emission rules refuse: every earlier event is acceptable after the events before it, and the event at that index is not |
| `Gate.GateCharacterised` | python_modules/dagster/dagster/core/execution/plan/execute_step.py:43-121 | the gate yields exactly the acceptable prefix of the events, unchanged; at the first refused event it raises an invariant violation and yields nothing more; if all are accepted it continues with the post-pass over the names seen |
| `Gate.GatePassesEventsThrough` | python_modules/dagster/dagster/core/execution/plan/execute_step.py:58-61 | accepted events, outputs or not, come out unchanged and in their original positions; anything after them is an implicit, valueless output of a declared output; if the gate stops early it raises an invariant violation |
| `Gate.GateOutputsWellFormed` | python_modules/dagster/dagster/core/execution/plan/execute_step.py:65-98 | every output of the compute function that the gate lets through names a declared output and is dynamic exactly when its definition is; two such outputs with one name are both dynamic and have distinct mapping keys |
| `Gate.Finish` | python_modules/dagster/dagster/core/execution/plan/execute_step.py:103-121 | the post-pass succeeds exactly when every declared output was seen, is optional or is of type Nothing; its events are, in declaration order, the valueless outputs of the required unseen Nothing outputs that come before the first unsettled output (so all of them when it succeeds); otherwise, after those events, it raises output-not-found for that first unsettled output |
| `Gate.ImplicitOutputExactlyOnce` | python_modules/dagster/dagster/core/execution/plan/execute_step.py:105-112 | with distinct output names, a required Nothing output never yielded is emitted implicitly exactly once when the post-pass completes |
| `Gate.GateYieldsDeclaredOutputs` | python_modules/dagster/dagster/core/execution/plan/execute_step.py:58-121 | every output the gate yields, let through or added by the post-pass, names a declared output |
| `Gate.OptionalOutputIsSilent` | python_modules/dagster/dagster/core/execution/plan/execute_step.py:105 | with distinct output names, an optional output never yielded gives no event and is named by no error |
| `Inputs.UnwrapFanIn` | python_modules/dagster/dagster/core/execution/plan/execute_step.py:275-293 | a fan-in list resolves to the list of its elements' values in order, store records replaced by their objects; the events are each element's store event in element order: one object-store event labelled with the input per object-store record, one asset-store event per asset-store record, none for a plain value |
| `Inputs.Unwrap` | python_modules/dagster/dagster/core/execution/plan/execute_step.py:270-298 | an object-store record gives its object and one object-store event labelled with the input; an asset-store record gives its object and one asset-store event; a plain value gives itself and no event; a fan-in list gives its elements' values and their store events in element order |
| `Inputs.LoadInputs` | python_modules/dagster/dagster/core/execution/plan/execute_step.py:525-544 | loading emits only store events; it completes whenever no input that carries a value has a raising source; it stops only with a control-flow signal or a load-input error |
| `Inputs.LoadFailsAtFirstRaise` | python_modules/dagster/dagster/core/execution/plan/execute_step.py:525-544 | loading completes exactly when no value-carrying input's source raises; otherwise its error is the first such raise, passed through as a control-flow signal or wrapped with the step key and that input's name |
| `Inputs.LoadResolvesPrefix` | python_modules/dagster/dagster/core/execution/plan/execute_step.py:268-298 | the resolved entries are exactly the value-carrying inputs before the first raising source, in declaration order, each holding what its source's object unwraps to; no later input is loaded |
| `Inputs.LoadEventsOfPrefix` | python_modules/dagster/dagster/core/execution/plan/execute_step.py:268-298 | the loading events are the store events of those same inputs, input after input |
| `Inputs.NothingInputsAreSkipped` | python_modules/dagster/dagster/core/execution/plan/execute_step.py:528-530 | a Nothing input is never loaded and leaves no event or value: loading all inputs equals loading only those that carry a value |
| `Inputs.LoadInputsResolves` | python_modules/dagster/dagster/core/execution/plan/execute_step.py:268-298 | every resolved entry is a declared input that is not of type Nothing, holding the value its source's object unwraps to |
| `Inputs.LoadInputsComplete` | python_modules/dagster/dagster/core/execution/plan/execute_step.py:268-298 | when loading completes, every input that is not of type Nothing has been resolved |
| `Inputs.TypeCheckInputs` | python_modules/dagster/dagster/core/execution/plan/execute_step.py:300-304 | at most one input event per resolved input, in resolution order, each naming its input; all passing, one per input, when the phase succeeds |
| `Inputs.TypeChecksStopAtFirstFailure` | python_modules/dagster/dagster/core/execution/plan/execute_step.py:300-304 | the input checks complete exactly when every resolved input's validator returns a passing check; each event carries its own input's verdict; otherwise the first failing input ends the phase with its own type-check error or DidNotPass, after its event exactly when its validator returned |
| `Inputs.InputsMap` | python_modules/dagster/dagster/core/execution/plan/execute_step.py:267-298 | the dictionary handed to the compute function has every resolved name, each mapped to a value resolved under that name |
| `Inputs.InputsMapKeepsLastEntry` | python_modules/dagster/dagster/core/execution/plan/execute_step.py:267-298 | a name maps to the value of the last resolved entry with that name, so with distinct names to each input's own value |
| `Inputs.ResolveInputs` | python_modules/dagster/dagster/core/execution/plan/execute_step.py:267-304 | the phase resolves what loading resolves; a load error ends it with just the load events; otherwise the load events come first and the phase ends as the type checks do |
| `Inputs.LoadEventsPrecedeTypeChecks` | python_modules/dagster/dagster/core/execution/plan/execute_step.py:267-304 | every store event of the input phase precedes every input type-check event, and nothing else is emitted; on success there is one passing check per resolved input |
| `Outputs.HandleFor` | python_modules/dagster/dagster/core/execution/plan/execute_step.py:344-348 | the handle carries the step key and output name, and a mapping key exactly for a dynamic output |
| `Outputs.VersionFor` | python_modules/dagster/dagster/core/execution/plan/execute_step.py:350-354 | a version is attached exactly when the run is memoized and the table has one for the handle |
| `Outputs.ItemsToEvents` | python_modules/dagster/dagster/core/execution/plan/execute_step.py:368-384 | one materialization event per returned item, in order, up to the first item the checker refuses, which raises an invariant violation naming it |
| `Outputs.SetObjects` | python_modules/dagster/dagster/core/execution/plan/execute_step.py:387-425 | a legacy object-store record gives exactly that one store event and no set-asset; otherwise materialization events for the items and then exactly one set-asset, which is always last; a refused item raises an invariant violation after the materializations of the items before it, and yields nothing after it |
| `Outputs.Ancestors` | python_modules/dagster/dagster/core/execution/plan/execute_step.py:430-435 | the chain starts at the step's handle, each next handle is the parent of the one before, and it ends at the root |
| `Outputs.WalkVisitsEveryAncestor` | python_modules/dagster/dagster/core/execution/plan/execute_step.py:428-478 | the walk does not stop at a match: it performs exactly the configured actions of every level from the step's handle to the root, in that order |
| `Outputs.EveryMatchingSpecRuns` | python_modules/dagster/dagster/core/execution/plan/execute_step.py:440-462 | every single-key spec naming the output, at any ancestor level, is among the materializer runs of the walk |
| `Outputs.MaterializeFromOnlyMaterializes` | python_modules/dagster/dagster/core/execution/plan/execute_step.py:464-478 | the walk emits nothing but materialization events |
| `Outputs.StepEventsForOutput` | python_modules/dagster/dagster/core/execution/plan/execute_step.py:336-365 | only body events; when the validator returns, the first event is the output event with the output's handle; a failing or raising type check ends the output's handling before the manager runs; a manager error ends it before any materializer runs; when both succeed, the events are the type check's, then the manager's, then the walk's over every level from the step's handle to the root, and it ends as the walk ends |
| `Outputs.OutputEventsInOrder` | python_modules/dagster/dagster/core/execution/plan/execute_step.py:336-365 | for one output: first its passing output event with its handle; then the manager's events, shaped as one object-store event or materializations closed by one set-asset; exactly the manager's events; then exactly the materializer walk's events, all materializations |
| `Orchestrator.Dispatch` | python_modules/dagster/dagster/core/execution/plan/execute_step.py:317-329 | a materialization or expectation becomes one materialization or expectation event; an output goes to the handling of its declared definition, and an unknown output name or event type is a check failure; only body events are emitted |
| `Orchestrator.UserEvents` | python_modules/dagster/dagster/core/execution/plan/execute_step.py:481-508 | the events are exactly those the compute function yields; the sequence ends with an error exactly when iteration raised, the raise passed through as a control-flow signal or wrapped with the step key and the solid and solid definition names; a compute function returning None yields nothing |
| `Orchestrator.Drain` | python_modules/dagster/dagster/core/execution/plan/execute_step.py:306-329 | pulling the gate one event at a time and dispatching each before the next pull gives the same trace as running the gate to its end and dispatching what it yielded, stopping at the first error |
| `Orchestrator.DrainImplicit` | python_modules/dagster/dagster/core/execution/plan/execute_step.py:103-121 | dispatching each implicit output as the post-pass yields it gives the same trace as finishing the post-pass and then dispatching what it yielded |
| `Orchestrator.GateOutputsReachTheirDefinition` | python_modules/dagster/dagster/core/execution/plan/execute_step.py:317-319 | every output the gate yields is dispatched to the handling of its own declared definition, never to the unknown-output failure |
| `Orchestrator.ExecuteStep` | python_modules/dagster/dagster/core/execution/plan/execute_step.py:253-333 | the first event is Restarted exactly when the prior attempt count is positive, else Start; the run succeeds exactly when its last event is Success; no other event after the first is Start, Restarted or Success; in full, the run is the opening event, then input resolution, then each event the output gate lets through dispatched in order, then Success, stopping at the first phase that raises |
| `Orchestrator.SuccessMeansGateAccepted` | python_modules/dagster/dagster/core/execution/plan/execute_step.py:58-121 | a successful step had every compute event accepted by the gate and no compute raise, and every output that is neither optional nor of type Nothing was yielded |
| `Scenarios.SingleOutputSucceeds` | python_modules/dagster/dagster/core/execution/plan/execute_step.py:253-425 | one required output yielded once, passing its type check and stored by a manager returning nothing: Start or Restarted, its output event, its set-asset event, Success |
| `Scenarios.MissingOutputFails` | python_modules/dagster/dagster/core/execution/plan/execute_step.py:103-121 | one required output never yielded: Start or Restarted, then output-not-found naming it, and no Success |
| `Scenarios.RepeatedMappingKeyAborts` | python_modules/dagster/dagster/core/execution/plan/execute_step.py:93-98 | a dynamic output repeating a mapping key: the first is checked and stored in full, then the step stops with a duplicate-mapping-key violation |

## Left out

- Timing: the duration carried by Success is a parameter of `Orchestrator.ExecuteStep`, standing for the timer reading (execute_step.py:306, 331-333). Clocks and floating point are not modelled.
- Logging of the implicit Nothing output (execute_step.py:107-111), error-message text, and the `check.*` parameter assertions on argument types.
- Event payloads: events are a tagged datatype carrying the fields the core decides. Serialising object-store records keeps only the operation type, key and value name.
- The internals of `user_code_error_boundary`, which is not part of this model. Each boundary is modelled as `Boundaries.Wrap`. The load-input, compute and handle-output boundaries pass Failure and RetryRequested through. The type-check and materialization boundaries are called without a control-flow list, so they wrap everything. Exceptions that are already framework errors are not distinguished from other user exceptions.
- The version table and the memoized-run tag lookup are data (`StepContext.versions`, `StepContext.memoized`). How versions are resolved is not part of this model.
- Storage, output managers, materializers, input sources and compute functions are not modelled as code. Their results are supplied as total functions of their arguments. The call context these collaborators receive is omitted.
- Generators returned by managers and materializers are finite lists that do not raise part-way. The compute function is a finite list of events followed by an optional raise. A raise when the compute function is first called is not modelled; only raises while iterating it are.
- A manager returning a Python list is treated, as `ensure_gen` treats it, as one non-materialization item. A materializer returning something that is not iterable is not modelled.
- Repeated input names: dagster's step inputs have distinct names, and the model does not cover a step that repeats one. With a repeated name the source's dictionary keeps one entry per name (execute_step.py:267-298) and type-checks that entry once (execute_step.py:300), while `Inputs.TypeCheckInputs` checks every loaded entry. `Inputs.InputsMapKeepsLastEntry` states which value the dictionary keeps.
- `check.opt_generator` (execute_step.py:485) fails when the compute function returns something that is neither None nor a generator. The model's compute function returns either nothing or a sequence of events, so that failure is not modelled.
- Dispatch of an event type the gate passes through but the orchestrator does not know (execute_step.py:324-329) fails with `CheckFailed`. The same applies to an output name not found at dispatch, which the gate makes unreachable.
- Cancellation by a consumer that stops pulling is not modelled. Every trace is either run to its end or stopped by an error.
