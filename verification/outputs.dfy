/** Output persistence and materialization: for each output the gate lets
    through, its type check, its hand-off to the output manager, and the
    materializations configured anywhere up the composition hierarchy. */
module Outputs {
  import opened Model
  import opened Boundaries

  /** The durable address of an output event. */
  function HandleFor(step: Step, e: UserEvent): (h: StepOutputHandle)
    requires e.IsOutput()
    ensures h.stepKey == step.key && h.outputName == e.outputName
    ensures h.mappingKey.Some? <==> e.DynamicOutput?
    ensures e.DynamicOutput? ==> h.mappingKey == Some(e.mappingKey)
  {
    StepOutputHandle(step.key, e.outputName, if e.DynamicOutput? then Some(e.mappingKey) else None)
  }

  /** The content version of a handle: looked up only in a memoized run, and
      absent when the table has no entry for the handle. */
  function VersionFor(ctx: StepContext, h: StepOutputHandle): (v: Option<string>)
    ensures v.Some? <==> ctx.memoized && h in ctx.versions
    ensures v.Some? ==> v.value == ctx.versions[h]
  {
    if ctx.memoized && h in ctx.versions then Some(ctx.versions[h]) else None
  }

  /** Who checks returned items: an output manager accepts only asset
      materializations, a type materializer accepts both kinds. */
  datatype Checker = ManagerCheck(outputName: string) | MaterializerCheck(typeName: string)

  predicate Accepts(c: Checker, item: ReturnedItem) {
    item.Materialized? && (c.MaterializerCheck? || item.materialization.AssetMaterialization?)
  }

  function PythonTypeOf(item: ReturnedItem): string {
    match item
    case Foreign(t) => t
    case Materialized(AssetMaterialization(_, _)) => "AssetMaterialization"
    case Materialized(LegacyMaterialization(_, _)) => "Materialization"
  }

  function Rejection(c: Checker, item: ReturnedItem): Violation {
    match c
    case ManagerCheck(n) => ManagerReturnedNonAsset(n, PythonTypeOf(item))
    case MaterializerCheck(t) => MaterializerReturnedNonMaterialization(t, PythonTypeOf(item))
  }

  /** One materialization event per returned item, in order, until the first
      item the checker refuses, which raises an invariant violation. */
  function ItemsToEvents(c: Checker, items: seq<ReturnedItem>): (r: Trace<DagsterEvent>)
    ensures |r.events| <= |items|
    ensures forall i :: 0 <= i < |r.events| ==>
              Accepts(c, items[i]) && r.events[i] == StepMaterializationEvent(items[i].materialization)
    ensures r.error.None? <==> forall i :: 0 <= i < |items| ==> Accepts(c, items[i])
    ensures r.error.None? ==> |r.events| == |items|
    ensures r.error.Some? ==>
              |r.events| < |items| && !Accepts(c, items[|r.events|]) &&
              r.error.value == InvariantViolation(Rejection(c, items[|r.events|]))
  {
    if |items| == 0 then Emit([])
    else if !Accepts(c, items[0]) then Fail(InvariantViolation(Rejection(c, items[0])))
    else
      var rest := ItemsToEvents(c, items[1..]);
      assert forall i :: 1 <= i < |items| ==> items[i] == items[1..][i - 1];
      Then(Emit([StepMaterializationEvent(items[0].materialization)]), rest)
  }

  /** What iterating a manager's return value yields: nothing for None, the
      value itself when it is not a generator, else the generator's items. */
  function ManagerItems(ret: ManagerReturn): seq<ReturnedItem>
    requires !ret.ReturnedObjectStoreOp?
  {
    match ret
    case ReturnedNone => []
    case ReturnedSingle(item) => [item]
    case ReturnedGenerator(items) => items
  }

  /** The store event recording that the output's manager now holds the handle. */
  function SetAssetEvent(o: StepOutput, h: StepOutputHandle): DagsterEvent {
    AssetStoreEvent(SetAsset, h, AssetStoreHandle(o.managerKey, o.metadata))
  }

  /** Hands an output value to its manager. */
  function SetObjects(ctx: StepContext, o: StepOutput, h: StepOutputHandle, value: Value): (r: Trace<DagsterEvent>)
    ensures var ret := ctx.calls.handleOutput(o.managerKey, h, value);
      && (ret.Raised? ==> r == Fail(Guard(HandleOutputBoundary(ctx.step.key, h.outputName), ret).error))
      && (ret.Returned? && ret.value.ReturnedObjectStoreOp? ==>
            r == Emit([ObjectStoreEventFor(h.outputName, ret.value.objectOp)]))
      && (ret.Returned? && !ret.value.ReturnedObjectStoreOp? ==>
            && (r.error.None? <==> forall i :: 0 <= i < |ManagerItems(ret.value)| ==> Accepts(ManagerCheck(h.outputName), ManagerItems(ret.value)[i]))
            && (r.error.None? ==>
                  && |r.events| == |ManagerItems(ret.value)| + 1
                  && r.events[|r.events| - 1] == SetAssetEvent(o, h)
                  && forall i :: 0 <= i < |r.events| - 1 ==>
                       r.events[i] == StepMaterializationEvent(ManagerItems(ret.value)[i].materialization))
            && (r.error.Some? ==>
                  && r.error.value.InvariantViolation?
                  && r == ItemsToEvents(ManagerCheck(h.outputName), ManagerItems(ret.value))))
    ensures forall i :: 0 <= i < |r.events| && r.events[i].AssetStoreEvent? ==>
              i == |r.events| - 1 && r.error.None?
    ensures forall e :: e in r.events ==> e.IsStoreEvent() || e.StepMaterializationEvent?
  {
    match Guard(HandleOutputBoundary(ctx.step.key, h.outputName), ctx.calls.handleOutput(o.managerKey, h, value))
    case Err(e) => Fail(e)
    case Ok(ret) =>
      if ret.ReturnedObjectStoreOp? then Emit([ObjectStoreEventFor(h.outputName, ret.objectOp)])
      else Then(ItemsToEvents(ManagerCheck(h.outputName), ManagerItems(ret)), Emit([SetAssetEvent(o, h)]))
  }

  // ---------------------------------------------------------------------
  // Materializations configured up the composition hierarchy

  /** The dotted path of a handle, the key of its solid's configuration. */
  function HandleString(h: SolidHandle): string
    decreases h
  {
    match h.parent
    case None => h.name
    case Some(p) => HandleString(p) + "." + h.name
  }

  /** The handle followed by each of its ancestors up to the root. */
  function Ancestors(h: SolidHandle): (r: seq<SolidHandle>)
    ensures |r| >= 1 && r[0] == h
    ensures forall i :: 0 <= i < |r| - 1 ==> r[i].parent == Some(r[i + 1])
    ensures r[|r| - 1].parent.None?
    decreases h
  {
    match h.parent
    case None => [h]
    case Some(p) => [h] + Ancestors(p)
  }

  /** The events of one materializer call inside its boundary. */
  function RunSpec(ctx: StepContext, o: StepOutput, spec: MaterializerSpec, value: Value): Trace<DagsterEvent> {
    match Guard(MaterializationBoundary(ctx.step.key, o.name), ctx.calls.materialize(o.dagsterType, spec, value))
    case Err(e) => Fail(e)
    case Ok(items) => ItemsToEvents(MaterializerCheck(o.dagsterType.displayName), items)
  }

  /** The materializer-spec entries of one solid's configuration, in order. */
  function RunEntries(ctx: StepContext, o: StepOutput, entries: seq<seq<(string, MaterializerSpec)>>, value: Value)
    : Trace<DagsterEvent>
  {
    if |entries| == 0 then Emit([])
    else if |entries[0]| != 1 then Fail(CheckFailed(MalformedMaterializerSpec(|entries[0]|)))
    else if entries[0][0].0 == o.name then Then(RunSpec(ctx, o, entries[0][0].1, value), RunEntries(ctx, o, entries[1..], value))
    else RunEntries(ctx, o, entries[1..], value)
  }

  /** The walk from `h` to the root, consulting each level's configuration. */
  function MaterializeFrom(ctx: StepContext, o: StepOutput, h: Option<SolidHandle>, value: Value): (r: Trace<DagsterEvent>)
    decreases h
  {
    match h
    case None => Emit([])
    case Some(cur) =>
      var rest := MaterializeFrom(ctx, o, cur.parent, value);
      var key := HandleString(cur);
      if key !in ctx.solidConfigs then rest
      else Then(RunEntries(ctx, o, ctx.solidConfigs[key].typeMaterializerSpecs, value), rest)
  }

  /** What the walk does at one configuration entry. */
  datatype Action = Run(spec: MaterializerSpec) | Malformed(size: nat)

  function EntryActions(name: string, entries: seq<seq<(string, MaterializerSpec)>>): seq<Action> {
    if |entries| == 0 then []
    else
      var here :=
        if |entries[0]| != 1 then [Malformed(|entries[0]|)]
        else if entries[0][0].0 == name then [Run(entries[0][0].1)]
        else [];
      here + EntryActions(name, entries[1..])
  }

  function LevelActions(ctx: StepContext, name: string, h: SolidHandle): seq<Action> {
    if HandleString(h) in ctx.solidConfigs then EntryActions(name, ctx.solidConfigs[HandleString(h)].typeMaterializerSpecs)
    else []
  }

  /** The actions of every level in `levels`, concatenated. */
  function WalkActions(ctx: StepContext, name: string, levels: seq<SolidHandle>): seq<Action> {
    if |levels| == 0 then [] else LevelActions(ctx, name, levels[0]) + WalkActions(ctx, name, levels[1..])
  }

  /** Runs actions in order, stopping at the first error. */
  function RunActions(ctx: StepContext, o: StepOutput, actions: seq<Action>, value: Value): Trace<DagsterEvent> {
    if |actions| == 0 then Emit([])
    else
      var first := match actions[0]
        case Run(spec) => RunSpec(ctx, o, spec, value)
        case Malformed(size) => Fail(CheckFailed(MalformedMaterializerSpec(size)));
      Then(first, RunActions(ctx, o, actions[1..], value))
  }

  lemma ThenAssociative<E>(a: Trace<E>, b: Trace<E>, c: Trace<E>)
    ensures Then(Then(a, b), c) == Then(a, Then(b, c))
  {
    if a.error.None? && b.error.None? {
      assert (a.events + b.events) + c.events == a.events + (b.events + c.events);
    }
  }

  lemma {:induction false} RunActionsAppend(ctx: StepContext, o: StepOutput, a: seq<Action>, b: seq<Action>, value: Value)
    ensures RunActions(ctx, o, a + b, value) == Then(RunActions(ctx, o, a, value), RunActions(ctx, o, b, value))
    decreases |a|
  {
    if |a| == 0 {
      assert a + b == b;
    } else {
      assert (a + b)[1..] == a[1..] + b;
      assert (a + b)[0] == a[0];
      RunActionsAppend(ctx, o, a[1..], b, value);
      var head := match a[0]
        case Run(spec) => RunSpec(ctx, o, spec, value)
        case Malformed(size) => Fail(CheckFailed(MalformedMaterializerSpec(size)));
      ThenAssociative(head, RunActions(ctx, o, a[1..], value), RunActions(ctx, o, b, value));
    }
  }

  lemma {:induction false} RunEntriesAsActions(ctx: StepContext, o: StepOutput, entries: seq<seq<(string, MaterializerSpec)>>, value: Value)
    ensures RunEntries(ctx, o, entries, value) == RunActions(ctx, o, EntryActions(o.name, entries), value)
    decreases |entries|
  {
    if |entries| > 0 {
      RunEntriesAsActions(ctx, o, entries[1..], value);
      var here :=
        if |entries[0]| != 1 then [Malformed(|entries[0]|)]
        else if entries[0][0].0 == o.name then [Run(entries[0][0].1)]
        else [];
      RunActionsAppend(ctx, o, here, EntryActions(o.name, entries[1..]), value);
      if |here| == 1 {
        assert RunActions(ctx, o, here[1..], value) == Emit([]);
      }
    }
  }

  /** One level of the walk runs that level's actions, then the walk above it. */
  lemma LevelThenParent(ctx: StepContext, o: StepOutput, h: SolidHandle, value: Value)
    ensures MaterializeFrom(ctx, o, Some(h), value) ==
              Then(RunActions(ctx, o, LevelActions(ctx, o.name, h), value), MaterializeFrom(ctx, o, h.parent, value))
  {
    var rest := MaterializeFrom(ctx, o, h.parent, value);
    if HandleString(h) in ctx.solidConfigs {
      RunEntriesAsActions(ctx, o, ctx.solidConfigs[HandleString(h)].typeMaterializerSpecs, value);
    } else {
      assert [] + rest.events == rest.events;
    }
  }

  lemma WalkActionsSplit(ctx: StepContext, o: StepOutput, h: SolidHandle, value: Value)
    ensures RunActions(ctx, o, WalkActions(ctx, o.name, Ancestors(h)), value) ==
              Then(RunActions(ctx, o, LevelActions(ctx, o.name, h), value),
                   RunActions(ctx, o, WalkActions(ctx, o.name, Ancestors(h)[1..]), value))
  {
    RunActionsAppend(ctx, o, LevelActions(ctx, o.name, h), WalkActions(ctx, o.name, Ancestors(h)[1..]), value);
  }

  /** One level of the walk, given that the walk above it performs the
      actions of the levels above. */
  lemma WalkStep(ctx: StepContext, o: StepOutput, h: SolidHandle, value: Value)
    requires MaterializeFrom(ctx, o, h.parent, value) == RunActions(ctx, o, WalkActions(ctx, o.name, Ancestors(h)[1..]), value)
    ensures MaterializeFrom(ctx, o, Some(h), value) == RunActions(ctx, o, WalkActions(ctx, o.name, Ancestors(h)), value)
  {
    LevelThenParent(ctx, o, h, value);
    WalkActionsSplit(ctx, o, h, value);
  }

  /** The walk does not stop at a level that matched: it performs exactly the
      actions of every level from the step's own handle up to the root, in
      that order. */
  lemma {:induction false} WalkVisitsEveryAncestor(ctx: StepContext, o: StepOutput, h: SolidHandle, value: Value)
    ensures MaterializeFrom(ctx, o, Some(h), value) == RunActions(ctx, o, WalkActions(ctx, o.name, Ancestors(h)), value)
    decreases h
  {
    match h.parent {
      case None =>
        assert Ancestors(h)[1..] == [];
      case Some(p) =>
        assert Ancestors(h)[1..] == Ancestors(p);
        WalkVisitsEveryAncestor(ctx, o, p, value);
    }
    WalkStep(ctx, o, h, value);
  }

  /** Every well-formed entry naming the output, at any ancestor level, is
      among the walk's actions. */
  lemma {:induction false} EveryMatchingSpecRuns(ctx: StepContext, name: string, levels: seq<SolidHandle>, i: nat, j: nat)
    requires i < |levels| && HandleString(levels[i]) in ctx.solidConfigs
    requires var entries := ctx.solidConfigs[HandleString(levels[i])].typeMaterializerSpecs;
             j < |entries| && |entries[j]| == 1 && entries[j][0].0 == name
    ensures Run(ctx.solidConfigs[HandleString(levels[i])].typeMaterializerSpecs[j][0].1) in WalkActions(ctx, name, levels)
    decreases |levels|
  {
    if i == 0 {
      EntryActionsContains(name, ctx.solidConfigs[HandleString(levels[0])].typeMaterializerSpecs, j);
    } else {
      assert levels[1..][i - 1] == levels[i];
      EveryMatchingSpecRuns(ctx, name, levels[1..], i - 1, j);
    }
  }

  lemma {:induction false} EntryActionsContains(name: string, entries: seq<seq<(string, MaterializerSpec)>>, j: nat)
    requires j < |entries| && |entries[j]| == 1 && entries[j][0].0 == name
    ensures Run(entries[j][0].1) in EntryActions(name, entries)
    decreases |entries|
  {
    if j > 0 {
      assert entries[1..][j - 1] == entries[j];
      EntryActionsContains(name, entries[1..], j - 1);
    }
  }

  // ---------------------------------------------------------------------
  // All events for one output

  /** The manager's part of an output's events: one object-store event, or
      materializations followed by exactly one set-asset event. */
  predicate ManagerShaped(evs: seq<DagsterEvent>) {
    || (|evs| == 1 && evs[0].ObjectStoreEvent?)
    || (&& |evs| >= 1
        && evs[|evs| - 1].AssetStoreEvent? && evs[|evs| - 1].assetOpType == SetAsset
        && forall i :: 0 <= i < |evs| - 1 ==> evs[i].StepMaterializationEvent?)
  }

  /** The events for one output the gate let through: its type check, then
      its manager, then the materializer walk, each stopping the rest when
      it raises. */
  function StepEventsForOutput(ctx: StepContext, o: StepOutput, e: UserEvent): (r: Trace<DagsterEvent>)
    requires e.IsOutput()
    ensures forall x :: x in r.events ==> x.IsBodyEvent()
    ensures DoTypeCheck(ctx.calls, o.dagsterType, e.value).Returned? ==>
              |r.events| >= 1 && r.events[0].StepOutputEvent? && r.events[0].handle == HandleFor(ctx.step, e)
    ensures var check := OutputTypeCheckEvents(ctx, o, HandleFor(ctx.step, e), e.value, VersionFor(ctx, HandleFor(ctx.step, e)));
            var store := SetObjects(ctx, o, HandleFor(ctx.step, e), e.value);
            var walk := RunActions(ctx, o, WalkActions(ctx, o.name, Ancestors(ctx.step.solidHandle)), e.value);
            && (check.error.Some? ==> r == check)
            && (check.error.None? && store.error.Some? ==> r == Trace(check.events + store.events, store.error))
            && (check.error.None? && store.error.None? ==> r == Trace(check.events + store.events + walk.events, walk.error))
  {
    var h := HandleFor(ctx.step, e);
    var check := OutputTypeCheckEvents(ctx, o, h, e.value, VersionFor(ctx, h));
    var store := SetObjects(ctx, o, h, e.value);
    var mat := MaterializeFrom(ctx, o, Some(ctx.step.solidHandle), e.value);
    OutputStagesAreBodyEvents(ctx, o, e, check, store, mat);
    OutputStagesRunTheWalk(ctx, o, e, check, store, mat);
    Then(check, Then(store, mat))
  }

  lemma OutputStagesAreBodyEvents(ctx: StepContext, o: StepOutput, e: UserEvent,
                                  check: Trace<DagsterEvent>, store: Trace<DagsterEvent>, mat: Trace<DagsterEvent>)
    requires e.IsOutput()
    requires check == OutputTypeCheckEvents(ctx, o, HandleFor(ctx.step, e), e.value, VersionFor(ctx, HandleFor(ctx.step, e)))
    requires store == SetObjects(ctx, o, HandleFor(ctx.step, e), e.value)
    requires mat == MaterializeFrom(ctx, o, Some(ctx.step.solidHandle), e.value)
    ensures var r := Then(check, Then(store, mat));
            && (forall x :: x in r.events ==> x.IsBodyEvent())
            && (DoTypeCheck(ctx.calls, o.dagsterType, e.value).Returned? ==>
                  |r.events| >= 1 && r.events[0].StepOutputEvent? && r.events[0].handle == HandleFor(ctx.step, e))
  {
    MaterializeFromOnlyMaterializes(ctx, o, Some(ctx.step.solidHandle), e.value);
    ThenThree(check, store, mat);
  }

  lemma OutputStagesRunTheWalk(ctx: StepContext, o: StepOutput, e: UserEvent,
                               check: Trace<DagsterEvent>, store: Trace<DagsterEvent>, mat: Trace<DagsterEvent>)
    requires e.IsOutput()
    requires mat == MaterializeFrom(ctx, o, Some(ctx.step.solidHandle), e.value)
    ensures var r := Then(check, Then(store, mat));
            var walk := RunActions(ctx, o, WalkActions(ctx, o.name, Ancestors(ctx.step.solidHandle)), e.value);
            && (check.error.Some? ==> r == check)
            && (check.error.None? && store.error.Some? ==> r == Trace(check.events + store.events, store.error))
            && (check.error.None? && store.error.None? ==> r == Trace(check.events + store.events + walk.events, walk.error))
  {
    WalkVisitsEveryAncestor(ctx, o, ctx.step.solidHandle, e.value);
    ThenThree(check, store, mat);
  }

  /** Three generators run one after another: each stops the rest when it
      raises, and nothing is yielded that none of them yields. */
  lemma ThenThree<E>(a: Trace<E>, b: Trace<E>, c: Trace<E>)
    ensures var r := Then(a, Then(b, c));
            && (a.error.Some? ==> r == a)
            && (a.error.None? && b.error.Some? ==> r == Trace(a.events + b.events, b.error))
            && (a.error.None? && b.error.None? ==> r == Trace(a.events + b.events + c.events, c.error))
            && |a.events| <= |r.events| && r.events[..|a.events|] == a.events
            && forall x :: x in r.events ==> x in a.events || x in b.events || x in c.events
  {
    if a.error.None? && b.error.None? {
      assert a.events + (b.events + c.events) == a.events + b.events + c.events;
    }
  }

  lemma {:induction false} MaterializeFromOnlyMaterializes(ctx: StepContext, o: StepOutput, h: Option<SolidHandle>, value: Value)
    ensures forall e :: e in MaterializeFrom(ctx, o, h, value).events ==> e.StepMaterializationEvent?
    decreases h
  {
    match h {
      case None =>
      case Some(cur) =>
        MaterializeFromOnlyMaterializes(ctx, o, cur.parent, value);
        if HandleString(cur) in ctx.solidConfigs {
          RunEntriesOnlyMaterializes(ctx, o, ctx.solidConfigs[HandleString(cur)].typeMaterializerSpecs, value);
        }
    }
  }

  lemma {:induction false} RunEntriesOnlyMaterializes(ctx: StepContext, o: StepOutput, entries: seq<seq<(string, MaterializerSpec)>>, value: Value)
    ensures forall e :: e in RunEntries(ctx, o, entries, value).events ==> e.StepMaterializationEvent?
    decreases |entries|
  {
    if |entries| > 0 {
      RunEntriesOnlyMaterializes(ctx, o, entries[1..], value);
      if |entries[0]| == 1 && entries[0][0].0 == o.name {
        var run := RunSpec(ctx, o, entries[0][0].1, value);
        assert forall e :: e in run.events ==> e.StepMaterializationEvent? by {
          forall e | e in run.events ensures e.StepMaterializationEvent? {
            var i :| 0 <= i < |run.events| && run.events[i] == e;
          }
        }
      }
    }
  }

  /** For one output: first its type-check event, carrying the handle (with
      a mapping key exactly for dynamic outputs); then exactly the manager's
      events; then exactly the events of the materializer walk, which are
      only materialization events. */
  lemma OutputEventsInOrder(ctx: StepContext, o: StepOutput, e: UserEvent)
    requires e.IsOutput()
    ensures var r := StepEventsForOutput(ctx, o, e);
            var h := HandleFor(ctx.step, e);
            var k := 1 + |SetObjects(ctx, o, h, e.value).events|;
            r.error.None? ==>
              && k <= |r.events|
              && r.events[1..k] == SetObjects(ctx, o, h, e.value).events
              && r.events[k..] == MaterializeFrom(ctx, o, Some(ctx.step.solidHandle), e.value).events
              && r.events[0].StepOutputEvent?
              && r.events[0].handle == h
              && (r.events[0].handle.mappingKey.Some? <==> e.DynamicOutput?)
              && r.events[0].typeCheck.success
              && ManagerShaped(r.events[1..k])
              && forall i :: k <= i < |r.events| ==> r.events[i].StepMaterializationEvent?
  {
    var h := HandleFor(ctx.step, e);
    var check := OutputTypeCheckEvents(ctx, o, h, e.value, VersionFor(ctx, h));
    var manager := SetObjects(ctx, o, h, e.value);
    var mat := MaterializeFrom(ctx, o, Some(ctx.step.solidHandle), e.value);
    MaterializeFromOnlyMaterializes(ctx, o, Some(ctx.step.solidHandle), e.value);
    StagesSliced(check, manager, mat);
  }

  /** Three stages run one after another, the first yielding one event when
      it succeeds, split back into their parts when all three succeed. */
  lemma StagesSliced(check: Trace<DagsterEvent>, manager: Trace<DagsterEvent>, mat: Trace<DagsterEvent>)
    requires check.error.None? ==> |check.events| == 1
    requires forall x :: x in mat.events ==> x.StepMaterializationEvent?
    ensures var r := Then(check, Then(manager, mat));
            var k := 1 + |manager.events|;
            r.error.None? ==>
              && check.error.None? && manager.error.None?
              && k <= |r.events|
              && r.events[0] == check.events[0]
              && r.events[1..k] == manager.events
              && r.events[k..] == mat.events
              && forall i :: k <= i < |r.events| ==> r.events[i].StepMaterializationEvent?
  {
    var r := Then(check, Then(manager, mat));
    var k := 1 + |manager.events|;
    if r.error.None? {
      assert r.events == check.events + manager.events + mat.events;
      assert r.events[k..] == mat.events;
      forall i | k <= i < |r.events|
        ensures r.events[i].StepMaterializationEvent?
      {
        assert r.events[i] == mat.events[i - k];
      }
    }
  }
}
