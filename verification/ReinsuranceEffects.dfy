/**
 What each call on the reinsurance service requires and does, in its caller's terms.
 (`apps/api/src/reinsurance/reinsurance.service.ts`, `packages/domain/src/reinsurance.ts`)
 */
module ReinsuranceEffects {
  import opened Prelude
  import opened Reinsurance
  import opened ReinsuranceMachine
  import opened ReinsuranceRuns

  /** Which parameters are accepted: a share above nothing and up to all, and layers from zero up with some limit. */
  lemma ParamsMeaning(bps: int, cap: Option<int>, attachment: int, limit: int)
    ensures ValidParams(QuotaShare(bps, cap)) <==> 1 <= bps <= 10_000 && (cap == None || cap.value >= 0)
    ensures ValidParams(ExcessOfLoss(attachment, limit)) <==> attachment >= 0 && limit >= 1
    ensures ValidParams(Aggregate(attachment, limit)) <==> attachment >= 0 && limit >= 1
  {
  }

  /** What the program created for some inputs must be: each layer with the terms of its own input, under an unused id. */
  ghost predicate BuiltFrom(s: Registry, program: Program, caller: string, inputs: seq<LayerInput>) {
    && program.owner == caller && |program.layers| == |inputs|
    && (forall i :: 0 <= i < |inputs| ==>
          var layer := program.layers[i];
          && layer.order == inputs[i].order && layer.kind == inputs[i].kind && layer.params == inputs[i].params
          && layer.state == LayerState(0, 0) && !InUse(s, layer.id))
    && (forall i, j :: 0 <= i < j < |inputs| ==> program.layers[i].id != program.layers[j].id)
  }

  ghost predicate InUse(s: Registry, id: nat) {
    exists p :: 0 <= p < |s.programs| && HasLayer(s.programs[p].layers, id)
  }

  /** A program is accepted exactly with well-formed layers of different orders; it is stored as given, with no cessions. */
  lemma CreateEffect(s: Registry, caller: string, inputs: seq<LayerInput>)
    requires Valid(s)
    ensures var (after, outcome) := Step(s, CreateProgram(caller, inputs));
            && outcome == (
                 if exists i :: 0 <= i < |inputs| && !ValidParams(inputs[i].params) then Err(InvalidParameter)
                 else if exists i, j :: 0 <= i < j < |inputs| && inputs[i].order == inputs[j].order then Err(DuplicateLayerOrder)
                 else Ok(|s.programs|))
            && (outcome.Err? ==> after == s)
            && (outcome.Ok? ==>
                  && |after.programs| == |s.programs| + 1 && |after.cessions| == |s.cessions| + 1
                  && (forall p :: 0 <= p < |s.programs| ==> after.programs[p] == s.programs[p] && after.cessions[p] == s.cessions[p])
                  && BuiltFrom(s, after.programs[|s.programs|], caller, inputs)
                  && after.cessions[|s.cessions|] == [])
  {
    if Step(s, CreateProgram(caller, inputs)).1.Ok? {
      var after := Step(s, CreateProgram(caller, inputs)).0;
      NewLayersMatch(s, inputs);
      assert after.programs[|s.programs|] == Program(caller, NewLayers(inputs, s.nextId));
    }
  }

  lemma NewLayersMatch(s: Registry, inputs: seq<LayerInput>)
    requires Valid(s)
    ensures forall i :: 0 <= i < |inputs| ==>
              var layer := NewLayers(inputs, s.nextId)[i];
              && layer.order == inputs[i].order && layer.kind == inputs[i].kind && layer.params == inputs[i].params
              && layer.state == LayerState(0, 0) && !InUse(s, layer.id)
    ensures forall i, j :: 0 <= i < j < |inputs| ==> NewLayers(inputs, s.nextId)[i].id != NewLayers(inputs, s.nextId)[j].id
  {
    forall i | 0 <= i < |inputs| ensures !InUse(s, NewLayers(inputs, s.nextId)[i].id) {
      assert NewLayers(inputs, s.nextId)[i].id >= s.nextId;
    }
  }

  /** Each layer, in ascending order, is presented what the ones before left, and cedes what its own terms say of that. */
  lemma {:induction false} PerLayerMeaning(gross: int, layers: seq<Layer>, i: nat)
    requires i < |layers|
    ensures var c := PerLayer(gross, layers)[i];
            && c.layerId == layers[i].id && c.presented == Remaining(gross, layers[..i]) && c.ceded == Ceded(c.presented, layers[i])
            && c.retained == c.presented - c.ceded && Remaining(gross, layers[..i + 1]) == c.retained
            && c.nextState == (if layers[i].params.Aggregate?
                 then Some(LayerState(layers[i].state.consumedGross + c.presented, layers[i].state.consumedCeded + c.ceded)) else None)
  {
    var last := |layers| - 1;
    if i < last {
      PerLayerMeaning(gross, layers[..last], i);
      assert layers[..last][..i] == layers[..i] && layers[..last][..i + 1] == layers[..i + 1];
    } else {
      assert layers[..i + 1] == layers;
    }
  }

  /**
   A cession is accepted exactly from the program's owner, for a loss that is not negative. It records one
   cession of that loss, by the program's layers sorted by order with the state of those stored as aggregate.
   */
  lemma CedeAcceptance(s: Registry, caller: string, program: nat, gross: int)
    requires Valid(s)
    ensures var (after, outcome) := Step(s, Cede(caller, program, gross));
            && outcome == (
                 if program >= |s.programs| then Err(ProgramNotFound)
                 else if s.programs[program].owner != caller then Err(Unauthorised)
                 else if gross < 0 then Err(NegativeLoss) else Ok(|s.cessions[program]|))
            && (outcome.Err? ==> after == s)
            && (outcome.Ok? ==>
                  && |after.programs| == |s.programs| == |after.cessions|
                  && (forall p :: 0 <= p < |s.programs| && p != program ==>
                        after.programs[p] == s.programs[p] && after.cessions[p] == s.cessions[p])
                  && after.programs[program].owner == caller && |after.programs[program].layers| == |s.programs[program].layers|
                  && |after.cessions[program]| == |s.cessions[program]| + 1 && s.cessions[program] <= after.cessions[program]
                  && after.cessions[program][|s.cessions[program]|].gross == gross)
  {
    if program < |s.programs| && s.programs[program].owner == caller && 0 <= gross {
      CedeAccepted(s, caller, program, gross);
      CedeEffect(s, caller, program, gross);
    }
  }

  /** The state a list of layer results writes back for one layer, if any. */
  function Written(perLayer: seq<LayerCession>, id: nat): Option<LayerState> {
    if perLayer == [] then None
    else
      var last := perLayer[|perLayer| - 1];
      if last.layerId == id && last.nextState.Some? then last.nextState else Written(perLayer[..|perLayer| - 1], id)
  }

  lemma {:induction false} UpdatedIsWritten(layer: Layer, perLayer: seq<LayerCession>)
    ensures Updated(layer, perLayer)
         == if Written(perLayer, layer.id).Some? then layer.(state := Written(perLayer, layer.id).value) else layer
  {
    if perLayer != [] {
      UpdatedIsWritten(layer, perLayer[..|perLayer| - 1]);
    }
  }

  /** A cession writes state back for its aggregate layers, once each: what the layer had, plus what it was presented and ceded. */
  lemma {:induction false} WrittenOnce(gross: int, layers: seq<Layer>, m: nat, n: nat)
    requires DistinctLayerIds(layers) && m < |layers| && n <= |layers|
    ensures var loss := Remaining(gross, layers[..m]);
            Written(PerLayer(gross, layers[..n]), layers[m].id)
            == if m < n && layers[m].params.Aggregate?
               then Some(LayerState(layers[m].state.consumedGross + loss, layers[m].state.consumedCeded + Ceded(loss, layers[m]))) else None
  {
    if n > 0 {
      WrittenOnce(gross, layers, m, n - 1);
      CedeSnoc(gross, layers, n - 1);
      WrittenSnoc(PerLayer(gross, layers[..n - 1]), ApplyLayer(Remaining(gross, layers[..n - 1]), layers[n - 1]), layers[m].id);
    }
  }

  lemma WrittenSnoc(perLayer: seq<LayerCession>, c: LayerCession, id: nat)
    ensures Written(perLayer + [c], id) == if c.layerId == id && c.nextState.Some? then c.nextState else Written(perLayer, id)
  {
    assert (perLayer + [c])[..|perLayer|] == perLayer;
  }

  /** What a stored layer's state becomes, when its program is ceded to. */
  ghost predicate StateFollows(before: Layer, after: Layer, perLayer: seq<LayerCession>) {
    && after.id == before.id && after.order == before.order && after.kind == before.kind && after.params == before.params
    && (!before.params.Aggregate? ==> after.state == before.state)
    && (before.params.Aggregate? ==>
          var was := if before.kind == AGGREGATE then before.state else LayerState(0, 0);
          after.state == LayerState(was.consumedGross + PresentedIn(perLayer, before.id), was.consumedCeded + CededIn(perLayer, before.id)))
  }

  lemma LayerFollows(gross: int, layers: seq<Layer>, i: nat)
    requires DistinctLayerIds(layers) && i < |layers|
    ensures var perLayer := PerLayer(gross, SortByOrder(LoadAll(layers)));
            StateFollows(layers[i], Updated(layers[i], perLayer), perLayer)
  {
    var loaded := LoadAll(layers);
    var sorted := SortByOrder(loaded);
    assert DistinctLayerIds(loaded);
    DistinctAfterSort(loaded);
    var m := SortedPosition(loaded, i);
    assert sorted[..|sorted|] == sorted;
    WrittenOnce(gross, sorted, m, |sorted|);
    MentionedOnce(gross, sorted, m, |sorted|);
    UpdatedIsWritten(layers[i], PerLayer(gross, sorted));
  }

  /** The results of a program's latest cession. */
  function Latest(s: Registry, program: nat): seq<LayerCession> {
    if program < |s.cessions| && s.cessions[program] != [] then s.cessions[program][|s.cessions[program]| - 1].perLayer else []
  }

  lemma CedeStores(s: Registry, caller: string, program: nat, gross: int)
    requires Valid(s) && program < |s.programs| && s.programs[program].owner == caller && 0 <= gross
    ensures var after := Step(s, Cede(caller, program, gross)).0;
            var perLayer := PerLayer(gross, SortByOrder(LoadAll(s.programs[program].layers)));
            && program < |after.programs| && after.programs[program].layers == UpdatedAll(s.programs[program].layers, perLayer)
            && Latest(after, program) == perLayer
  {
    CedeAccepted(s, caller, program, gross);
    CedeEffect(s, caller, program, gross);
  }

  /** After a cession each stored layer keeps its terms, and an aggregate one has consumed what it was presented and what it ceded. */
  lemma CedeWritesState(s: Registry, caller: string, program: nat, gross: int, i: nat)
    requires Valid(s) && program < |s.programs| && s.programs[program].owner == caller && 0 <= gross
    requires i < |s.programs[program].layers|
    ensures var after := Step(s, Cede(caller, program, gross)).0;
            && program < |after.programs| && i < |after.programs[program].layers|
            && StateFollows(s.programs[program].layers[i], after.programs[program].layers[i], Latest(after, program))
  {
    CedeStores(s, caller, program, gross);
    IdsDifferInProgram(s.programs, program);
    LayerFollows(gross, s.programs[program].layers, i);
  }

  lemma IdsDifferInProgram(programs: seq<Program>, p: nat)
    requires DistinctIds(programs) && p < |programs|
    ensures DistinctLayerIds(programs[p].layers)
  {
  }
}
