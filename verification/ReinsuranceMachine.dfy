/**
 The reinsurance service as a state machine (`apps/api/src/reinsurance/reinsurance.service.ts` over
 `InMemoryReinsuranceRepository`). A program's identifier is its position; layer identifiers come from
 a counter, so that a new one is fresh across all programs.
 */
module ReinsuranceMachine {
  import opened Prelude
  import opened Reinsurance
  import opened AggregateLayers

  datatype LayerInput = LayerInput(order: int, kind: Kind, params: Params)

  datatype Program = Program(owner: string, layers: seq<Layer>)

  datatype Registry = Registry(programs: seq<Program>, cessions: seq<seq<ProgramCession>>, nextId: nat)

  datatype Command =
    | CreateProgram(caller: string, inputs: seq<LayerInput>)
    | Cede(caller: string, program: nat, gross: int)

  type Outcome = Result<nat, ReinsuranceError>

  const EMPTY := Registry([], [], 0)

  // ---------------------------------------------------------------- writing aggregate state back

  predicate HasLayer(layers: seq<Layer>, id: nat) {
    exists i :: 0 <= i < |layers| && layers[i].id == id
  }

  /** The first position from `k` on that holds layer `id`, or the length. */
  function FindLayer(layers: seq<Layer>, id: nat, k: nat): (r: nat)
    requires k <= |layers|
    ensures k <= r <= |layers|
    ensures r < |layers| ==> layers[r].id == id
    ensures forall i :: k <= i < r ==> layers[i].id != id
    decreases |layers| - k
  {
    if k == |layers| || layers[k].id == id then k else FindLayer(layers, id, k + 1)
  }

  function FindProgram(programs: seq<Program>, id: nat, k: nat): (r: nat)
    requires k <= |programs|
    ensures k <= r <= |programs|
    ensures r < |programs| ==> HasLayer(programs[r].layers, id)
    ensures forall p :: k <= p < r ==> !HasLayer(programs[p].layers, id)
    decreases |programs| - k
  {
    if k == |programs| || HasLayer(programs[k].layers, id) then k else FindProgram(programs, id, k + 1)
  }

  /** `updateLayerAggregateState`: the first layer with this id, in the first program that has one. */
  function StoreState(programs: seq<Program>, id: nat, state: LayerState): seq<Program> {
    var p := FindProgram(programs, id, 0);
    if p == |programs| then programs
    else
      var layers := programs[p].layers;
      var i := FindLayer(layers, id, 0);
      if i == |layers| then programs
      else programs[p := programs[p].(layers := layers[i := layers[i].(state := state)])]
  }

  function WriteBack(programs: seq<Program>, perLayer: seq<LayerCession>): seq<Program> {
    if perLayer == [] then programs
    else
      var before, last := WriteBack(programs, perLayer[..|perLayer| - 1]), perLayer[|perLayer| - 1];
      if last.nextState.Some? then StoreState(before, last.layerId, last.nextState.value) else before
  }

  // ---------------------------------------------------------------- steps

  predicate DistinctOrders(inputs: seq<LayerInput>) {
    forall i, j :: 0 <= i < j < |inputs| ==> inputs[i].order != inputs[j].order
  }

  function NewLayers(inputs: seq<LayerInput>, nextId: nat): seq<Layer> {
    seq(|inputs|, i requires 0 <= i < |inputs| => Layer(nextId + i, inputs[i].order, inputs[i].kind, inputs[i].params, UNUSED))
  }

  function CreateStep(s: Registry, caller: string, inputs: seq<LayerInput>): (Registry, Outcome) {
    if exists i :: 0 <= i < |inputs| && !ValidParams(inputs[i].params) then (s, Err(InvalidParameter))
    else if !DistinctOrders(inputs) then (s, Err(DuplicateLayerOrder))
    else
      (Registry(s.programs + [Program(caller, NewLayers(inputs, s.nextId))], s.cessions + [[]], s.nextId + |inputs|),
       Ok(|s.programs|))
  }

  /** A stored layer as the service hands it to the calculation: its state goes along only if the stored kind says so. */
  function Loaded(layer: Layer): Layer {
    layer.(state := if layer.kind == AGGREGATE then layer.state else UNUSED)
  }

  function LoadAll(layers: seq<Layer>): (r: seq<Layer>)
    ensures |r| == |layers|
  {
    seq(|layers|, i requires 0 <= i < |layers| => Loaded(layers[i]))
  }

  lemma LoadKeepsValid(layers: seq<Layer>)
    ensures ValidLayers(LoadAll(layers)) <==> ValidLayers(layers)
  {
    assert forall i :: 0 <= i < |layers| ==> LoadAll(layers)[i].params == layers[i].params;
  }

  ghost function CedeStep(s: Registry, caller: string, program: nat, gross: int): (Registry, Outcome) {
    if program >= |s.programs| || program >= |s.cessions| then (s, Err(ProgramNotFound))
    else if s.programs[program].owner != caller then (s, Err(Unauthorised))
    else if gross < 0 then (s, Err(NegativeLoss))
    else if !ValidLayers(s.programs[program].layers) then (s, Err(InvalidParameter))
    else
      var result := CedeInOrder(gross, SortByOrder(LoadAll(s.programs[program].layers)));
      (s.(programs := WriteBack(s.programs, result.perLayer),
          cessions := s.cessions[program := s.cessions[program] + [result]]),
       Ok(|s.cessions[program]|))
  }

  ghost function Step(s: Registry, c: Command): (Registry, Outcome) {
    match c
    case CreateProgram(caller, inputs) => CreateStep(s, caller, inputs)
    case Cede(caller, program, gross) => CedeStep(s, caller, program, gross)
  }

  ghost function Run(s: Registry, commands: seq<Command>): Registry {
    if commands == [] then s else Step(Run(s, commands[..|commands| - 1]), commands[|commands| - 1]).0
  }

  // ---------------------------------------------------------------- the effect of a write-back

  /** No two layers anywhere share an identifier. */
  ghost predicate DistinctIds(programs: seq<Program>) {
    forall p, i, q, j | 0 <= p < |programs| && 0 <= i < |programs[p].layers| && 0 <= q < |programs| && 0 <= j < |programs[q].layers| ::
      programs[p].layers[i].id == programs[q].layers[j].id ==> p == q && i == j
  }

  /** A stored layer after the states in a cession have been written back to it. */
  function Updated(layer: Layer, perLayer: seq<LayerCession>): (r: Layer)
    ensures r.id == layer.id && r.order == layer.order && r.kind == layer.kind && r.params == layer.params
  {
    if perLayer == [] then layer
    else
      var before, last := Updated(layer, perLayer[..|perLayer| - 1]), perLayer[|perLayer| - 1];
      if last.layerId == layer.id && last.nextState.Some? then before.(state := last.nextState.value) else before
  }

  function UpdatedAll(layers: seq<Layer>, perLayer: seq<LayerCession>): (r: seq<Layer>)
    ensures |r| == |layers|
  {
    seq(|layers|, i requires 0 <= i < |layers| => Updated(layers[i], perLayer))
  }

  lemma StoreStateAt(programs: seq<Program>, p: nat, i: nat, state: LayerState)
    requires DistinctIds(programs) && p < |programs| && i < |programs[p].layers|
    ensures var layers := programs[p].layers;
            StoreState(programs, layers[i].id, state)
            == programs[p := programs[p].(layers := layers[i := layers[i].(state := state)])]
  {
    var id := programs[p].layers[i].id;
    assert HasLayer(programs[p].layers, id);
    var q := FindProgram(programs, id, 0);
    var j := FindLayer(programs[q].layers, id, 0);
    assert programs[q].layers[j].id == id;
  }

  /** Writing a cession back touches exactly the aggregate layers of its own program. */
  lemma {:induction false} WriteBackIsLocal(programs: seq<Program>, p: nat, perLayer: seq<LayerCession>)
    requires DistinctIds(programs) && p < |programs|
    requires forall m :: 0 <= m < |perLayer| ==> HasLayer(programs[p].layers, perLayer[m].layerId)
    ensures WriteBack(programs, perLayer) == programs[p := programs[p].(layers := UpdatedAll(programs[p].layers, perLayer))]
  {
    var layers := programs[p].layers;
    if perLayer == [] {
      assert UpdatedAll(layers, []) == layers;
    } else {
      var earlier, last := perLayer[..|perLayer| - 1], perLayer[|perLayer| - 1];
      WriteBackIsLocal(programs, p, earlier);
      var before := WriteBack(programs, earlier);
      var i :| 0 <= i < |layers| && layers[i].id == last.layerId;
      UpdateOne(programs, p, earlier, last, i);
      assert perLayer == earlier + [last];
      if last.nextState.Some? {
        StoreStateAt(before, p, i, last.nextState.value);
        var after := before[p].(layers := UpdatedAll(layers, perLayer));
        assert before[p := after] == programs[p := after];
      }
    }
  }

  lemma UpdateOne(programs: seq<Program>, p: nat, earlier: seq<LayerCession>, last: LayerCession, i: nat)
    requires DistinctIds(programs) && p < |programs| && i < |programs[p].layers|
    requires programs[p].layers[i].id == last.layerId
    ensures var layers := programs[p].layers;
            var before := UpdatedAll(layers, earlier);
            && DistinctIds(programs[p := programs[p].(layers := before)])
            && UpdatedAll(layers, earlier + [last])
               == (if last.nextState.Some? then before[i := before[i].(state := last.nextState.value)] else before)
  {
    assert (earlier + [last])[..|earlier|] == earlier;
  }
}
