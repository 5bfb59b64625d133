/**
 The stateful reinsurance service (`apps/api/src/reinsurance/reinsurance.service.ts`) with its in-memory
 repository as fields. Every method performs exactly the corresponding step of `ReinsuranceMachine`.
 */
module ReinsuranceServices {
  import opened Prelude
  import opened Reinsurance
  import opened ReinsuranceMachine

  class ReinsuranceService {
    var programs: seq<Program>
    var cessions: seq<seq<ProgramCession>>
    var nextId: nat

    function State(): Registry
      reads this
    {
      Registry(programs, cessions, nextId)
    }

    constructor ()
      ensures State() == EMPTY
    {
      programs, cessions, nextId := [], [], 0;
    }

    method CreateProgram(caller: string, inputs: seq<LayerInput>) returns (r: Outcome)
      modifies this
      ensures (State(), r) == Step(old(State()), Command.CreateProgram(caller, inputs))
    {
      for i := 0 to |inputs|
        invariant State() == old(State())
        invariant forall k :: 0 <= k < i ==> ValidParams(inputs[k].params)
      {
        if !ValidParams(inputs[i].params) {
          return Err(InvalidParameter);
        }
      }
      if !DistinctOrders(inputs) {
        return Err(DuplicateLayerOrder);
      }
      var id := |programs|;
      programs := programs + [Program(caller, NewLayers(inputs, nextId))];
      cessions := cessions + [[]];
      nextId := nextId + |inputs|;
      return Ok(id);
    }

    method Cede(caller: string, program: nat, gross: int) returns (r: Outcome)
      modifies this
      ensures (State(), r) == Step(old(State()), Command.Cede(caller, program, gross))
    {
      if program >= |programs| || program >= |cessions| {
        return Err(ProgramNotFound);
      }
      if programs[program].owner != caller {
        return Err(Unauthorised);
      }
      LoadKeepsValid(programs[program].layers);
      var computed := ApplyReinsuranceProgram(gross, LoadAll(programs[program].layers));
      if computed.Err? {
        return Err(computed.error);
      }
      var result := computed.value;
      for i := 0 to |result.perLayer|
        invariant programs == WriteBack(old(programs), result.perLayer[..i])
        invariant cessions == old(cessions) && nextId == old(nextId)
      {
        assert result.perLayer[..i + 1][..i] == result.perLayer[..i];
        if result.perLayer[i].nextState.Some? {
          UpdateLayerAggregateState(result.perLayer[i].layerId, result.perLayer[i].nextState.value);
        }
      }
      assert result.perLayer[..|result.perLayer|] == result.perLayer;
      var position := |cessions[program]|;
      cessions := cessions[program := cessions[program] + [result]];
      return Ok(position);
    }

    /** The repository loop: the first layer with this id, in the first program that has one. */
    method UpdateLayerAggregateState(id: nat, state: LayerState)
      modifies this`programs
      ensures programs == StoreState(old(programs), id, state)
    {
      for p := 0 to |programs|
        invariant programs == old(programs)
        invariant forall q :: 0 <= q < p ==> !HasLayer(programs[q].layers, id)
      {
        var i := FindLayer(programs[p].layers, id, 0);
        if i < |programs[p].layers| {
          programs := programs[p := programs[p].(layers := programs[p].layers[i := programs[p].layers[i].(state := state)])];
          return;
        }
      }
    }
  }
}
