/** Cession runs: stored aggregate state against recorded cessions, and independence of storage order. */
module ReinsuranceRuns {
  import opened Sequences
  import opened Reinsurance
  import opened AggregateLayers
  import opened ReinsuranceMachine

  // ---------------------------------------------------------------- what a cession says about one layer

  function PresentedIn(perLayer: seq<LayerCession>, id: nat): int {
    if perLayer == [] then 0
    else
      var last := perLayer[|perLayer| - 1];
      PresentedIn(perLayer[..|perLayer| - 1], id) + if last.layerId == id then last.presented else 0
  }

  function CededIn(perLayer: seq<LayerCession>, id: nat): int {
    if perLayer == [] then 0
    else
      var last := perLayer[|perLayer| - 1];
      CededIn(perLayer[..|perLayer| - 1], id) + if last.layerId == id then last.ceded else 0
  }

  /** The losses presented to layer `id` over a program's recorded cessions. */
  function PresentedTo(cessions: seq<ProgramCession>, id: nat): int {
    if cessions == [] then 0
    else PresentedTo(cessions[..|cessions| - 1], id) + PresentedIn(cessions[|cessions| - 1].perLayer, id)
  }

  /** What layer `id` ceded over a program's recorded cessions. */
  function CededBy(cessions: seq<ProgramCession>, id: nat): int {
    if cessions == [] then 0
    else CededBy(cessions[..|cessions| - 1], id) + CededIn(cessions[|cessions| - 1].perLayer, id)
  }

  lemma RecordOneMore(cessions: seq<ProgramCession>, c: ProgramCession, id: nat)
    ensures PresentedTo(cessions + [c], id) == PresentedTo(cessions, id) + PresentedIn(c.perLayer, id)
    ensures CededBy(cessions + [c], id) == CededBy(cessions, id) + CededIn(c.perLayer, id)
  {
    assert (cessions + [c])[..|cessions|] == cessions;
  }

  ghost predicate DistinctLayerIds(layers: seq<Layer>) {
    forall i, j :: 0 <= i < j < |layers| ==> layers[i].id != layers[j].id
  }

  /** What a list of layer results says about one layer: nothing, or that it was presented `loss`. */
  ghost predicate Mentions(layer: Layer, perLayer: seq<LayerCession>, mentioned: bool, loss: int) {
    && PresentedIn(perLayer, layer.id) == (if mentioned then loss else 0)
    && CededIn(perLayer, layer.id) == (if mentioned then Ceded(loss, layer) else 0)
    && Updated(layer, perLayer)
       == (if mentioned && layer.params.Aggregate?
           then layer.(state := LayerState(layer.state.consumedGross + loss, layer.state.consumedCeded + Ceded(loss, layer)))
           else layer)
  }

  lemma MentionAnother(layer: Layer, perLayer: seq<LayerCession>, mentioned: bool, loss: int, c: LayerCession)
    requires Mentions(layer, perLayer, mentioned, loss) && c.layerId != layer.id
    ensures Mentions(layer, perLayer + [c], mentioned, loss)
  {
    assert (perLayer + [c])[..|perLayer|] == perLayer;
  }

  lemma MentionNow(layer: Layer, perLayer: seq<LayerCession>, loss: int)
    requires Mentions(layer, perLayer, false, loss)
    ensures Mentions(layer, perLayer + [ApplyLayer(loss, layer)], true, loss)
  {
    assert (perLayer + [ApplyLayer(loss, layer)])[..|perLayer|] == perLayer;
  }

  /** The first `n` layers of a cession mention layer `m` once if `m < n`, and not at all otherwise. */
  lemma {:induction false} MentionedOnce(gross: int, layers: seq<Layer>, m: nat, n: nat)
    requires DistinctLayerIds(layers) && m < |layers| && n <= |layers|
    ensures Mentions(layers[m], PerLayer(gross, layers[..n]), m < n, Remaining(gross, layers[..m]))
  {
    if n > 0 {
      var loss := Remaining(gross, layers[..m]);
      MentionedOnce(gross, layers, m, n - 1);
      CedeSnoc(gross, layers, n - 1);
      var earlier := PerLayer(gross, layers[..n - 1]);
      if n - 1 == m {
        MentionNow(layers[m], earlier, loss);
      } else {
        MentionAnother(layers[m], earlier, m < n - 1, loss, ApplyLayer(Remaining(gross, layers[..n - 1]), layers[n - 1]));
      }
    }
  }

  // ---------------------------------------------------------------- invariant

  /** The stored state of a layer that is aggregate by parameters and kind is the total of its recorded cessions, in closed form. */
  ghost predicate SoundLayer(layer: Layer, cessions: seq<ProgramCession>) {
    && ValidParams(layer.params)
    && (layer.params.Aggregate? && layer.kind == AGGREGATE ==>
          && layer.state.consumedGross == PresentedTo(cessions, layer.id)
          && layer.state.consumedCeded == CededBy(cessions, layer.id)
          && InClosedForm(layer.state, layer.params.attachment, layer.params.limit))
  }

  ghost predicate SoundCession(c: ProgramCession) {
    && Chain(c.gross, c.perLayer, c.netRetained)
    && Sum(CededAmounts(c.perLayer)) == c.totalCeded
    && c.totalCeded + c.netRetained == c.gross
    && 0 <= c.netRetained <= c.gross
  }

  ghost predicate SoundProgram(program: Program, cessions: seq<ProgramCession>) {
    && UniqueOrders(program.layers)
    && (forall i :: 0 <= i < |program.layers| ==> SoundLayer(program.layers[i], cessions))
    && (forall i :: 0 <= i < |cessions| ==> SoundCession(cessions[i]))
  }

  /** Layer ids are distinct across programs and below the counter; recorded cessions mention no later ids. */
  ghost predicate Valid(s: Registry) {
    && |s.cessions| == |s.programs|
    && DistinctIds(s.programs)
    && (forall p, i :: 0 <= p < |s.programs| && 0 <= i < |s.programs[p].layers| ==> s.programs[p].layers[i].id < s.nextId)
    && (forall p :: 0 <= p < |s.programs| ==> SoundProgram(s.programs[p], s.cessions[p]))
  }

  /** Where a stored layer ends up in application order. */
  lemma SortedPosition(layers: seq<Layer>, i: nat) returns (m: nat)
    requires i < |layers|
    ensures m < |layers| && SortByOrder(layers)[m] == layers[i]
  {
    SortKeeps(layers);
    assert layers[i] in multiset(layers);
    assert layers[i] in SortByOrder(layers);
    m :| 0 <= m < |layers| && SortByOrder(layers)[m] == layers[i];
  }

  /** The loss presented to the m-th layer is non-negative. */
  lemma PresentedNonNegative(gross: int, layers: seq<Layer>, m: nat)
    requires 0 <= gross && ValidLayers(layers) && m <= |layers|
    ensures 0 <= Remaining(gross, layers[..m])
  {
    ProgramMonotone(gross, gross, layers[..m]);
  }

  /** After a cession, written back and recorded, the layer's state is again the total of its cessions. */
  lemma CessionKeepsLayer(gross: int, sorted: seq<Layer>, m: nat, cessions: seq<ProgramCession>)
    requires 0 <= gross && m < |sorted| && DistinctLayerIds(sorted) && ValidLayers(sorted)
    requires SoundLayer(sorted[m], cessions)
    ensures SoundLayer(Updated(sorted[m], PerLayer(gross, sorted)), cessions + [CedeInOrder(gross, sorted)])
  {
    MentionedOnce(gross, sorted, m, |sorted|);
    assert sorted[..|sorted|] == sorted;
    PresentedNonNegative(gross, sorted, m);
    MentionKeepsLayer(sorted[m], Remaining(gross, sorted[..m]), cessions, CedeInOrder(gross, sorted));
  }

  lemma MentionKeepsLayer(layer: Layer, loss: int, cessions: seq<ProgramCession>, c: ProgramCession)
    requires SoundLayer(layer, cessions) && 0 <= loss && Mentions(layer, c.perLayer, true, loss)
    ensures SoundLayer(Updated(layer, c.perLayer), cessions + [c])
  {
    RecordOneMore(cessions, c, layer.id);
    if layer.params.Aggregate? && layer.kind == AGGREGATE {
      AggregateStep(layer.state, loss, layer.params.attachment, layer.params.limit);
    }
  }

  /** The same for the stored layer, whether or not its state went along. */
  lemma CessionKeepsStored(gross: int, layer: Layer, sorted: seq<Layer>, m: nat, cessions: seq<ProgramCession>)
    requires 0 <= gross && m < |sorted| && DistinctLayerIds(sorted) && ValidLayers(sorted)
    requires sorted[m] == Loaded(layer) && SoundLayer(layer, cessions)
    ensures SoundLayer(Updated(layer, PerLayer(gross, sorted)), cessions + [CedeInOrder(gross, sorted)])
  {
    if layer.kind == AGGREGATE {
      assert Loaded(layer) == layer;
      CessionKeepsLayer(gross, sorted, m, cessions);
    }
  }

  lemma CedeKeepsProgram(program: Program, gross: int, cessions: seq<ProgramCession>)
    requires SoundProgram(program, cessions) && DistinctLayerIds(program.layers) && 0 <= gross
    ensures ValidLayers(program.layers)
    ensures var result := CedeInOrder(gross, SortByOrder(LoadAll(program.layers)));
            SoundProgram(program.(layers := UpdatedAll(program.layers, result.perLayer)), cessions + [result])
  {
    var loaded := LoadAll(program.layers);
    var sorted := SortByOrder(loaded);
    var result := CedeInOrder(gross, sorted);
    assert ValidLayers(program.layers) by {
      forall i | 0 <= i < |program.layers| ensures ValidParams(program.layers[i].params) {
        assert SoundLayer(program.layers[i], cessions);
      }
    }
    LoadKeepsValid(program.layers);
    assert DistinctLayerIds(loaded);
    SortKeepsValid(loaded);
    DistinctAfterSort(loaded);
    var updated := UpdatedAll(program.layers, result.perLayer);
    forall i | 0 <= i < |updated| ensures SoundLayer(updated[i], cessions + [result]) {
      var m := SortedPosition(loaded, i);
      CessionKeepsStored(gross, program.layers[i], sorted, m, cessions);
    }
    ProgramConserves(gross, sorted);
    ProgramMonotone(gross, gross, sorted);
  }

  lemma DistinctAfterSort(layers: seq<Layer>)
    requires DistinctLayerIds(layers)
    ensures DistinctLayerIds(SortByOrder(layers))
  {
    var sorted := SortByOrder(layers);
    SortKeeps(layers);
    forall i, j | 0 <= i < j < |sorted| ensures sorted[i].id != sorted[j].id {
      assert sorted[i] in multiset(sorted) && sorted[j] in multiset(sorted);
      assert sorted[i] in layers && sorted[j] in layers;
      if sorted[i] == sorted[j] {
        TwiceIfRepeated(sorted, i, j);
        OnceIfDistinct(layers, sorted[i]);
      }
    }
  }

  lemma TwiceIfRepeated(layers: seq<Layer>, i: nat, j: nat)
    requires i < j < |layers| && layers[i] == layers[j]
    ensures multiset(layers)[layers[i]] >= 2
  {
    assert layers == layers[..j] + [layers[j]] + layers[j + 1..];
    assert layers[i] in layers[..j];
  }

  lemma {:induction false} OnceIfDistinct(layers: seq<Layer>, x: Layer)
    requires DistinctLayerIds(layers)
    ensures multiset(layers)[x] <= 1
  {
    if layers != [] {
      var last := |layers| - 1;
      ButLast(layers);
      OnceIfDistinct(layers[..last], x);
      assert forall i :: 0 <= i < last ==> layers[i].id != layers[last].id;
      assert layers[last] !in layers[..last];
    }
  }

  // ---------------------------------------------------------------- steps and runs

  lemma NewProgramIsSound(caller: string, inputs: seq<LayerInput>, nextId: nat)
    requires DistinctOrders(inputs) && forall i :: 0 <= i < |inputs| ==> ValidParams(inputs[i].params)
    ensures SoundProgram(Program(caller, NewLayers(inputs, nextId)), [])
  {
  }

  /** Identifiers from the counter on are new everywhere. */
  lemma NewIdsAreFresh(s: Registry, caller: string, inputs: seq<LayerInput>)
    requires Valid(s)
    ensures DistinctIds(s.programs + [Program(caller, NewLayers(inputs, s.nextId))])
  {
  }

  lemma CreateKeepsValid(s: Registry, caller: string, inputs: seq<LayerInput>)
    requires Valid(s)
    ensures Valid(CreateStep(s, caller, inputs).0)
  {
    var after := CreateStep(s, caller, inputs).0;
    if after != s {
      NewProgramIsSound(caller, inputs, s.nextId);
      NewIdsAreFresh(s, caller, inputs);
      forall p | 0 <= p < |after.programs| ensures SoundProgram(after.programs[p], after.cessions[p]) {
        assert p < |s.programs| ==> after.programs[p] == s.programs[p] && after.cessions[p] == s.cessions[p];
      }
    }
  }

  /** What `cede` does to the registry: its own program's layers, one more cession, and nothing else. */
  lemma CedeEffect(s: Registry, caller: string, program: nat, gross: int)
    requires Valid(s) && CedeStep(s, caller, program, gross).1.Ok?
    ensures var layers := s.programs[program].layers;
            var result := CedeInOrder(gross, SortByOrder(LoadAll(layers)));
            CedeStep(s, caller, program, gross).0
            == s.(programs := s.programs[program := s.programs[program].(layers := UpdatedAll(layers, result.perLayer))],
                  cessions := s.cessions[program := s.cessions[program] + [result]])
  {
    var layers := s.programs[program].layers;
    var perLayer := PerLayer(gross, SortByOrder(LoadAll(layers)));
    forall m | 0 <= m < |perLayer| ensures HasLayer(layers, perLayer[m].layerId) {
      CessionNamesStored(gross, layers, m);
    }
    WriteBackIsLocal(s.programs, program, perLayer);
  }

  /** Each result of a cession names one of the stored layers. */
  lemma CessionNamesStored(gross: int, layers: seq<Layer>, m: nat)
    requires m < |layers|
    ensures HasLayer(layers, PerLayer(gross, SortByOrder(LoadAll(layers)))[m].layerId)
  {
    var loaded, sorted := LoadAll(layers), SortByOrder(LoadAll(layers));
    PerLayerIds(gross, sorted, m);
    SortKeeps(loaded);
    assert sorted[m] in multiset(loaded);
    var i :| 0 <= i < |loaded| && loaded[i] == sorted[m];
    assert layers[i].id == sorted[m].id;
  }

  lemma {:induction false} PerLayerIds(gross: int, layers: seq<Layer>, m: nat)
    requires m < |layers|
    ensures PerLayer(gross, layers)[m].layerId == layers[m].id
  {
    if m < |layers| - 1 {
      PerLayerIds(gross, layers[..|layers| - 1], m);
    }
  }

  lemma ReplacedProgramKeepsIds(s: Registry, program: nat, perLayer: seq<LayerCession>, cessions: seq<seq<ProgramCession>>)
    requires Valid(s) && program < |s.programs| && |cessions| == |s.programs|
    requires forall p :: 0 <= p < |cessions| && p != program ==> cessions[p] == s.cessions[p]
    requires SoundProgram(s.programs[program].(layers := UpdatedAll(s.programs[program].layers, perLayer)), cessions[program])
    ensures Valid(s.(programs := s.programs[program := s.programs[program].(layers := UpdatedAll(s.programs[program].layers, perLayer))],
                     cessions := cessions))
  {
  }

  lemma CedeKeepsValid(s: Registry, caller: string, program: nat, gross: int)
    requires Valid(s)
    ensures Valid(CedeStep(s, caller, program, gross).0)
  {
    if CedeStep(s, caller, program, gross).1.Ok? {
      CedeEffect(s, caller, program, gross);
      var layers := s.programs[program].layers;
      var result := CedeInOrder(gross, SortByOrder(LoadAll(layers)));
      assert DistinctLayerIds(layers);
      CedeKeepsProgram(s.programs[program], gross, s.cessions[program]);
      ReplacedProgramKeepsIds(s, program, result.perLayer, s.cessions[program := s.cessions[program] + [result]]);
    }
  }

  /**
   Cession runs: after any sequence of calls each stored aggregate layer of that kind has consumed exactly
   what was presented to it and ceded exactly what it ceded over the recorded cessions, in closed form.
   */
  lemma {:induction false} RunKeepsValid(s: Registry, commands: seq<Command>)
    requires Valid(s)
    ensures Valid(Run(s, commands))
  {
    if commands != [] {
      var earlier, last := commands[..|commands| - 1], commands[|commands| - 1];
      RunKeepsValid(s, earlier);
      match last
      case CreateProgram(caller, inputs) => CreateKeepsValid(Run(s, earlier), caller, inputs);
      case Cede(caller, program, gross) => CedeKeepsValid(Run(s, earlier), caller, program, gross);
    }
  }

  /** The limit of an aggregate layer bounds everything it ever ceded. */
  lemma AggregateLimitHolds(commands: seq<Command>, p: nat, i: nat)
    requires var s := Run(EMPTY, commands);
             && p < |s.programs| && i < |s.programs[p].layers|
             && s.programs[p].layers[i].params.Aggregate? && s.programs[p].layers[i].kind == AGGREGATE
    ensures var s := Run(EMPTY, commands);
            var layer := s.programs[p].layers[i];
            && p < |s.cessions|
            && layer.state == LayerState(PresentedTo(s.cessions[p], layer.id), CededBy(s.cessions[p], layer.id))
            && CededBy(s.cessions[p], layer.id)
               == Min(layer.params.limit, Max(0, PresentedTo(s.cessions[p], layer.id) - layer.params.attachment))
            && 0 <= CededBy(s.cessions[p], layer.id) <= layer.params.limit
  {
    RunKeepsValid(EMPTY, commands);
    var s := Run(EMPTY, commands);
    assert SoundProgram(s.programs[p], s.cessions[p]);
    assert SoundLayer(s.programs[p].layers[i], s.cessions[p]);
  }

  // ---------------------------------------------------------------- storage order

  /** The layers of one program, and its cessions, after ceding a sequence of losses. */
  function CedeAll(layers: seq<Layer>, losses: seq<nat>): (seq<Layer>, seq<ProgramCession>) {
    if losses == [] then (layers, [])
    else
      var (before, results) := CedeAll(layers, losses[..|losses| - 1]);
      var result := CedeInOrder(losses[|losses| - 1], SortByOrder(LoadAll(before)));
      (UpdatedAll(before, result.perLayer), results + [result])
  }

  lemma {:induction false} InsertUpdated(layers: seq<Layer>, x: Layer, perLayer: seq<LayerCession>)
    ensures InsertByOrder(UpdatedAll(layers, perLayer), Updated(x, perLayer)) == UpdatedAll(InsertByOrder(layers, x), perLayer)
  {
    if layers != [] {
      assert UpdatedAll(layers, perLayer)[..|layers| - 1] == UpdatedAll(layers[..|layers| - 1], perLayer);
      InsertUpdated(layers[..|layers| - 1], x, perLayer);
    }
  }

  /** Writing state back does not disturb the application order. */
  lemma {:induction false} SortUpdated(layers: seq<Layer>, perLayer: seq<LayerCession>)
    ensures SortByOrder(UpdatedAll(layers, perLayer)) == UpdatedAll(SortByOrder(layers), perLayer)
  {
    if layers != [] {
      var earlier, last := layers[..|layers| - 1], layers[|layers| - 1];
      assert UpdatedAll(layers, perLayer)[..|layers| - 1] == UpdatedAll(earlier, perLayer);
      SortUpdated(earlier, perLayer);
      InsertUpdated(SortByOrder(earlier), last, perLayer);
    }
  }

  lemma {:induction false} InsertLoaded(layers: seq<Layer>, x: Layer)
    ensures InsertByOrder(LoadAll(layers), Loaded(x)) == LoadAll(InsertByOrder(layers, x))
  {
    if layers != [] {
      assert LoadAll(layers)[..|layers| - 1] == LoadAll(layers[..|layers| - 1]);
      InsertLoaded(layers[..|layers| - 1], x);
    }
  }

  /** Nor does loading them. */
  lemma {:induction false} SortLoaded(layers: seq<Layer>)
    ensures SortByOrder(LoadAll(layers)) == LoadAll(SortByOrder(layers))
  {
    if layers != [] {
      var earlier, last := layers[..|layers| - 1], layers[|layers| - 1];
      assert LoadAll(layers)[..|layers| - 1] == LoadAll(earlier);
      SortLoaded(earlier);
      InsertLoaded(SortByOrder(earlier), last);
    }
  }

  /**
   With unique orders, a program behaves the same however its layers are stored: the same losses give
   the same cessions, layer by layer, and leave the same layers in application order.
   */
  lemma {:induction false} StorageOrderIsIrrelevant(xs: seq<Layer>, ys: seq<Layer>, losses: seq<nat>)
    requires multiset(xs) == multiset(ys) && UniqueOrders(xs)
    ensures CedeAll(xs, losses).1 == CedeAll(ys, losses).1
    ensures SortByOrder(CedeAll(xs, losses).0) == SortByOrder(CedeAll(ys, losses).0)
  {
    if losses == [] {
      SortIgnoresStorageOrder(xs, ys);
    } else {
      var earlier := losses[..|losses| - 1];
      StorageOrderIsIrrelevant(xs, ys, earlier);
      var a, b := CedeAll(xs, earlier).0, CedeAll(ys, earlier).0;
      SortLoaded(a);
      SortLoaded(b);
      var result := CedeInOrder(losses[|losses| - 1], SortByOrder(LoadAll(a)));
      SortUpdated(a, result.perLayer);
      SortUpdated(b, result.perLayer);
    }
  }

  // ---------------------------------------------------------------- a stored kind that disagrees

  /** An aggregate layer stored under another kind starts from zero every time: it is excess of loss. */
  lemma MismatchedKindIsExcess(layer: Layer, loss: nat)
    requires layer.params.Aggregate? && ValidParams(layer.params) && layer.kind != AGGREGATE
    ensures Ceded(loss, Loaded(layer)) == CededByExcess(loss, layer.params.attachment, layer.params.limit)
  {
    ExcessMeaning(loss, layer.params.attachment, layer.params.limit);
  }

  /** A program of one layer, after some losses. */
  lemma SingleLayer(layer: Layer, losses: seq<nat>)
    requires losses != []
    ensures var earlier, loss := losses[..|losses| - 1], losses[|losses| - 1];
            |CedeAll([layer], earlier).0| == 1 ==>
              var now := CedeAll([layer], earlier).0[0];
              && CedeAll([layer], losses).0 == [Updated(now, [ApplyLayer(loss, Loaded(now))])]
              && CedeAll([layer], losses).1 == CedeAll([layer], earlier).1 + [CedeInOrder(loss, [Loaded(now)])]
              && PerLayer(loss, [Loaded(now)]) == [ApplyLayer(loss, Loaded(now))]
  {
    var earlier, loss := losses[..|losses| - 1], losses[|losses| - 1];
    var before := CedeAll([layer], earlier).0;
    if |before| == 1 {
      assert LoadAll(before) == [Loaded(before[0])];
      assert SortByOrder([Loaded(before[0])]) == [Loaded(before[0])];
      assert PerLayer(loss, [Loaded(before[0])]) == [ApplyLayer(loss, Loaded(before[0]))];
    }
  }

  lemma {:induction false} SingleLayerSound(layer: Layer, losses: seq<nat>)
    requires SoundLayer(layer, [])
    ensures var (layers, cessions) := CedeAll([layer], losses);
            && |layers| == 1 && SoundLayer(layers[0], cessions)
            && layers[0].id == layer.id && layers[0].kind == layer.kind && layers[0].params == layer.params
  {
    if losses != [] {
      var earlier, loss := losses[..|losses| - 1], losses[|losses| - 1];
      SingleLayerSound(layer, earlier);
      SingleLayer(layer, losses);
      var now := CedeAll([layer], earlier).0[0];
      CessionKeepsStored(loss, now, [Loaded(now)], 0, CedeAll([layer], earlier).1);
    }
  }

  lemma CededByOne(cessions: seq<ProgramCession>, c: ProgramCession, cession: LayerCession)
    requires c.perLayer == [cession]
    ensures CededBy(cessions + [c], cession.layerId) == CededBy(cessions, cession.layerId) + cession.ceded
  {
    RecordOneMore(cessions, c, cession.layerId);
    assert CededIn([cession], cession.layerId) == cession.ceded;
  }

  /** One more loss that reaches the top of the layer cedes the limit once more. */
  lemma MismatchedKindCedesAgain(layer: Layer, losses: seq<nat>)
    requires layer.params.Aggregate? && SoundLayer(layer, []) && layer.kind != AGGREGATE
    requires losses != [] && losses[|losses| - 1] == layer.params.attachment + layer.params.limit
    ensures CededBy(CedeAll([layer], losses).1, layer.id)
         == CededBy(CedeAll([layer], losses[..|losses| - 1]).1, layer.id) + layer.params.limit
  {
    var earlier, top := losses[..|losses| - 1], losses[|losses| - 1];
    SingleLayerSound(layer, earlier);
    SingleLayer(layer, losses);
    var now := CedeAll([layer], earlier).0[0];
    MismatchedKindIsExcess(now, top);
    CededByOne(CedeAll([layer], earlier).1, CedeInOrder(top, [Loaded(now)]), ApplyLayer(top, Loaded(now)));
  }

  /** Under another kind, each loss that reaches the top of the layer cedes its whole limit. */
  lemma {:induction false} MismatchedKindNeverFills(layer: Layer, losses: seq<nat>)
    requires layer.params.Aggregate? && SoundLayer(layer, []) && layer.kind != AGGREGATE
    requires forall i :: 0 <= i < |losses| ==> losses[i] == layer.params.attachment + layer.params.limit
    ensures CededBy(CedeAll([layer], losses).1, layer.id) == layer.params.limit * |losses|
  {
    if losses != [] {
      MismatchedKindNeverFills(layer, losses[..|losses| - 1]);
      MismatchedKindCedesAgain(layer, losses);
      assert layer.params.limit * (|losses| - 1) + layer.params.limit == layer.params.limit * |losses|;
    }
  }

  /** Exactly when the limit of an aggregate layer bounds what it ever cedes: when it is stored under its own kind. */
  lemma LimitHoldsIffKindAgrees(layer: Layer)
    requires layer.params.Aggregate? && ValidParams(layer.params) && layer.state == UNUSED
    ensures (forall losses: seq<nat> :: CededBy(CedeAll([layer], losses).1, layer.id) <= layer.params.limit)
       <==> layer.kind == AGGREGATE
  {
    if layer.kind == AGGREGATE {
      forall losses: seq<nat> ensures CededBy(CedeAll([layer], losses).1, layer.id) <= layer.params.limit {
        SingleLayerSound(layer, losses);
      }
    } else {
      var losses: seq<nat> := seq(2, i => layer.params.attachment + layer.params.limit);
      MismatchedKindNeverFills(layer, losses);
    }
  }

  // ---------------------------------------------------------------- the same of the service's runs

  /** A cedant presenting losses to one of its programs, one call each. */
  function Cedes(caller: string, program: nat, losses: seq<nat>): seq<Command> {
    seq(|losses|, i requires 0 <= i < |losses| => Cede(caller, program, losses[i]))
  }

  lemma CedeAccepted(s: Registry, caller: string, program: nat, gross: nat)
    requires Valid(s) && program < |s.programs| && s.programs[program].owner == caller
    ensures CedeStep(s, caller, program, gross).1.Ok?
  {
    assert SoundProgram(s.programs[program], s.cessions[program]);
    forall i | 0 <= i < |s.programs[program].layers| ensures ValidParams(s.programs[program].layers[i].params) {
      assert SoundLayer(s.programs[program].layers[i], s.cessions[program]);
    }
  }

  /** The registry with the layers of one program replaced, and results added to its cessions. */
  ghost function WithCessions(s: Registry, program: nat, layers: seq<Layer>, results: seq<ProgramCession>): Registry
    requires program < |s.programs| == |s.cessions|
  {
    s.(programs := s.programs[program := s.programs[program].(layers := layers)],
       cessions := s.cessions[program := s.cessions[program] + results])
  }

  lemma NothingCeded(s: Registry, program: nat)
    requires program < |s.programs| == |s.cessions|
    ensures WithCessions(s, program, s.programs[program].layers, []) == s
  {
    assert s.cessions[program] + [] == s.cessions[program];
  }

  lemma OneMoreCession(s: Registry, caller: string, program: nat, layers: seq<Layer>, results: seq<ProgramCession>, loss: nat)
    requires program < |s.programs| == |s.cessions| && s.programs[program].owner == caller
    requires Valid(WithCessions(s, program, layers, results))
    ensures var result := CedeInOrder(loss, SortByOrder(LoadAll(layers)));
            var after := Step(WithCessions(s, program, layers, results), Cede(caller, program, loss)).0;
            && Valid(after)
            && after == WithCessions(s, program, UpdatedAll(layers, result.perLayer), results + [result])
  {
    var before := WithCessions(s, program, layers, results);
    var result := CedeInOrder(loss, SortByOrder(LoadAll(layers)));
    CedeAccepted(before, caller, program, loss);
    CedeEffect(before, caller, program, loss);
    CedeKeepsValid(before, caller, program, loss);
    assert s.cessions[program] + results + [result] == s.cessions[program] + (results + [result]);
  }

  /** A run of cessions stores the layers and appends the results of `CedeAll`. */
  lemma {:induction false} RunIsCedeAll(s: Registry, caller: string, program: nat, losses: seq<nat>)
    requires Valid(s) && program < |s.programs| && s.programs[program].owner == caller
    ensures var (layers, results) := CedeAll(s.programs[program].layers, losses);
            && Run(s, Cedes(caller, program, losses)) == WithCessions(s, program, layers, results)
            && Valid(Run(s, Cedes(caller, program, losses)))
  {
    if losses == [] {
      NothingCeded(s, program);
    } else {
      var earlier, loss := losses[..|losses| - 1], losses[|losses| - 1];
      RunIsCedeAll(s, caller, program, earlier);
      assert Cedes(caller, program, losses)[..|losses| - 1] == Cedes(caller, program, earlier);
      var (layers, results) := CedeAll(s.programs[program].layers, earlier);
      OneMoreCession(s, caller, program, layers, results, loss);
    }
  }

  /** The cessions recorded for a program after such a run. */
  ghost function RecordedAfter(s: Registry, caller: string, program: nat, losses: seq<nat>): seq<ProgramCession> {
    var cessions := Run(s, Cedes(caller, program, losses)).cessions;
    if program < |cessions| then cessions[program] else []
  }

  /** However two registries store the layers of a program, the same losses are ceded the same way. */
  lemma StorageOrderIsIrrelevantInRuns(s: Registry, t: Registry, caller: string, program: nat, losses: seq<nat>)
    requires Valid(s) && program < |s.programs| && s.programs[program].owner == caller
    requires Valid(t) && program < |t.programs| && t.programs[program].owner == caller
    requires multiset(s.programs[program].layers) == multiset(t.programs[program].layers)
    requires s.cessions[program] == t.cessions[program]
    ensures RecordedAfter(s, caller, program, losses) == RecordedAfter(t, caller, program, losses)
  {
    RunIsCedeAll(s, caller, program, losses);
    RunIsCedeAll(t, caller, program, losses);
    assert SoundProgram(s.programs[program], s.cessions[program]);
    StorageOrderIsIrrelevant(s.programs[program].layers, t.programs[program].layers, losses);
  }

  /** A program created with one aggregate layer keeps within that layer's limit in every run of cessions exactly if the kinds agree. */
  lemma LimitHoldsInRunsIffKindAgrees(s: Registry, caller: string, input: LayerInput)
    requires Valid(s) && input.params.Aggregate? && ValidParams(input.params)
    ensures var created := Step(s, CreateProgram(caller, [input])).0;
            var program := |s.programs|;
            (forall losses: seq<nat> ::
               CededBy(RecordedAfter(created, caller, program, losses), s.nextId) <= input.params.limit) <==> input.kind == AGGREGATE
  {
    var layer := Layer(s.nextId, input.order, input.kind, input.params, UNUSED);
    var created, program := Step(s, CreateProgram(caller, [input])).0, |s.programs|;
    LimitHoldsIffKindAgrees(layer);
    forall losses: seq<nat>
      ensures CededBy(RecordedAfter(created, caller, program, losses), s.nextId) == CededBy(CedeAll([layer], losses).1, layer.id)
    {
      NewProgramCedes(s, caller, input, losses);
    }
    if input.kind != AGGREGATE {
      var losses: seq<nat> :| CededBy(CedeAll([layer], losses).1, layer.id) > input.params.limit;
      assert CededBy(RecordedAfter(created, caller, program, losses), s.nextId) > input.params.limit;
    } else {
      forall losses: seq<nat> ensures CededBy(RecordedAfter(created, caller, program, losses), s.nextId) <= input.params.limit {
        assert CededBy(CedeAll([layer], losses).1, layer.id) <= layer.params.limit;
      }
    }
  }

  lemma NewProgramCedes(s: Registry, caller: string, input: LayerInput, losses: seq<nat>)
    requires Valid(s) && ValidParams(input.params)
    ensures var layer := Layer(s.nextId, input.order, input.kind, input.params, UNUSED);
            RecordedAfter(Step(s, CreateProgram(caller, [input])).0, caller, |s.programs|, losses) == CedeAll([layer], losses).1
  {
    var created := Step(s, CreateProgram(caller, [input])).0;
    CreateKeepsValid(s, caller, [input]);
    assert NewLayers([input], s.nextId) == [Layer(s.nextId, input.order, input.kind, input.params, UNUSED)];
    RunIsCedeAll(created, caller, |s.programs|, losses);
    var layer := Layer(s.nextId, input.order, input.kind, input.params, UNUSED);
    assert created.programs[|s.programs|].layers == [layer] && created.cessions[|s.programs|] == [];
    var results := CedeAll([layer], losses).1;
    assert Run(created, Cedes(caller, |s.programs|, losses)).cessions == created.cessions[|s.programs| := [] + results];
    assert [] + results == results;
  }
}
