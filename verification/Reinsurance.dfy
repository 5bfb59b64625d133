/**
 Reinsurance layers and programs (`packages/domain/src/reinsurance.ts`). A program's layers are applied
 in ascending `order`, each to what the previous one left retained. Only aggregate layers use `state`.
 */
module Reinsurance {
  import opened Prelude
  import opened Sequences
  import opened Money

  datatype Params =
    | QuotaShare(cededBps: int, perLossLimit: Option<int>)
    | ExcessOfLoss(attachment: int, limit: int)
    | Aggregate(attachment: int, limit: int)

  datatype LayerState = LayerState(consumedGross: int, consumedCeded: int)

  datatype Kind = QUOTA_SHARE | EXCESS_OF_LOSS | AGGREGATE

  /** `kind` is stored beside the parameters, which have their own; only the service looks at it. */
  datatype Layer = Layer(id: nat, order: int, kind: Kind, params: Params, state: LayerState)

  datatype LayerCession = LayerCession(layerId: nat, presented: int, ceded: int, retained: int, nextState: Option<LayerState>)

  datatype ProgramCession = ProgramCession(gross: int, perLayer: seq<LayerCession>, totalCeded: int, netRetained: int)

  datatype ReinsuranceError = NegativeLoss | InvalidParameter | DuplicateLayerOrder | ProgramNotFound | Unauthorised

  predicate ValidParams(p: Params) {
    match p
    case QuotaShare(bps, cap) => 0 < bps <= 10_000 && (cap.Some? ==> 0 <= cap.value)
    case ExcessOfLoss(attachment, limit) => 0 <= attachment && 0 < limit
    case Aggregate(attachment, limit) => 0 <= attachment && 0 < limit
  }

  function Max(x: int, y: int): int { if x < y then y else x }

  function Min(x: int, y: int): int { if x < y then x else y }

  // ---------------------------------------------------------------- one layer

  function CededByQuotaShare(loss: int, bps: int, cap: Option<int>): int {
    var raw := RoundDiv(loss * bps, 10_000);
    if cap.Some? then Min(raw, cap.value) else raw
  }

  function CededByExcess(loss: int, attachment: int, limit: int): int {
    Min(Max(0, loss - attachment), limit)
  }

  function CededByAggregate(loss: int, attachment: int, limit: int, state: LayerState): int {
    var aboveBefore := Max(0, state.consumedGross - attachment);
    var aboveAfter := Max(0, state.consumedGross + loss - attachment);
    Max(0, Min(aboveAfter - aboveBefore, limit - state.consumedCeded))
  }

  function Ceded(loss: int, layer: Layer): int {
    match layer.params
    case QuotaShare(bps, cap) => CededByQuotaShare(loss, bps, cap)
    case ExcessOfLoss(attachment, limit) => CededByExcess(loss, attachment, limit)
    case Aggregate(attachment, limit) => CededByAggregate(loss, attachment, limit, layer.state)
  }

  function ApplyLayer(loss: int, layer: Layer): LayerCession {
    var ceded := Ceded(loss, layer);
    LayerCession(layer.id, loss, ceded, loss - ceded,
      if layer.params.Aggregate?
      then Some(LayerState(layer.state.consumedGross + loss, layer.state.consumedCeded + ceded)) else None)
  }

  /** A quota share never cedes more than a non-negative loss. */
  lemma QuotaShareStep(x: nat, y: nat, bps: int)
    requires 0 <= bps <= 10_000 && x <= y
    ensures 0 <= RoundDiv(x * bps, 10_000) <= RoundDiv(y * bps, 10_000)
    ensures RoundDiv(y * bps, 10_000) - RoundDiv(x * bps, 10_000) <= y - x
  {
    MulOrder(bps, 0, x);
    MulOrder(bps, x, y);
    MulOrder(y - x, bps, 10_000);
    RoundedGap(x * bps, y * bps, y - x) by {
      assert y * bps - x * bps == (y - x) * bps;
    }
  }

  lemma RoundedGap(a: int, b: int, gap: int)
    requires 0 <= a <= b && b - a <= gap * 10_000
    ensures 0 <= RoundDiv(a, 10_000) <= RoundDiv(b, 10_000) <= RoundDiv(a, 10_000) + gap
  {
  }

  /** Every layer is monotone and passes on at most what is added: neither part of a larger loss is smaller. */
  lemma LayerMonotone(x: int, y: int, layer: Layer)
    requires 0 <= x <= y && ValidParams(layer.params)
    ensures Ceded(x, layer) <= Ceded(y, layer)
    ensures x - Ceded(x, layer) <= y - Ceded(y, layer)
    ensures 0 <= Ceded(x, layer) <= x
  {
    match layer.params
    case QuotaShare(bps, cap) =>
      QuotaShareStep(x, y, bps);
      QuotaShareStep(0, x, bps);
    case ExcessOfLoss(attachment, limit) =>
    case Aggregate(attachment, limit) =>
  }

  /** A quota share cedes the rounded proportion, or the cap where that is less. */
  lemma QuotaShareMeaning(loss: nat, bps: int, cap: Option<int>, q: int)
    requires ValidParams(QuotaShare(bps, cap))
    ensures cap.Some? ==> CededByQuotaShare(loss, bps, cap) <= cap.value
    ensures cap.None? || CededByQuotaShare(loss, bps, cap) < cap.value ==>
              (CededByQuotaShare(loss, bps, cap) == q <==> 20_000 * q - 10_000 <= 2 * (loss * bps) < 20_000 * q + 10_000)
  {
    RoundDivNearest(loss * bps, 10_000, q);
  }

  /** Excess of loss is the slice between the attachment point and attachment plus limit: what it leaves is the rest. */
  lemma ExcessMeaning(loss: nat, attachment: int, limit: int)
    requires ValidParams(ExcessOfLoss(attachment, limit))
    ensures var ceded := CededByExcess(loss, attachment, limit);
            && (loss <= attachment ==> ceded == 0)
            && (attachment <= loss <= attachment + limit ==> loss - ceded == attachment)
            && (attachment + limit <= loss ==> ceded == limit)
    ensures CededByExcess(loss, attachment, limit) == CededByAggregate(loss, attachment, limit, LayerState(0, 0))
  {
  }

  // ---------------------------------------------------------------- a program

  /** What is left of a gross loss after the layers, applied first to last. */
  function Remaining(gross: int, layers: seq<Layer>): int {
    if layers == [] then gross
    else
      var before := Remaining(gross, layers[..|layers| - 1]);
      before - Ceded(before, layers[|layers| - 1])
  }

  function PerLayer(gross: int, layers: seq<Layer>): (r: seq<LayerCession>)
    ensures |r| == |layers|
  {
    if layers == [] then []
    else
      var earlier := layers[..|layers| - 1];
      PerLayer(gross, earlier) + [ApplyLayer(Remaining(gross, earlier), layers[|layers| - 1])]
  }

  /** `applyReinsuranceProgram` on layers already in order. */
  function CedeInOrder(gross: int, layers: seq<Layer>): ProgramCession {
    var net := Remaining(gross, layers);
    ProgramCession(gross, PerLayer(gross, layers), gross - net, net)
  }

  ghost predicate ValidLayers(layers: seq<Layer>) {
    forall i :: 0 <= i < |layers| ==> ValidParams(layers[i].params)
  }

  /** Raising the gross loss lowers neither the total ceded nor the net retained. */
  lemma {:induction false} ProgramMonotone(x: int, y: int, layers: seq<Layer>)
    requires 0 <= x <= y && ValidLayers(layers)
    ensures Remaining(x, layers) <= Remaining(y, layers)
    ensures x - Remaining(x, layers) <= y - Remaining(y, layers)
    ensures 0 <= Remaining(x, layers) <= x
  {
    if layers != [] {
      var last := |layers| - 1;
      ProgramMonotone(x, y, layers[..last]);
      LayerMonotone(Remaining(x, layers[..last]), Remaining(y, layers[..last]), layers[last]);
    }
  }

  function CededAmounts(perLayer: seq<LayerCession>): seq<int> {
    seq(|perLayer|, i requires 0 <= i < |perLayer| => perLayer[i].ceded)
  }

  /** The i-th layer is presented what the one before retained, and cedes between nothing and all of it. */
  ghost predicate Link(gross: int, perLayer: seq<LayerCession>, i: nat)
    requires i < |perLayer|
  {
    && 0 <= perLayer[i].ceded <= perLayer[i].presented
    && perLayer[i].ceded + perLayer[i].retained == perLayer[i].presented
    && perLayer[i].presented == (if i == 0 then gross else perLayer[i - 1].retained)
  }

  ghost predicate Chain(gross: int, perLayer: seq<LayerCession>, net: int) {
    && (forall i :: 0 <= i < |perLayer| ==> Link(gross, perLayer, i))
    && net == (if perLayer == [] then gross else perLayer[|perLayer| - 1].retained)
  }

  lemma ExtendChain(gross: int, perLayer: seq<LayerCession>, net: int, c: LayerCession)
    requires Chain(gross, perLayer, net)
    requires c.presented == net && 0 <= c.ceded <= c.presented && c.ceded + c.retained == c.presented
    ensures Chain(gross, perLayer + [c], c.retained)
    ensures Sum(CededAmounts(perLayer + [c])) == Sum(CededAmounts(perLayer)) + c.ceded
  {
    var longer := perLayer + [c];
    assert CededAmounts(longer)[..|perLayer|] == CededAmounts(perLayer);
    forall i | 0 <= i < |longer| ensures Link(gross, longer, i) {
      assert i < |perLayer| ==> Link(gross, perLayer, i);
    }
  }

  /** One more layer takes what the layers so far left. */
  lemma CedeSnoc(gross: int, layers: seq<Layer>, i: nat)
    requires i < |layers|
    ensures var c := ApplyLayer(Remaining(gross, layers[..i]), layers[i]);
            && PerLayer(gross, layers[..i + 1]) == PerLayer(gross, layers[..i]) + [c]
            && Remaining(gross, layers[..i + 1]) == c.retained
  {
    assert layers[..i + 1][..i] == layers[..i];
  }

  /** Nothing is lost between the layers: the ceded amounts and the net retention add up to the gross loss. */
  lemma {:induction false} ProgramConserves(gross: int, layers: seq<Layer>)
    requires 0 <= gross && ValidLayers(layers)
    ensures Chain(gross, PerLayer(gross, layers), Remaining(gross, layers))
    ensures Sum(CededAmounts(PerLayer(gross, layers))) + Remaining(gross, layers) == gross
  {
    if layers != [] {
      var last := |layers| - 1;
      ProgramConserves(gross, layers[..last]);
      ProgramMonotone(gross, gross, layers[..last]);
      var before := Remaining(gross, layers[..last]);
      LayerMonotone(before, before, layers[last]);
      ExtendChain(gross, PerLayer(gross, layers[..last]), before, ApplyLayer(before, layers[last]));
    }
  }

  // ---------------------------------------------------------------- application order

  ghost predicate SortedByOrder(layers: seq<Layer>) {
    forall i, j :: 0 <= i < j < |layers| ==> layers[i].order <= layers[j].order
  }

  ghost predicate UniqueOrders(layers: seq<Layer>) {
    forall i, j :: 0 <= i < j < |layers| ==> layers[i].order != layers[j].order
  }

  function InsertByOrder(layers: seq<Layer>, x: Layer): (r: seq<Layer>)
    ensures |r| == |layers| + 1
  {
    if layers == [] then [x]
    else if layers[|layers| - 1].order <= x.order then layers + [x]
    else InsertByOrder(layers[..|layers| - 1], x) + [layers[|layers| - 1]]
  }

  lemma ButLast(layers: seq<Layer>)
    requires layers != []
    ensures multiset(layers) == multiset(layers[..|layers| - 1]) + multiset{layers[|layers| - 1]}
    ensures multiset(layers[..|layers| - 1]) == multiset(layers) - multiset{layers[|layers| - 1]}
  {
    assert layers == layers[..|layers| - 1] + [layers[|layers| - 1]];
  }

  lemma {:induction false} InsertMembers(layers: seq<Layer>, x: Layer)
    ensures multiset(InsertByOrder(layers, x)) == multiset(layers) + multiset{x}
  {
    if layers != [] {
      InsertMembers(layers[..|layers| - 1], x);
      ButLast(layers);
    }
  }

  ghost predicate OrdersUpTo(layers: seq<Layer>, bound: int) {
    forall i :: 0 <= i < |layers| ==> layers[i].order <= bound
  }

  lemma {:induction false} InsertSorted(layers: seq<Layer>, x: Layer, bound: int)
    requires SortedByOrder(layers) && OrdersUpTo(layers, bound) && x.order <= bound
    ensures SortedByOrder(InsertByOrder(layers, x)) && OrdersUpTo(InsertByOrder(layers, x), bound)
  {
    if layers != [] && x.order < layers[|layers| - 1].order {
      InsertSorted(layers[..|layers| - 1], x, layers[|layers| - 1].order);
    }
  }

  /** The stable sort by `order` that precedes application. */
  function SortByOrder(layers: seq<Layer>): (r: seq<Layer>)
    ensures |r| == |layers|
  {
    if layers == [] then [] else InsertByOrder(SortByOrder(layers[..|layers| - 1]), layers[|layers| - 1])
  }

  lemma {:induction false} SortKeeps(layers: seq<Layer>)
    ensures multiset(SortByOrder(layers)) == multiset(layers)
    ensures SortedByOrder(SortByOrder(layers))
  {
    if layers != [] {
      var earlier, x := SortByOrder(layers[..|layers| - 1]), layers[|layers| - 1];
      SortKeeps(layers[..|layers| - 1]);
      InsertMembers(earlier, x);
      InsertSorted(earlier, x, if earlier == [] then x.order else Max(x.order, earlier[|earlier| - 1].order));
      ButLast(layers);
    }
  }

  /** The layers of one order, as they come. */
  function OfOrder(layers: seq<Layer>, order: int): seq<Layer> {
    if layers == [] then []
    else
      var rest, last := OfOrder(layers[..|layers| - 1], order), layers[|layers| - 1];
      if last.order == order then rest + [last] else rest
  }

  lemma {:induction false} InsertIsStable(layers: seq<Layer>, x: Layer, order: int)
    requires SortedByOrder(layers)
    ensures OfOrder(InsertByOrder(layers, x), order) == OfOrder(layers + [x], order)
  {
    assert (layers + [x])[..|layers|] == layers;
    if layers != [] && x.order < layers[|layers| - 1].order {
      var earlier, last := layers[..|layers| - 1], layers[|layers| - 1];
      InsertIsStable(earlier, x, order);
      assert (earlier + [x])[..|earlier|] == earlier;
      assert (InsertByOrder(earlier, x) + [last])[..|earlier| + 1] == InsertByOrder(earlier, x);
    }
  }

  /** The sort is stable: layers of the same order stay in the order in which they are stored. */
  lemma {:induction false} SortIsStable(layers: seq<Layer>, order: int)
    ensures OfOrder(SortByOrder(layers), order) == OfOrder(layers, order)
  {
    if layers != [] {
      var earlier, last := layers[..|layers| - 1], layers[|layers| - 1];
      SortIsStable(earlier, order);
      SortKeeps(earlier);
      InsertIsStable(SortByOrder(earlier), last, order);
      assert (SortByOrder(earlier) + [last])[..|earlier|] == SortByOrder(earlier);
    }
  }

  method ApplyReinsuranceProgram(gross: int, layers: seq<Layer>) returns (r: Result<ProgramCession, ReinsuranceError>)
    ensures r.Ok? <==> 0 <= gross && ValidLayers(layers)
    ensures r.Ok? ==> r.value == CedeInOrder(gross, SortByOrder(layers))
    ensures r.Err? ==> r.error == if gross < 0 then NegativeLoss else InvalidParameter
  {
    if gross < 0 {
      return Err(NegativeLoss);
    }
    SortKeepsValid(layers);
    r := ApplyInOrder(gross, SortByOrder(layers));
  }

  /** The loop over the ordered layers, refusing at the first malformed one. */
  method ApplyInOrder(gross: int, ordered: seq<Layer>) returns (r: Result<ProgramCession, ReinsuranceError>)
    ensures r.Ok? <==> ValidLayers(ordered)
    ensures r == if r.Ok? then Ok(CedeInOrder(gross, ordered)) else Err(InvalidParameter)
  {
    var perLayer, remaining := [], gross;
    for i := 0 to |ordered|
      invariant forall k :: 0 <= k < i ==> ValidParams(ordered[k].params)
      invariant perLayer == PerLayer(gross, ordered[..i])
      invariant remaining == Remaining(gross, ordered[..i])
    {
      if !ValidParams(ordered[i].params) {
        return Err(InvalidParameter);
      }
      CedeSnoc(gross, ordered, i);
      var result := ApplyLayer(remaining, ordered[i]);
      perLayer := perLayer + [result];
      remaining := result.retained;
    }
    assert ordered[..|ordered|] == ordered;
    return Ok(ProgramCession(gross, perLayer, gross - remaining, remaining));
  }

  lemma SortKeepsValid(layers: seq<Layer>)
    ensures ValidLayers(SortByOrder(layers)) <==> ValidLayers(layers)
  {
    var sorted := SortByOrder(layers);
    SortKeeps(layers);
    forall x: Layer ensures x in sorted <==> x in layers {
      assert x in sorted <==> x in multiset(sorted);
      assert x in layers <==> x in multiset(layers);
    }
    if ValidLayers(layers) {
      forall i | 0 <= i < |sorted| ensures ValidParams(sorted[i].params) {
        assert sorted[i] in layers;
      }
    }
    if ValidLayers(sorted) {
      forall i | 0 <= i < |layers| ensures ValidParams(layers[i].params) {
        assert layers[i] in sorted;
      }
    }
  }

  /** With unique orders the sorted list is determined by which layers there are, not by how they are stored. */
  lemma SortIgnoresStorageOrder(xs: seq<Layer>, ys: seq<Layer>)
    requires multiset(xs) == multiset(ys) && UniqueOrders(xs)
    ensures SortByOrder(xs) == SortByOrder(ys)
  {
    SortKeeps(xs);
    SortKeeps(ys);
    UniqueOrdersOf(xs, SortByOrder(xs));
    SortedIsUnique(SortByOrder(xs), SortByOrder(ys));
  }

  /** Unique orders are a property of the multiset of layers. */
  lemma UniqueOrdersOf(xs: seq<Layer>, ys: seq<Layer>)
    requires multiset(xs) == multiset(ys) && UniqueOrders(xs)
    ensures UniqueOrders(ys)
  {
    forall i, j | 0 <= i < j < |ys|
      ensures ys[i].order != ys[j].order
    {
      assert ys[i] in multiset(ys) && ys[j] in multiset(ys);
      assert ys[i] in xs && ys[j] in xs;
      if ys[i] == ys[j] {
        assert ys == ys[..j] + [ys[j]] + ys[j + 1..];
        assert ys[i] in ys[..j];
        assert multiset(ys)[ys[i]] >= 2;
        OnceIfUnique(xs, ys[i]);
      }
    }
  }

  lemma {:induction false} OnceIfUnique(xs: seq<Layer>, x: Layer)
    requires UniqueOrders(xs)
    ensures multiset(xs)[x] <= 1
  {
    if xs != [] {
      var last := |xs| - 1;
      ButLast(xs);
      OnceIfUnique(xs[..last], x);
      assert forall i :: 0 <= i < last ==> xs[i].order != xs[last].order;
      assert xs[last] !in xs[..last];
    }
  }

  lemma SameOrderSameLayer(xs: seq<Layer>, x: Layer, y: Layer)
    requires UniqueOrders(xs) && x in xs && y in xs && x.order == y.order
    ensures x == y
  {
    var i :| 0 <= i < |xs| && xs[i] == x;
    var j :| 0 <= j < |xs| && xs[j] == y;
  }

  lemma LastAgrees(xs: seq<Layer>, ys: seq<Layer>)
    requires multiset(xs) == multiset(ys) && xs != [] && ys != []
    requires SortedByOrder(xs) && SortedByOrder(ys) && UniqueOrders(xs)
    ensures xs[|xs| - 1] == ys[|ys| - 1]
  {
    var x, y := xs[|xs| - 1], ys[|ys| - 1];
    assert x in multiset(ys) && y in multiset(xs);
    assert x in ys && y in xs;
    SameOrderSameLayer(xs, x, y);
  }

  lemma {:induction false} SortedIsUnique(xs: seq<Layer>, ys: seq<Layer>)
    requires multiset(xs) == multiset(ys) && |xs| == |ys|
    requires SortedByOrder(xs) && SortedByOrder(ys) && UniqueOrders(xs)
    ensures xs == ys
  {
    if xs != [] {
      var last := |xs| - 1;
      LastAgrees(xs, ys);
      ButLast(xs);
      ButLast(ys);
      SortedIsUnique(xs[..last], ys[..last]);
      assert xs == xs[..last] + [xs[last]] && ys == ys[..last] + [ys[last]];
    }
  }
}
