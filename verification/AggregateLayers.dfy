/** The aggregate layer over many cessions (`applyAggregate` of `packages/domain/src/reinsurance.ts`). */
module AggregateLayers {
  import opened Sequences
  import opened Reinsurance

  const UNUSED := LayerState(0, 0)

  /** The state of an aggregate layer after a sequence of presented losses. */
  function AfterLosses(attachment: int, limit: int, losses: seq<int>): LayerState {
    if losses == [] then UNUSED
    else
      var state, loss := AfterLosses(attachment, limit, losses[..|losses| - 1]), losses[|losses| - 1];
      LayerState(state.consumedGross + loss, state.consumedCeded + CededByAggregate(loss, attachment, limit, state))
  }

  /** What a layer that has seen `gross` in total has ceded in total. */
  function CededOf(gross: int, attachment: int, limit: int): int {
    Min(limit, Max(0, gross - attachment))
  }

  ghost predicate InClosedForm(state: LayerState, attachment: int, limit: int) {
    0 <= state.consumedGross && state.consumedCeded == CededOf(state.consumedGross, attachment, limit)
  }

  /** One more loss keeps the closed form. */
  lemma AggregateStep(state: LayerState, loss: int, attachment: int, limit: int)
    requires 0 <= loss && 0 <= attachment && 0 < limit && InClosedForm(state, attachment, limit)
    ensures var ceded := CededByAggregate(loss, attachment, limit, state);
            InClosedForm(LayerState(state.consumedGross + loss, state.consumedCeded + ceded), attachment, limit)
  {
  }

  /** However losses arrive, what the layer has ceded is a function of their sum, and never passes the limit. */
  lemma {:induction false} AggregateClosedForm(attachment: int, limit: int, losses: seq<int>)
    requires 0 <= attachment && 0 < limit
    requires forall i :: 0 <= i < |losses| ==> 0 <= losses[i]
    ensures var state := AfterLosses(attachment, limit, losses);
            && state.consumedGross == Sum(losses)
            && state.consumedCeded == Min(limit, Max(0, Sum(losses) - attachment))
            && 0 <= state.consumedGross && 0 <= state.consumedCeded <= limit
  {
    if losses != [] {
      var earlier := losses[..|losses| - 1];
      AggregateClosedForm(attachment, limit, earlier);
      AggregateStep(AfterLosses(attachment, limit, earlier), losses[|losses| - 1], attachment, limit);
    }
  }

  /** The total ceded is unchanged by reordering the losses. */
  lemma ReorderingIsNeutral(attachment: int, limit: int, xs: seq<int>, ys: seq<int>)
    requires 0 <= attachment && 0 < limit && multiset(xs) == multiset(ys)
    requires forall i :: 0 <= i < |xs| ==> 0 <= xs[i]
    ensures AfterLosses(attachment, limit, xs) == AfterLosses(attachment, limit, ys)
  {
    forall i | 0 <= i < |ys| ensures 0 <= ys[i] {
      assert ys[i] in multiset(xs);
      assert ys[i] in xs;
    }
    SumPermutation(xs, ys);
    AggregateClosedForm(attachment, limit, xs);
    AggregateClosedForm(attachment, limit, ys);
  }

  /** Nor by presenting one loss in pieces. */
  lemma SplittingIsNeutral(attachment: int, limit: int, before: seq<int>, pieces: seq<int>, after: seq<int>)
    requires 0 <= attachment && 0 < limit
    requires forall i :: 0 <= i < |before| ==> 0 <= before[i]
    requires forall i :: 0 <= i < |pieces| ==> 0 <= pieces[i]
    requires forall i :: 0 <= i < |after| ==> 0 <= after[i]
    ensures AfterLosses(attachment, limit, before + pieces + after)
         == AfterLosses(attachment, limit, before + [Sum(pieces)] + after)
  {
    SumBoundsEntries(pieces);
    SumAppend(before + pieces, after);
    SumAppend(before, pieces);
    SumAppend(before + [Sum(pieces)], after);
    SumAppend(before, [Sum(pieces)]);
    AggregateClosedForm(attachment, limit, before + pieces + after);
    AggregateClosedForm(attachment, limit, before + [Sum(pieces)] + after);
  }
}
