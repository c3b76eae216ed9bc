/** Precision adjustment of the progress product automaton
    (ProgressProductAutomatonPrecisionAdjustment.prec): every component of a product
    element is adjusted with the matching component of the composite precision, and the
    combined action is BREAK as soon as the element is a target or any component asks
    to break. */
module ProgressPrecision {
  import opened Wrappers

  /** A component state and a component precision of the product; their contents are
      opaque to the adjustment. */
  type ComponentState = nat
  type ComponentPrecision = nat

  datatype Action = Continue | Break

  /** The answer of one component adjustment (the single-automaton
      ProgressPrecisionAdjustment, which is not part of this model). */
  datatype Adjustment = Adjustment(state: ComponentState, precision: ComponentPrecision, action: Action)

  datatype ProductElement = ProductElement(components: seq<ComponentState>, isTarget: bool)

  /** The adjusted element and precision, component by component, and the action. */
  datatype AdjustmentResult = AdjustmentResult(
    components: seq<ComponentState>,
    precisions: seq<ComponentPrecision>,
    action: Action)

  /** A composite precision with fewer components than the element makes `get` throw. */
  datatype AdjustmentError = IndexOutOfBounds

  /** Some component adjustment among the first `n` answers BREAK. */
  ghost predicate SomeComponentBreaks(element: ProductElement, precision: seq<ComponentPrecision>,
                                      full: ComponentState,
                                      sub: (ComponentState, ComponentPrecision, ComponentState) -> Adjustment,
                                      n: nat)
    requires n <= |element.components| && n <= |precision|
  {
    exists i | 0 <= i < n :: sub(element.components[i], precision[i], full).action == Break
  }

  /** prec: the component loop. `sub` is the component precision adjustment, called with
      the full state as its last argument (the reached set it is given is always null). */
  method Prec(element: ProductElement, precision: seq<ComponentPrecision>, full: ComponentState,
              sub: (ComponentState, ComponentPrecision, ComponentState) -> Adjustment)
    returns (r: Result<AdjustmentResult, AdjustmentError>)
    ensures r.Failure? <==> |precision| < |element.components|
    ensures r.Success? ==>
      && |r.value.components| == |element.components| == |r.value.precisions|
      && (forall i | 0 <= i < |element.components| ::
            && r.value.components[i] == sub(element.components[i], precision[i], full).state
            && r.value.precisions[i] == sub(element.components[i], precision[i], full).precision)
    ensures r.Success? ==>
      (r.value.action == Break <==>
         element.isTarget || SomeComponentBreaks(element, precision, full, sub, |element.components|))
  {
    var action := if element.isTarget then Break else Continue;
    var adjustedStates: seq<ComponentState> := [];
    var adjustedPrecisions: seq<ComponentPrecision> := [];
    var index := 0;
    while index < |element.components|
      invariant 0 <= index <= |element.components|
      invariant index <= |precision|
      invariant |adjustedStates| == index == |adjustedPrecisions|
      invariant forall i | 0 <= i < index ::
        && adjustedStates[i] == sub(element.components[i], precision[i], full).state
        && adjustedPrecisions[i] == sub(element.components[i], precision[i], full).precision
      invariant action == Break <==> element.isTarget || SomeComponentBreaks(element, precision, full, sub, index)
    {
      if index >= |precision| {
        return Failure(IndexOutOfBounds);
      }
      var adjustment := sub(element.components[index], precision[index], full);
      if adjustment.action == Break {
        action := Break;
      }
      adjustedStates := adjustedStates + [adjustment.state];
      adjustedPrecisions := adjustedPrecisions + [adjustment.precision];
      index := index + 1;
    }
    return Success(AdjustmentResult(adjustedStates, adjustedPrecisions, action));
  }
}
