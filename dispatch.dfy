/**
 * dispatchClickSequence: the synthetic events sent to the button, in order,
 * then the native click() when the target has one. Coordinates and event
 * flags are not modelled; `failsAt` says at which step (0-4 an event, 5
 * the native click) constructing or dispatching throws, if any.
 */
module Dispatch {
  import opened Wrappers
  import opened Dom

  datatype EventType = MouseOver | MouseDown | Focus | MouseUp | Click

  const ClickSequence: seq<EventType> := [MouseOver, MouseDown, Focus, MouseUp, Click]

  /** Whether the sequence runs to the end without a throw. */
  predicate Succeeds(failsAt: Option<nat>, hasNativeClick: bool)
  {
    failsAt.None? || failsAt.value > |ClickSequence| || (failsAt.value == |ClickSequence| && !hasNativeClick)
  }

  method DispatchClickSequence(target: Option<NodeId>, failsAt: Option<nat>, hasNativeClick: bool)
    returns (events: seq<EventType>, nativeClicked: bool, ok: bool)
    ensures ok <==> target.Some? && Succeeds(failsAt, hasNativeClick)
    ensures target.None? ==> events == [] && !nativeClicked && !ok
    ensures target.Some? && failsAt.Some? && failsAt.value < |ClickSequence| ==>
      events == ClickSequence[..failsAt.value] && !nativeClicked && !ok
    ensures target.Some? && failsAt == Some(|ClickSequence|) ==>
      events == ClickSequence && !nativeClicked && ok == !hasNativeClick
    ensures target.Some? && (failsAt.None? || failsAt.value > |ClickSequence|) ==>
      events == ClickSequence && nativeClicked == hasNativeClick && ok
  {
    events, nativeClicked := [], false;
    if target.None? {
      return events, nativeClicked, false;
    }
    for k := 0 to |ClickSequence|
      invariant events == ClickSequence[..k]
      invariant failsAt.Some? ==> failsAt.value >= k
    {
      if failsAt == Some(k) {
        return events, nativeClicked, false;
      }
      events := events + [ClickSequence[k]];
    }
    if hasNativeClick {
      if failsAt == Some(|ClickSequence|) {
        return events, nativeClicked, false;
      }
      nativeClicked := true;
    }
    ok := true;
  }
}
