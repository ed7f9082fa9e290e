/**
 * ensureInteractable: walks from the element up its parentElement chain,
 * stopping before document.body, and on every element it passes removes
 * aria-hidden and inert and overwrites pointer-events, visibility and
 * opacity (display is written back unchanged). The element itself is then
 * enabled and unhidden, and a focused descendant is blurred.
 */
module Normalizer {
  import opened Wrappers
  import opened Dom

  /** One step of the walk. A text node has neither attributes nor a style, so nothing happens to it. */
  function Cleared(m: Marks, k: Kind): Marks
  {
    if k == TextNode then m
    else m.(ariaHidden := false, inert := false,
            style := m.style.(pointerEvents := "auto", visibility := "visible", opacity := "1"))
  }

  /** The fixes applied to the element itself after the walk. */
  function Enabled(m: Marks): Marks
  {
    m.(disabled := false, ariaDisabled := false, hidden := false)
  }

  /** The marks after the walk that starts at `from`. */
  function FixWalk(info: seq<NodeInfo>, body: NodeId, m: seq<Marks>, from: Option<NodeId>): (r: seq<Marks>)
    requires WellFormed(info) && |m| == |info| && (from.Some? ==> from.value < |info|)
    ensures |r| == |m|
    decreases if from.Some? then from.value + 1 else 0
  {
    if from.None? || from.value == body then m
    else
      var x := from.value;
      FixWalk(info, body, m[x := Cleared(m[x], info[x].kind)], info[x].parent)
  }

  /** The walk clears each node it visits once and leaves every other node alone. */
  lemma {:induction false} FixWalkAt(info: seq<NodeInfo>, body: NodeId, m: seq<Marks>, from: Option<NodeId>, i: NodeId)
    requires WellFormed(info) && |m| == |info| && (from.Some? ==> from.value < |info|)
    requires i < |m|
    ensures FixWalk(info, body, m, from)[i] ==
      if from.Some? && OnWalk(info, body, from.value, i) then Cleared(m[i], info[i].kind) else m[i]
    decreases if from.Some? then from.value + 1 else 0
  {
    if from.Some? && from.value != body {
      var x := from.value;
      var m' := m[x := Cleared(m[x], info[x].kind)];
      FixWalkAt(info, body, m', info[x].parent, i);
      if i == x && info[x].parent.Some? && OnWalk(info, body, info[x].parent.value, i) {
        OnWalkBelow(info, body, info[x].parent.value, i);
        assert false;
      }
    }
  }

  /** The outcome of ensureInteractable: what it returns and the document it leaves. */
  datatype Normalized = Normalized(result: Option<NodeId>, marks: seq<Marks>, active: Option<NodeId>)

  /**
   * The whole of ensureInteractable. Null gives null. On a text node the walk
   * still runs, then `removeAttribute` throws and the error is caught: null,
   * with the ancestors already rewritten.
   */
  function Normalize(info: seq<NodeInfo>, body: NodeId, m: seq<Marks>, active: Option<NodeId>, e: Option<NodeId>): (n: Normalized)
    requires WellFormed(info) && |m| == |info| && (e.Some? ==> e.value < |info|)
    ensures |n.marks| == |m|
  {
    if e.None? then Normalized(None, m, active)
    else
      var x := e.value;
      var walked := FixWalk(info, body, m, e);
      if info[x].kind == TextNode then Normalized(None, walked, active)
      else
        var blurred := active.Some? && active.value < |info| && Contains(info, x, active.value);
        Normalized(Some(x), walked[x := Enabled(walked[x])], if blurred then None else active)
  }

  /**
   * What ensureInteractable guarantees: null in, null out and nothing
   * changed; otherwise every element from the argument up to (not
   * including) body has no aria-hidden and no inert attribute and has
   * pointer-events auto, visibility visible and opacity 1; every node
   * keeps its display; nodes off the walk keep all their marks; the
   * returned element is enabled, unhidden and without aria-disabled; and
   * focus inside it is dropped.
   */
  lemma NormalizeSpec(info: seq<NodeInfo>, body: NodeId, m: seq<Marks>, active: Option<NodeId>, e: Option<NodeId>)
    requires WellFormed(info) && |m| == |info| && (e.Some? ==> e.value < |info|)
    ensures var n := Normalize(info, body, m, active, e);
      && (e.None? ==> n == Normalized(None, m, active))
      && (e.Some? ==> (n.result.Some? <==> info[e.value].kind == ElementNode))
      && (n.result.Some? ==> n.result == e)
      && (forall i :: 0 <= i < |m| && e.Some? && OnWalk(info, body, e.value, i) && info[i].kind == ElementNode ==>
            && !n.marks[i].ariaHidden && !n.marks[i].inert
            && n.marks[i].style.pointerEvents == "auto"
            && n.marks[i].style.visibility == "visible"
            && n.marks[i].style.opacity == "1")
      && (forall i :: 0 <= i < |m| ==> n.marks[i].style.display == m[i].style.display)
      && (forall i :: 0 <= i < |m| && !(e.Some? && (i == e.value || OnWalk(info, body, e.value, i))) ==> n.marks[i] == m[i])
      && (n.result.Some? ==> !n.marks[e.value].disabled && !n.marks[e.value].hidden && !n.marks[e.value].ariaDisabled)
      && (n.result.None? ==> n.active == active)
      && (n.result.Some? ==>
            n.active == (if active.Some? && active.value < |info| && Contains(info, e.value, active.value) then None else active))
  {
    if e.Some? {
      forall i | 0 <= i < |m| {
        FixWalkAt(info, body, m, e, i);
      }
    }
  }

  /**
   * What ensureInteractable promises of an element it returns: an element,
   * enabled, unhidden, without aria-disabled, and with no aria-hidden,
   * inert or pointer-events block on its walk to body.
   */
  predicate Interactable(info: seq<NodeInfo>, body: NodeId, m: seq<Marks>, x: NodeId)
    requires WellFormed(info) && |m| == |info| && x < |info|
  {
    && info[x].kind == ElementNode
    && !m[x].disabled && !m[x].hidden && !m[x].ariaDisabled
    && forall k :: 0 <= k < |info| && OnWalk(info, body, x, k) && info[k].kind == ElementNode ==>
         !m[k].ariaHidden && !m[k].inert && m[k].style.pointerEvents == "auto"
  }

  lemma NormalizedIsInteractable(info: seq<NodeInfo>, body: NodeId, m: seq<Marks>, active: Option<NodeId>, e: NodeId)
    requires WellFormed(info) && |m| == |info| && e < |info|
    ensures var n := Normalize(info, body, m, active, Some(e));
      n.result.Some? ==> n.result.value == e && Interactable(info, body, n.marks, e)
  {
    NormalizeSpec(info, body, m, active, Some(e));
  }

  /** Nothing at or above body is touched unless body itself is the element. */
  lemma NormalizeSparesBody(info: seq<NodeInfo>, body: NodeId, m: seq<Marks>, active: Option<NodeId>, e: Option<NodeId>)
    requires WellFormed(info) && |m| == |info| && (e.Some? ==> e.value < |info|) && body < |info|
    requires e.Some? ==> e.value != body
    ensures Normalize(info, body, m, active, e).marks[body] == m[body]
  {
    if e.Some? {
      FixWalkAt(info, body, m, e, body);
      if OnWalk(info, body, e.value, body) {
        OnWalkBelow(info, body, e.value, body);
      }
    }
  }

  /** Running the walk a second time changes nothing. */
  lemma FixWalkIdempotent(info: seq<NodeInfo>, body: NodeId, m: seq<Marks>, from: Option<NodeId>)
    requires WellFormed(info) && |m| == |info| && (from.Some? ==> from.value < |info|)
    ensures FixWalk(info, body, FixWalk(info, body, m, from), from) == FixWalk(info, body, m, from)
  {
    var once := FixWalk(info, body, m, from);
    var twice := FixWalk(info, body, once, from);
    forall i | 0 <= i < |m|
      ensures twice[i] == once[i]
    {
      FixWalkAt(info, body, m, from, i);
      FixWalkAt(info, body, once, from, i);
    }
  }

  /** Calling ensureInteractable twice leaves the same document, and returns the same, as calling it once. */
  lemma NormalizeIdempotent(info: seq<NodeInfo>, body: NodeId, m: seq<Marks>, active: Option<NodeId>, e: Option<NodeId>)
    requires WellFormed(info) && |m| == |info| && (e.Some? ==> e.value < |info|)
    ensures var once := Normalize(info, body, m, active, e);
      Normalize(info, body, once.marks, once.active, e) == once
  {
    if e.Some? {
      var x := e.value;
      var once := Normalize(info, body, m, active, e);
      var walked := FixWalk(info, body, m, e);
      FixWalkIdempotent(info, body, m, e);
      if info[x].kind == ElementNode {
        var again := FixWalk(info, body, once.marks, e);
        forall i | 0 <= i < |m|
          ensures again[i] == once.marks[i]
        {
          FixWalkAt(info, body, once.marks, e, i);
          FixWalkAt(info, body, m, e, i);
        }
        assert again == once.marks;
      }
    }
  }

  /** ensureInteractable on the live document. */
  method EnsureInteractable(doc: Document, element: Option<NodeId>) returns (r: Option<NodeId>)
    requires doc.Valid() && (element.Some? ==> element.value < |doc.info|)
    modifies doc, doc.marks
    ensures doc.Valid()
    ensures var n := Normalize(doc.info, doc.body, old(doc.marks[..]), old(doc.active), element);
      r == n.result && doc.marks[..] == n.marks && doc.active == n.active
  {
    if element.None? {
      return None;
    }
    var ancestor: Option<NodeId> := element;
    while ancestor.Some? && ancestor.value != doc.body
      invariant doc.Valid()
      invariant ancestor.Some? ==> ancestor.value < |doc.info|
      invariant FixWalk(doc.info, doc.body, doc.marks[..], ancestor) == FixWalk(doc.info, doc.body, old(doc.marks[..]), element)
      invariant doc.active == old(doc.active)
      decreases if ancestor.Some? then ancestor.value + 1 else 0
    {
      var x := ancestor.value;
      doc.marks[x] := Cleared(doc.marks[x], doc.info[x].kind);
      ancestor := doc.info[x].parent;
    }
    var x := element.value;
    if doc.info[x].kind == TextNode {
      // element.removeAttribute is not a function on a text node: the catch returns null
      return None;
    }
    doc.marks[x] := Enabled(doc.marks[x]);
    if doc.active.Some? && doc.active.value < |doc.info| && Contains(doc.info, x, doc.active.value) {
      doc.active := None;
    }
    r := element;
  }
}
