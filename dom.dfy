/**
 * The part of the live document the clicker reads and rewrites. Nodes are
 * numbered so that a node's parent always has a smaller number than the
 * node (any finite tree can be numbered this way), which makes every
 * parent chain finite.
 */
module Dom {
  import opened Wrappers

  type NodeId = nat

  /** Elements, and the other nodes (text) an XPath query can also return. */
  datatype Kind = ElementNode | TextNode

  /**
   * What the locator reads about a node: its kind, its parentElement,
   * its classList, its textContent and its computed background colour.
   * Nothing the clicker does changes any of these.
   */
  datatype NodeInfo = NodeInfo(
    kind: Kind,
    parent: Option<NodeId>,
    classes: set<string>,
    text: string,
    background: string)

  /** The inline style properties ensureInteractable writes or reads. */
  datatype InlineStyle = InlineStyle(pointerEvents: string, visibility: string, display: string, opacity: string)

  /**
   * The attributes, states and inline styles ensureInteractable rewrites.
   * ariaHidden, inert and ariaDisabled are "the attribute is present";
   * disabled and hidden are the element's `disabled` and `hidden`
   * properties, which is what the code reads and assigns.
   */
  datatype Marks = Marks(
    ariaHidden: bool,
    inert: bool,
    ariaDisabled: bool,
    disabled: bool,
    hidden: bool,
    style: InlineStyle)

  /** Parents precede children and are elements. */
  predicate WellFormed(info: seq<NodeInfo>)
  {
    forall i :: 0 <= i < |info| && info[i].parent.Some? ==>
      info[i].parent.value < i && info[info[i].parent.value].kind == ElementNode
  }

  /** `a.contains(d)`: a is d or one of d's ancestors. */
  predicate Contains(info: seq<NodeInfo>, a: NodeId, d: NodeId)
    requires WellFormed(info) && d < |info|
    decreases d
  {
    d == a || (info[d].parent.Some? && Contains(info, a, info[d].parent.value))
  }

  /**
   * The nodes the ancestor walk of ensureInteractable visits when it starts
   * at `from`: `from` and its ancestors, stopping before `body` (and before
   * everything above it).
   */
  predicate OnWalk(info: seq<NodeInfo>, body: NodeId, from: NodeId, n: NodeId)
    requires WellFormed(info) && from < |info|
    decreases from
  {
    from != body && (n == from || (info[from].parent.Some? && OnWalk(info, body, info[from].parent.value, n)))
  }

  /** The walk only moves to smaller node numbers. */
  lemma {:induction false} OnWalkBelow(info: seq<NodeInfo>, body: NodeId, from: NodeId, n: NodeId)
    requires WellFormed(info) && from < |info|
    requires OnWalk(info, body, from, n)
    ensures n <= from && n != body
  {
    if n != from {
      OnWalkBelow(info, body, info[from].parent.value, n);
    }
  }

  /**
   * The document: the node information, `document.body`, the rewritable
   * marks of each node and `document.activeElement` (None when nothing
   * but the body has focus).
   */
  class Document {
    const info: seq<NodeInfo>
    const body: NodeId
    const marks: array<Marks>
    var active: Option<NodeId>

    ghost predicate Valid()
      reads this
    {
      && WellFormed(info)
      && body < |info|
      && marks.Length == |info|
      && (active.Some? ==> active.value < |info|)
    }

    constructor (info: seq<NodeInfo>, body: NodeId, initial: seq<Marks>, active: Option<NodeId>)
      requires WellFormed(info) && body < |info| && |initial| == |info|
      requires active.Some? ==> active.value < |info|
      ensures Valid() && fresh(marks)
      ensures this.info == info && this.body == body && marks[..] == initial && this.active == active
    {
      this.info := info;
      this.body := body;
      this.active := active;
      marks := new Marks[|initial|](i requires 0 <= i < |initial| => initial[i]);
    }
  }
}
