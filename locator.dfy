/**
 * locateButton: runs the seven strategies in list order and returns the
 * first hit that ensureInteractable accepts. A strategy that throws, misses
 * or whose hit normalizes to null is skipped; a rejected hit still leaves
 * its ancestors rewritten.
 */
module Locator {
  import opened Wrappers
  import opened Dom
  import opened Settings
  import opened Strategies
  import opened Normalizer

  /** Strategy i hits an element: ensureInteractable will return it. */
  predicate Accepted(i: nat, cfg: Config, info: seq<NodeInfo>, env: Env)
    requires i < StrategyCount
  {
    var a := StrategyOutcome(i, cfg, info, env);
    a.Hit? && a.node < |info| && info[a.node].kind == ElementNode
  }

  /** The first strategy, from position i, that is accepted. */
  function FirstAccepted(cfg: Config, info: seq<NodeInfo>, env: Env, i: nat): (r: Option<nat>)
    requires i <= StrategyCount
    ensures r.Some? ==> i <= r.value < StrategyCount && Accepted(r.value, cfg, info, env)
    ensures r.Some? ==> forall j :: i <= j < r.value ==> !Accepted(j, cfg, info, env)
    ensures r.None? ==> forall j :: i <= j < StrategyCount ==> !Accepted(j, cfg, info, env)
    decreases StrategyCount - i
  {
    if i == StrategyCount then None
    else if Accepted(i, cfg, info, env) then Some(i)
    else FirstAccepted(cfg, info, env, i + 1)
  }

  /** The whole of locateButton from strategy i on, with the document it leaves behind. */
  function LocateFrom(info: seq<NodeInfo>, body: NodeId, m: seq<Marks>, active: Option<NodeId>,
                      cfg: Config, env: Env, i: nat): (n: Normalized)
    requires WellFormed(info) && |m| == |info| && Resolves(env, |info|) && i <= StrategyCount
    ensures |n.marks| == |m|
    decreases StrategyCount - i
  {
    if i == StrategyCount then Normalized(None, m, active)
    else
      StrategyOutcomeInRange(i, cfg, info, env);
      match StrategyOutcome(i, cfg, info, env)
      case Hit(e) =>
        var n := Normalize(info, body, m, active, Some(e));
        if n.result.Some? then n else LocateFrom(info, body, n.marks, n.active, cfg, env, i + 1)
      case _ => LocateFrom(info, body, m, active, cfg, env, i + 1)
  }

  /**
   * locateButton returns the hit of the first strategy, in list order, that
   * hits an element, and null exactly when no strategy does; what an earlier
   * rejected hit did to the document does not change the answer.
   */
  lemma {:induction false} LocateFirstAccepted(info: seq<NodeInfo>, body: NodeId, m: seq<Marks>, active: Option<NodeId>,
                                               cfg: Config, env: Env, i: nat)
    requires WellFormed(info) && |m| == |info| && Resolves(env, |info|) && i <= StrategyCount
    ensures var r := LocateFrom(info, body, m, active, cfg, env, i).result;
      match FirstAccepted(cfg, info, env, i)
      case Some(j) => r == Some(StrategyOutcome(j, cfg, info, env).node)
      case None => r.None?
    decreases StrategyCount - i
  {
    if i < StrategyCount {
      StrategyOutcomeInRange(i, cfg, info, env);
      match StrategyOutcome(i, cfg, info, env)
      case Hit(e) =>
        var n := Normalize(info, body, m, active, Some(e));
        NormalizeSpec(info, body, m, active, Some(e));
        LocateFirstAccepted(info, body, n.marks, n.active, cfg, env, i + 1);
      case _ =>
        LocateFirstAccepted(info, body, m, active, cfg, env, i + 1);
    }
  }

  /** Strategy priority: when the primary selector hits an element, that element is the answer, whatever the later strategies would find. */
  lemma PrimaryHitWins(info: seq<NodeInfo>, body: NodeId, m: seq<Marks>, active: Option<NodeId>, cfg: Config, env: Env, e: NodeId)
    requires WellFormed(info) && |m| == |info| && Resolves(env, |info|)
    requires PrimarySearch(cfg, env) == Hit(e) && e < |info| && info[e].kind == ElementNode
    ensures LocateFrom(info, body, m, active, cfg, env, 0).result == Some(e)
  {
    LocateFirstAccepted(info, body, m, active, cfg, env, 0);
  }

  /** In a static tree, locating again gives the same element: the answer does not depend on the marks or the focus. */
  lemma LocateIsStable(info: seq<NodeInfo>, body: NodeId, m1: seq<Marks>, a1: Option<NodeId>,
                       m2: seq<Marks>, a2: Option<NodeId>, cfg: Config, env: Env)
    requires WellFormed(info) && |m1| == |info| && |m2| == |info| && Resolves(env, |info|)
    ensures LocateFrom(info, body, m1, a1, cfg, env, 0).result == LocateFrom(info, body, m2, a2, cfg, env, 0).result
  {
    LocateFirstAccepted(info, body, m1, a1, cfg, env, 0);
    LocateFirstAccepted(info, body, m2, a2, cfg, env, 0);
  }

  /** What locateButton returns is an element, enabled and unhidden, with a clear walk to body. */
  lemma {:induction false} LocatedIsInteractable(info: seq<NodeInfo>, body: NodeId, m: seq<Marks>, active: Option<NodeId>,
                                                 cfg: Config, env: Env, i: nat)
    requires WellFormed(info) && |m| == |info| && Resolves(env, |info|) && i <= StrategyCount
    ensures var n := LocateFrom(info, body, m, active, cfg, env, i);
      n.result.Some? ==> n.result.value < |info| && Interactable(info, body, n.marks, n.result.value)
    decreases StrategyCount - i
  {
    if i < StrategyCount {
      StrategyOutcomeInRange(i, cfg, info, env);
      match StrategyOutcome(i, cfg, info, env)
      case Hit(e) =>
        var n := Normalize(info, body, m, active, Some(e));
        NormalizedIsInteractable(info, body, m, active, e);
        LocatedIsInteractable(info, body, n.marks, n.active, cfg, env, i + 1);
      case _ =>
        LocatedIsInteractable(info, body, m, active, cfg, env, i + 1);
    }
  }

  /** locateButton on the live document. */
  method LocateButton(doc: Document, cfg: Config, env: Env) returns (r: Option<NodeId>)
    requires doc.Valid() && Resolves(env, |doc.info|)
    modifies doc, doc.marks
    ensures doc.Valid()
    ensures var n := LocateFrom(doc.info, doc.body, old(doc.marks[..]), old(doc.active), cfg, env, 0);
      r == n.result && doc.marks[..] == n.marks && doc.active == n.active
  {
    var i := 0;
    while i < StrategyCount
      invariant i <= StrategyCount && doc.Valid()
      invariant LocateFrom(doc.info, doc.body, doc.marks[..], doc.active, cfg, env, i) ==
                LocateFrom(doc.info, doc.body, old(doc.marks[..]), old(doc.active), cfg, env, 0)
    {
      var element := RunStrategy(i, cfg, doc.info, env);
      StrategyOutcomeInRange(i, cfg, doc.info, env);
      if element.Hit? {
        var interactable := EnsureInteractable(doc, Some(element.node));
        if interactable.Some? {
          return interactable;
        }
      }
      i := i + 1;
    }
    return None;
  }
}
