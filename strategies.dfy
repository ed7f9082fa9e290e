/**
 * The seven search strategies of locateButton. querySelectorAll and
 * document.evaluate are oracles: `select(scope, selector)` gives the
 * matching nodes in document order, or SyntaxError when the selector
 * makes querySelectorAll throw; `xpath(expression)` gives the first node
 * (errors are already caught inside evaluateXPath and read as null).
 * Each strategy is a scan function (its meaning) and a method with the
 * source's loops proved equal to it.
 */
module Strategies {
  import opened Wrappers
  import opened Dom
  import opened Settings

  datatype Scope = WholeDocument | Within(container: NodeId)

  datatype Matches = Matched(ids: seq<NodeId>) | SyntaxError

  datatype Env = Env(select: (Scope, string) -> Matches, xpath: string -> Option<NodeId>)

  /** What one strategy does: finds a node, finds nothing, or throws out of its own body. */
  datatype Outcome = Hit(node: NodeId) | Miss | Threw

  const PrimaryButtonClass := "uikit-primary-button"
  const ButtonSelector := "button"
  const NavigationControlsSelector := "div.navigation-controls, nav, [class*=\"navigation\"]"
  const NavigationSelector := "nav, div[class*=\"navigation\"]"
  const ModalSelectors: seq<string> := [
    "[role=\"dialog\"]",
    ".modal",
    ".overlay",
    ".popup",
    "[class*=\"modal\"]",
    "[class*=\"overlay\"]",
    "[class*=\"popup\"]",
    "[class*=\"dialog\"]",
    "[class*=\"alarm\"]",
    "[class*=\"alert\"]",
    "div[style*=\"z-index\"]",
    "[class*=\"notification\"]"
  ]

  /** Every node the oracles return belongs to a document of n nodes. */
  ghost predicate Resolves(env: Env, n: nat)
  {
    && (forall sc: Scope, s: string, k: nat ::
          env.select(sc, s).Matched? && k < |env.select(sc, s).ids| ==> env.select(sc, s).ids[k] < n)
    && (forall s: string :: env.xpath(s).Some? ==> env.xpath(s).value < n)
  }

  // ---------------------------------------------------------------- predicates

  /** The characters String.prototype.trim removes. */
  predicate IsJsWhitespace(c: char)
  {
    || c == '\t' || c == '\n' || c == '\U{000B}' || c == '\U{000C}' || c == '\r' || c == ' '
    || c == '\U{00A0}' || c == '\U{1680}' || ('\U{2000}' <= c <= '\U{200A}')
    || c == '\U{2028}' || c == '\U{2029}' || c == '\U{202F}' || c == '\U{205F}'
    || c == '\U{3000}' || c == '\U{FEFF}'
  }

  /** `!s.trim()`: the text is empty once trimmed. */
  predicate IsBlank(s: string)
  {
    forall i :: 0 <= i < |s| ==> IsJsWhitespace(s[i])
  }

  /** `s.includes(sub)`. */
  predicate Includes(s: string, sub: string)
    decreases |s|
  {
    |sub| <= |s| && (s[..|sub|] == sub || (|s| > 0 && Includes(s[1..], sub)))
  }

  /** sub occurs in s starting at position i. */
  predicate OccursAt(s: string, sub: string, i: nat)
  {
    i + |sub| <= |s| && s[i..i + |sub|] == sub
  }

  /** Includes agrees with the plain meaning of `includes`: sub occurs somewhere in s. */
  lemma {:induction false} IncludesAt(s: string, sub: string)
    ensures Includes(s, sub) <==> exists i: nat :: OccursAt(s, sub, i)
    decreases |s|
  {
    if |sub| <= |s| && |s| > 0 {
      IncludesAt(s[1..], sub);
      if Includes(s[1..], sub) {
        var i: nat :| OccursAt(s[1..], sub, i);
        assert s[i + 1..i + 1 + |sub|] == s[1..][i..i + |sub|];
        assert OccursAt(s, sub, i + 1);
      }
      if s[..|sub|] == sub {
        assert OccursAt(s, sub, 0);
      }
      if exists i: nat :: OccursAt(s, sub, i) {
        var i: nat :| OccursAt(s, sub, i);
        if i > 0 {
          assert s[1..][i - 1..i - 1 + |sub|] == s[i..i + |sub|];
          assert OccursAt(s[1..], sub, i - 1);
        }
      }
    } else if |sub| <= |s| {
      assert OccursAt(s, sub, 0);
    }
  }

  /** `requiredClasses.some(cls => button.classList.contains(cls))`. */
  predicate HasRequiredClass(cfg: Config, info: seq<NodeInfo>, id: NodeId)
  {
    id < |info| && exists k :: 0 <= k < |cfg.requiredClasses| && cfg.requiredClasses[k] in info[id].classes
  }

  predicate IsPrimaryButton(info: seq<NodeInfo>, id: NodeId)
  {
    id < |info| && PrimaryButtonClass in info[id].classes
  }

  /** The test of findButtonByCSSProperties: a required class, and the primary class or the primary colour. */
  predicate IsStyledNext(cfg: Config, info: seq<NodeInfo>, id: NodeId)
  {
    var hasNextClass := HasRequiredClass(cfg, info, id);
    var isPrimaryBlue := id < |info| && Includes(info[id].background, cfg.primaryButtonColor);
    (IsPrimaryButton(info, id) && hasNextClass) || (isPrimaryBlue && hasNextClass)
  }

  /** The test of the first loop of findButtonByPositionAndContext. */
  predicate IsMarkedNext(cfg: Config, info: seq<NodeInfo>, id: NodeId)
  {
    HasRequiredClass(cfg, info, id) || (IsPrimaryButton(info, id) && IsBlank(info[id].text))
  }

  // ---------------------------------------------------------------- scans

  /** The first position at or after k whose element satisfies p. */
  function FirstIndex(ids: seq<NodeId>, p: NodeId -> bool, k: nat): (r: Option<nat>)
    ensures r.Some? ==> k <= r.value < |ids| && p(ids[r.value]) && forall i :: k <= i < r.value ==> !p(ids[i])
    ensures r.None? ==> forall i :: k <= i < |ids| ==> !p(ids[i])
    decreases |ids| - k
  {
    if k >= |ids| then None
    else if p(ids[k]) then Some(k)
    else FirstIndex(ids, p, k + 1)
  }

  function HitAt(ids: seq<NodeId>, j: Option<nat>): Outcome
    requires j.Some? ==> j.value < |ids|
  {
    if j.Some? then Hit(ids[j.value]) else Miss
  }

  /**
   * Selectors tried in order from position k: the first match of the first
   * selector with a match; a selector that throws ends the scan with the error.
   */
  function FirstSelectorMatch(env: Env, scope: Scope, sels: seq<string>, k: nat): Outcome
    decreases |sels| - k
  {
    if k >= |sels| then Miss
    else match env.select(scope, sels[k])
      case SyntaxError => Threw
      case Matched(ids) => if |ids| > 0 then Hit(ids[0]) else FirstSelectorMatch(env, scope, sels, k + 1)
  }

  /** The first XPath expression from position k that yields a node. */
  function FirstXPathMatch(env: Env, xs: seq<string>, k: nat): Option<NodeId>
    decreases |xs| - k
  {
    if k >= |xs| then None
    else if env.xpath(xs[k]).Some? then env.xpath(xs[k])
    else FirstXPathMatch(env, xs, k + 1)
  }

  /** findButtonByCSSProperties(container): its own catch turns a throw into null. */
  function CssPropertiesSearch(cfg: Config, info: seq<NodeInfo>, env: Env, scope: Scope): Option<NodeId>
  {
    match env.select(scope, ButtonSelector)
    case SyntaxError => None
    case Matched(ids) =>
      var j := FirstIndex(ids, (id: NodeId) => IsStyledNext(cfg, info, id), 0);
      if j.Some? then Some(ids[j.value]) else None
  }

  /** Strategy 1. */
  function PrimarySearch(cfg: Config, env: Env): Outcome
  {
    match env.select(WholeDocument, cfg.primarySelector)
    case SyntaxError => Threw
    case Matched(ids) => if |ids| > 0 then Hit(ids[0]) else Miss
  }

  /** The modals from position j of one modal selector: CSS matching, then the alternative selectors, in each. */
  function ModalScan(cfg: Config, info: seq<NodeInfo>, env: Env, modals: seq<NodeId>, j: nat): Outcome
    decreases |modals| - j
  {
    if j >= |modals| then Miss
    else
      var byCss := CssPropertiesSearch(cfg, info, env, Within(modals[j]));
      if byCss.Some? then Hit(byCss.value)
      else match FirstSelectorMatch(env, Within(modals[j]), cfg.alternativeSelectors, 0)
        case Hit(b) => Hit(b)
        case Threw => Threw
        case Miss => ModalScan(cfg, info, env, modals, j + 1)
  }

  /** The modal selectors from position k; a throw inside one selector's try moves on to the next selector. */
  function ModalSelectorScan(cfg: Config, info: seq<NodeInfo>, env: Env, k: nat): Option<NodeId>
    decreases |ModalSelectors| - k
  {
    if k >= |ModalSelectors| then None
    else match env.select(WholeDocument, ModalSelectors[k])
      case SyntaxError => ModalSelectorScan(cfg, info, env, k + 1)
      case Matched(modals) =>
        match ModalScan(cfg, info, env, modals, 0)
        case Hit(b) => Some(b)
        case _ => ModalSelectorScan(cfg, info, env, k + 1)
  }

  /** The first loop of findButtonByPositionAndContext, from container k. */
  function MarkedInNavigation(cfg: Config, info: seq<NodeInfo>, env: Env, navs: seq<NodeId>, k: nat): Outcome
    decreases |navs| - k
  {
    if k >= |navs| then Miss
    else match env.select(Within(navs[k]), ButtonSelector)
      case SyntaxError => Threw
      case Matched(buttons) =>
        var j := FirstIndex(buttons, (id: NodeId) => IsMarkedNext(cfg, info, id), 0);
        if j.Some? then Hit(buttons[j.value]) else MarkedInNavigation(cfg, info, env, navs, k + 1)
  }

  /** The second loop: the second button of a navigation container, when it carries the primary class. */
  function SecondButtonInNavigation(info: seq<NodeInfo>, env: Env, navs: seq<NodeId>, k: nat): Outcome
    decreases |navs| - k
  {
    if k >= |navs| then Miss
    else match env.select(Within(navs[k]), ButtonSelector)
      case SyntaxError => Threw
      case Matched(buttons) =>
        if |buttons| >= 2 && IsPrimaryButton(info, buttons[1]) then Hit(buttons[1])
        else SecondButtonInNavigation(info, env, navs, k + 1)
  }

  /** findButtonByPositionAndContext: one try around both loops, so any throw gives null. */
  function PositionSearch(cfg: Config, info: seq<NodeInfo>, env: Env): Option<NodeId>
  {
    match env.select(WholeDocument, NavigationControlsSelector)
    case SyntaxError => None
    case Matched(navs) =>
      match MarkedInNavigation(cfg, info, env, navs, 0)
      case Hit(b) => Some(b)
      case Threw => None
      case Miss =>
        match env.select(WholeDocument, NavigationSelector)
        case SyntaxError => None
        case Matched(navs2) =>
          match SecondButtonInNavigation(info, env, navs2, 0)
          case Hit(b) => Some(b)
          case _ => None
  }

  /** Strategy 7: the first button carrying a required class; no catch of its own. */
  function RequiredClassSearch(cfg: Config, info: seq<NodeInfo>, env: Env): Outcome
  {
    match env.select(WholeDocument, ButtonSelector)
    case SyntaxError => Threw
    case Matched(ids) => HitAt(ids, FirstIndex(ids, (id: NodeId) => HasRequiredClass(cfg, info, id), 0))
  }

  function FromOption(o: Option<NodeId>): Outcome
  {
    if o.Some? then Hit(o.value) else Miss
  }

  const StrategyCount: nat := 7

  /** Strategy i of locateButton's list (numbered from 0). */
  function StrategyOutcome(i: nat, cfg: Config, info: seq<NodeInfo>, env: Env): Outcome
    requires i < StrategyCount
  {
    if i == 0 then PrimarySearch(cfg, env)
    else if i == 1 then FirstSelectorMatch(env, WholeDocument, cfg.alternativeSelectors, 0)
    else if i == 2 then FromOption(FirstXPathMatch(env, cfg.xpathSelectors, 0))
    else if i == 3 then FromOption(ModalSelectorScan(cfg, info, env, 0))
    else if i == 4 then FromOption(PositionSearch(cfg, info, env))
    else if i == 5 then FromOption(CssPropertiesSearch(cfg, info, env, WholeDocument))
    else RequiredClassSearch(cfg, info, env)
  }

  // ---------------------------------------------------------------- properties of the scans

  predicate MatchesNothing(env: Env, scope: Scope, sel: string)
  {
    env.select(scope, sel).Matched? && |env.select(scope, sel).ids| == 0
  }

  /**
   * Within an ordered selector list the first selector with a match wins:
   * a hit is the first match of some selector all of whose predecessors
   * matched nothing; a throw comes from a selector whose predecessors
   * matched nothing; and nothing is found exactly when no selector matches.
   */
  lemma {:induction false} FirstSelectorMatchSpec(env: Env, scope: Scope, sels: seq<string>, k: nat)
    ensures var r := FirstSelectorMatch(env, scope, sels, k);
      && (r.Miss? <==> forall i :: k <= i < |sels| ==> MatchesNothing(env, scope, sels[i]))
      && (r.Hit? ==>
            exists j ::
              && k <= j < |sels|
              && env.select(scope, sels[j]).Matched? && |env.select(scope, sels[j]).ids| > 0
              && env.select(scope, sels[j]).ids[0] == r.node
              && forall i :: k <= i < j ==> MatchesNothing(env, scope, sels[i]))
      && (r.Threw? ==>
            exists j ::
              && k <= j < |sels| && env.select(scope, sels[j]).SyntaxError?
              && forall i :: k <= i < j ==> MatchesNothing(env, scope, sels[i]))
    decreases |sels| - k
  {
    if k < |sels| {
      FirstSelectorMatchSpec(env, scope, sels, k + 1);
    }
  }

  /** The first XPath expression that yields a node wins; null only when none does. */
  lemma {:induction false} FirstXPathMatchSpec(env: Env, xs: seq<string>, k: nat)
    ensures var r := FirstXPathMatch(env, xs, k);
      && (r.None? <==> forall i :: k <= i < |xs| ==> env.xpath(xs[i]).None?)
      && (r.Some? ==>
            exists j ::
              && k <= j < |xs| && env.xpath(xs[j]) == r
              && forall i :: k <= i < j ==> env.xpath(xs[i]).None?)
    decreases |xs| - k
  {
    if k < |xs| {
      FirstXPathMatchSpec(env, xs, k + 1);
    }
  }

  /** ModalScan only returns what a scope-restricted search returned, so only nodes of the document. */
  lemma {:induction false} ModalScanInRange(cfg: Config, info: seq<NodeInfo>, env: Env, modals: seq<NodeId>, j: nat)
    requires Resolves(env, |info|)
    ensures ModalScan(cfg, info, env, modals, j).Hit? ==> ModalScan(cfg, info, env, modals, j).node < |info|
    decreases |modals| - j
  {
    if j < |modals| {
      FirstSelectorMatchInRange(env, Within(modals[j]), cfg.alternativeSelectors, 0, |info|);
      ModalScanInRange(cfg, info, env, modals, j + 1);
    }
  }

  lemma {:induction false} FirstSelectorMatchInRange(env: Env, scope: Scope, sels: seq<string>, k: nat, n: nat)
    requires Resolves(env, n)
    ensures FirstSelectorMatch(env, scope, sels, k).Hit? ==> FirstSelectorMatch(env, scope, sels, k).node < n
    decreases |sels| - k
  {
    if k < |sels| {
      FirstSelectorMatchInRange(env, scope, sels, k + 1, n);
    }
  }

  lemma {:induction false} FirstXPathMatchInRange(env: Env, xs: seq<string>, k: nat, n: nat)
    requires Resolves(env, n)
    ensures FirstXPathMatch(env, xs, k).Some? ==> FirstXPathMatch(env, xs, k).value < n
    decreases |xs| - k
  {
    if k < |xs| {
      FirstXPathMatchInRange(env, xs, k + 1, n);
    }
  }

  lemma {:induction false} ModalSelectorScanInRange(cfg: Config, info: seq<NodeInfo>, env: Env, k: nat)
    requires Resolves(env, |info|)
    ensures ModalSelectorScan(cfg, info, env, k).Some? ==> ModalSelectorScan(cfg, info, env, k).value < |info|
    decreases |ModalSelectors| - k
  {
    if k < |ModalSelectors| {
      ModalSelectorScanInRange(cfg, info, env, k + 1);
      var modals := env.select(WholeDocument, ModalSelectors[k]);
      if modals.Matched? {
        ModalScanInRange(cfg, info, env, modals.ids, 0);
      }
    }
  }

  lemma {:induction false} PositionSearchInRange(cfg: Config, info: seq<NodeInfo>, env: Env)
    requires Resolves(env, |info|)
    ensures PositionSearch(cfg, info, env).Some? ==> PositionSearch(cfg, info, env).value < |info|
  {
    match env.select(WholeDocument, NavigationControlsSelector)
    case SyntaxError =>
    case Matched(navs) =>
      MarkedInNavigationSpec(cfg, info, env, navs, 0);
            match env.select(WholeDocument, NavigationSelector)
      case SyntaxError =>
      case Matched(navs2) => SecondButtonInNavigationSpec(info, env, navs2, 0);
  }

  /** A navigation container whose buttons can be listed and none of which carries the Next markers. */
  predicate NavClean(cfg: Config, info: seq<NodeInfo>, env: Env, nav: NodeId)
  {
    var m := env.select(Within(nav), ButtonSelector);
    m.Matched? && forall i :: 0 <= i < |m.ids| ==> !IsMarkedNext(cfg, info, m.ids[i])
  }

  /** x is the first button of the container, in document order, that carries the Next markers. */
  predicate FirstMarkedIn(cfg: Config, info: seq<NodeInfo>, env: Env, nav: NodeId, x: NodeId)
  {
    var m := env.select(Within(nav), ButtonSelector);
    && m.Matched?
    && exists p ::
         && 0 <= p < |m.ids| && m.ids[p] == x && IsMarkedNext(cfg, info, x)
         && forall q :: 0 <= q < p ==> !IsMarkedNext(cfg, info, m.ids[q])
  }

  /**
   * The first context loop: a hit is the first marked button of the first
   * container that has one, every earlier container having been listed
   * without a marked button; it throws only at a container whose button
   * query throws; it finds nothing exactly when every container is clean.
   */
  lemma {:induction false} MarkedInNavigationSpec(cfg: Config, info: seq<NodeInfo>, env: Env, navs: seq<NodeId>, k: nat)
    ensures var r := MarkedInNavigation(cfg, info, env, navs, k);
      && (r.Hit? ==> IsMarkedNext(cfg, info, r.node) && r.node < |info|)
      && (r.Hit? ==>
            exists j ::
              && k <= j < |navs| && FirstMarkedIn(cfg, info, env, navs[j], r.node)
              && forall i :: k <= i < j ==> NavClean(cfg, info, env, navs[i]))
      && (r.Threw? ==>
            exists j ::
              && k <= j < |navs| && env.select(Within(navs[j]), ButtonSelector).SyntaxError?
              && forall i :: k <= i < j ==> NavClean(cfg, info, env, navs[i]))
      && (r.Miss? <==> forall i :: k <= i < |navs| ==> NavClean(cfg, info, env, navs[i]))
    decreases |navs| - k
  {
    if k < |navs| {
      MarkedInNavigationSpec(cfg, info, env, navs, k + 1);
      var m := env.select(Within(navs[k]), ButtonSelector);
      if m.Matched? {
        var j := FirstIndex(m.ids, (id: NodeId) => IsMarkedNext(cfg, info, id), 0);
        if j.Some? {
          assert FirstMarkedIn(cfg, info, env, navs[k], m.ids[j.value]);
          assert !NavClean(cfg, info, env, navs[k]);
        } else {
          assert NavClean(cfg, info, env, navs[k]);
        }
      }
    }
  }

  /** A navigation container whose second button carries the primary class. */
  predicate SecondIsPrimary(info: seq<NodeInfo>, env: Env, nav: NodeId)
  {
    var m := env.select(Within(nav), ButtonSelector);
    m.Matched? && |m.ids| >= 2 && IsPrimaryButton(info, m.ids[1])
  }

  /** A navigation container whose buttons can be listed and whose second button is not a primary one. */
  predicate NavPassed(info: seq<NodeInfo>, env: Env, nav: NodeId)
  {
    env.select(Within(nav), ButtonSelector).Matched? && !SecondIsPrimary(info, env, nav)
  }

  /**
   * The second context loop: a hit is the second button of the first
   * container whose second button is primary; it throws only at a
   * container whose button query throws; it finds nothing exactly when
   * every container passes.
   */
  lemma {:induction false} SecondButtonInNavigationSpec(info: seq<NodeInfo>, env: Env, navs: seq<NodeId>, k: nat)
    ensures var r := SecondButtonInNavigation(info, env, navs, k);
      && (r.Hit? ==> IsPrimaryButton(info, r.node))
      && (r.Hit? ==>
            exists j ::
              && k <= j < |navs| && SecondIsPrimary(info, env, navs[j])
              && env.select(Within(navs[j]), ButtonSelector).ids[1] == r.node
              && forall i :: k <= i < j ==> NavPassed(info, env, navs[i]))
      && (r.Threw? ==>
            exists j ::
              && k <= j < |navs| && env.select(Within(navs[j]), ButtonSelector).SyntaxError?
              && forall i :: k <= i < j ==> NavPassed(info, env, navs[i]))
      && (r.Miss? <==> forall i :: k <= i < |navs| ==> NavPassed(info, env, navs[i]))
    decreases |navs| - k
  {
    if k < |navs| {
      SecondButtonInNavigationSpec(info, env, navs, k + 1);
    }
  }

  /** Every container of the first context loop is listed and clean, so the second loop runs. */
  predicate FirstLoopClean(cfg: Config, info: seq<NodeInfo>, env: Env)
  {
    var navs := env.select(WholeDocument, NavigationControlsSelector);
    navs.Matched? && forall i :: 0 <= i < |navs.ids| ==> NavClean(cfg, info, env, navs.ids[i])
  }

  /** The second context loop, over the containers of its own query, finds x. */
  predicate SecondLoopHit(info: seq<NodeInfo>, env: Env, x: NodeId)
  {
    var navs := env.select(WholeDocument, NavigationSelector);
    navs.Matched? && SecondButtonInNavigation(info, env, navs.ids, 0) == Hit(x)
  }

  /**
   * findButtonByPositionAndContext: a found button carries the Next
   * markers or the primary class. Unless every container of the first loop
   * is clean, the result is the first loop's hit (none when that loop or
   * its query throws); when it is clean, the result is the second loop's
   * hit, and nothing when that loop finds nothing or throws.
   */
  lemma PositionSearchSpec(cfg: Config, info: seq<NodeInfo>, env: Env)
    ensures var r := PositionSearch(cfg, info, env);
      var navs := env.select(WholeDocument, NavigationControlsSelector);
      && (r.Some? ==> IsMarkedNext(cfg, info, r.value) || IsPrimaryButton(info, r.value))
      && (!FirstLoopClean(cfg, info, env) ==>
            && (r.Some? <==> navs.Matched? && MarkedInNavigation(cfg, info, env, navs.ids, 0).Hit?)
            && (r.Some? ==> MarkedInNavigation(cfg, info, env, navs.ids, 0) == Hit(r.value)))
      && (FirstLoopClean(cfg, info, env) ==>
            && (r.Some? ==> SecondLoopHit(info, env, r.value))
            && (r.None? ==> forall x :: !SecondLoopHit(info, env, x)))
  {
    match env.select(WholeDocument, NavigationControlsSelector)
    case SyntaxError =>
    case Matched(navs) =>
      MarkedInNavigationSpec(cfg, info, env, navs, 0);
      match env.select(WholeDocument, NavigationSelector)
      case SyntaxError =>
      case Matched(navs2) => SecondButtonInNavigationSpec(info, env, navs2, 0);
  }

  /** One modal yields nothing: CSS matching finds nothing in it and the alternative selectors match nothing. */
  predicate ModalBarren(cfg: Config, info: seq<NodeInfo>, env: Env, modal: NodeId)
  {
    CssPropertiesSearch(cfg, info, env, Within(modal)).None?
    && FirstSelectorMatch(env, Within(modal), cfg.alternativeSelectors, 0).Miss?
  }

  /** What the search inside one modal finds: CSS matching first, the alternative selectors only when it finds nothing. */
  predicate ModalYields(cfg: Config, info: seq<NodeInfo>, env: Env, modal: NodeId, x: NodeId)
  {
    || CssPropertiesSearch(cfg, info, env, Within(modal)) == Some(x)
    || (CssPropertiesSearch(cfg, info, env, Within(modal)).None?
        && FirstSelectorMatch(env, Within(modal), cfg.alternativeSelectors, 0) == Hit(x))
  }

  /**
   * The modals of one modal selector, in order: a hit is what the first
   * modal that yields anything yields; a throw comes from an alternative
   * selector inside a modal all of whose predecessors yielded nothing;
   * nothing is found exactly when every modal yields nothing.
   */
  lemma {:induction false} ModalScanSpec(cfg: Config, info: seq<NodeInfo>, env: Env, modals: seq<NodeId>, j: nat)
    ensures var r := ModalScan(cfg, info, env, modals, j);
      && (r.Hit? ==>
            exists m ::
              && j <= m < |modals| && ModalYields(cfg, info, env, modals[m], r.node)
              && forall i :: j <= i < m ==> ModalBarren(cfg, info, env, modals[i]))
      && (r.Threw? ==>
            exists m ::
              && j <= m < |modals| && CssPropertiesSearch(cfg, info, env, Within(modals[m])).None?
              && FirstSelectorMatch(env, Within(modals[m]), cfg.alternativeSelectors, 0).Threw?
              && forall i :: j <= i < m ==> ModalBarren(cfg, info, env, modals[i]))
      && (r.Miss? <==> forall i :: j <= i < |modals| ==> ModalBarren(cfg, info, env, modals[i]))
    decreases |modals| - j
  {
    if j < |modals| {
      ModalScanSpec(cfg, info, env, modals, j + 1);
    }
  }

  /** A modal selector yields nothing: its query throws, or no modal it matches yields a node. */
  predicate SelectorBarren(cfg: Config, info: seq<NodeInfo>, env: Env, sel: string)
  {
    var modals := env.select(WholeDocument, sel);
    modals.SyntaxError? || !ModalScan(cfg, info, env, modals.ids, 0).Hit?
  }

  /**
   * findButtonInModalsAndOverlays: a found button is the hit of the first
   * modal selector whose modals yield one; a throw inside one selector's
   * try only moves on to the next; null exactly when no selector yields.
   */
  lemma {:induction false} ModalSelectorScanSpec(cfg: Config, info: seq<NodeInfo>, env: Env, k: nat)
    ensures var r := ModalSelectorScan(cfg, info, env, k);
      && (r.Some? ==>
            exists j ::
              && k <= j < |ModalSelectors| && env.select(WholeDocument, ModalSelectors[j]).Matched?
              && ModalScan(cfg, info, env, env.select(WholeDocument, ModalSelectors[j]).ids, 0) == Hit(r.value)
              && forall i :: k <= i < j ==> SelectorBarren(cfg, info, env, ModalSelectors[i]))
      && (r.None? <==> forall i :: k <= i < |ModalSelectors| ==> SelectorBarren(cfg, info, env, ModalSelectors[i]))
    decreases |ModalSelectors| - k
  {
    if k < |ModalSelectors| {
      ModalSelectorScanSpec(cfg, info, env, k + 1);
    }
  }

  /** Every strategy hit is a node of the document. */
  lemma StrategyOutcomeInRange(i: nat, cfg: Config, info: seq<NodeInfo>, env: Env)
    requires i < StrategyCount && Resolves(env, |info|)
    ensures StrategyOutcome(i, cfg, info, env).Hit? ==> StrategyOutcome(i, cfg, info, env).node < |info|
  {
    FirstSelectorMatchInRange(env, WholeDocument, cfg.alternativeSelectors, 0, |info|);
    FirstXPathMatchInRange(env, cfg.xpathSelectors, 0, |info|);
    ModalSelectorScanInRange(cfg, info, env, 0);
    PositionSearchInRange(cfg, info, env);
  }

  /**
   * A button found by CSS-property matching carries a required class, and
   * it is the first button of the scope in document order that passes the test.
   */
  lemma CssPropertiesSpec(cfg: Config, info: seq<NodeInfo>, env: Env, scope: Scope)
    ensures var r := CssPropertiesSearch(cfg, info, env, scope);
      && (r.Some? ==> HasRequiredClass(cfg, info, r.value) && IsStyledNext(cfg, info, r.value))
      && (r.Some? ==>
            && env.select(scope, ButtonSelector).Matched?
            && exists j ::
                 && 0 <= j < |env.select(scope, ButtonSelector).ids|
                 && env.select(scope, ButtonSelector).ids[j] == r.value
                 && forall i :: 0 <= i < j ==> !IsStyledNext(cfg, info, env.select(scope, ButtonSelector).ids[i]))
      && (r.None? && env.select(scope, ButtonSelector).Matched? ==>
            forall i :: 0 <= i < |env.select(scope, ButtonSelector).ids| ==>
              !IsStyledNext(cfg, info, env.select(scope, ButtonSelector).ids[i]))
  {
  }

  /** The last-resort strategy returns the first button carrying a required class, and throws only when the query does. */
  lemma RequiredClassSpec(cfg: Config, info: seq<NodeInfo>, env: Env)
    ensures var r := RequiredClassSearch(cfg, info, env);
      && (r.Hit? ==> HasRequiredClass(cfg, info, r.node))
      && (r.Hit? ==>
            exists j ::
              && 0 <= j < |env.select(WholeDocument, ButtonSelector).ids|
              && env.select(WholeDocument, ButtonSelector).ids[j] == r.node
              && forall i :: 0 <= i < j ==> !HasRequiredClass(cfg, info, env.select(WholeDocument, ButtonSelector).ids[i]))
      && (r.Threw? <==> env.select(WholeDocument, ButtonSelector).SyntaxError?)
      && (r.Miss? ==> forall i :: 0 <= i < |env.select(WholeDocument, ButtonSelector).ids| ==>
            !HasRequiredClass(cfg, info, env.select(WholeDocument, ButtonSelector).ids[i]))
  {
  }

  /** Only strategies 1, 2 and 7 can throw past their own body; the others catch internally. */
  lemma OnlyUnguardedStrategiesThrow(i: nat, cfg: Config, info: seq<NodeInfo>, env: Env)
    requires i < StrategyCount
    ensures StrategyOutcome(i, cfg, info, env).Threw? ==> i == 0 || i == 1 || i == 6
  {
  }

  // ---------------------------------------------------------------- the loops

  /** The loop of strategy 2, and of the alternative selectors tried inside a modal. */
  method FindByAlternativeSelectors(env: Env, scope: Scope, sels: seq<string>) returns (r: Outcome)
    ensures r == FirstSelectorMatch(env, scope, sels, 0)
  {
    for k := 0 to |sels|
      invariant FirstSelectorMatch(env, scope, sels, 0) == FirstSelectorMatch(env, scope, sels, k)
    {
      var matches := env.select(scope, sels[k]);
      if matches.SyntaxError? {
        return Threw;
      }
      if |matches.ids| > 0 {
        return Hit(matches.ids[0]);
      }
    }
    return Miss;
  }

  /** The loop of strategy 3. */
  method FindByXPath(env: Env, xs: seq<string>) returns (r: Option<NodeId>)
    ensures r == FirstXPathMatch(env, xs, 0)
  {
    for k := 0 to |xs|
      invariant FirstXPathMatch(env, xs, 0) == FirstXPathMatch(env, xs, k)
    {
      var element := env.xpath(xs[k]);
      if element.Some? {
        return element;
      }
    }
    return None;
  }

  /** findButtonByCSSProperties(container). */
  method FindButtonByCssProperties(cfg: Config, info: seq<NodeInfo>, env: Env, scope: Scope) returns (r: Option<NodeId>)
    ensures r == CssPropertiesSearch(cfg, info, env, scope)
    ensures r.Some? ==> HasRequiredClass(cfg, info, r.value)
  {
    var matches := env.select(scope, ButtonSelector);
    if matches.SyntaxError? {
      return None;
    }
    var buttons := matches.ids;
    ghost var p := (id: NodeId) => IsStyledNext(cfg, info, id);
    for k := 0 to |buttons|
      invariant FirstIndex(buttons, p, 0) == FirstIndex(buttons, p, k)
    {
      if IsStyledNext(cfg, info, buttons[k]) {
        return Some(buttons[k]);
      }
    }
    return None;
  }

  /** The body of one modal selector's try: each modal in turn, CSS matching first, then the alternative selectors. */
  method SearchModals(cfg: Config, info: seq<NodeInfo>, env: Env, modals: seq<NodeId>) returns (r: Outcome)
    ensures r == ModalScan(cfg, info, env, modals, 0)
  {
    for j := 0 to |modals|
      invariant ModalScan(cfg, info, env, modals, 0) == ModalScan(cfg, info, env, modals, j)
    {
      var button := FindButtonByCssProperties(cfg, info, env, Within(modals[j]));
      if button.Some? {
        return Hit(button.value);
      }
      var alt := FindByAlternativeSelectors(env, Within(modals[j]), cfg.alternativeSelectors);
      if !alt.Miss? {
        return alt;
      }
    }
    return Miss;
  }

  /** findButtonInModalsAndOverlays. */
  method FindButtonInModalsAndOverlays(cfg: Config, info: seq<NodeInfo>, env: Env) returns (r: Option<NodeId>)
    ensures r == ModalSelectorScan(cfg, info, env, 0)
  {
    for k := 0 to |ModalSelectors|
      invariant ModalSelectorScan(cfg, info, env, 0) == ModalSelectorScan(cfg, info, env, k)
    {
      var modals := env.select(WholeDocument, ModalSelectors[k]);
      if modals.Matched? {
        var found := SearchModals(cfg, info, env, modals.ids);
        if found.Hit? {
          return Some(found.node);
        }
        // a throw inside this selector's try is caught: go on with the next selector
      }
    }
    return None;
  }

  /** The first loop of findButtonByPositionAndContext. */
  method SearchMarkedInNavigation(cfg: Config, info: seq<NodeInfo>, env: Env, navs: seq<NodeId>) returns (r: Outcome)
    ensures r == MarkedInNavigation(cfg, info, env, navs, 0)
  {
    ghost var p := (id: NodeId) => IsMarkedNext(cfg, info, id);
    for k := 0 to |navs|
      invariant MarkedInNavigation(cfg, info, env, navs, 0) == MarkedInNavigation(cfg, info, env, navs, k)
    {
      var matches := env.select(Within(navs[k]), ButtonSelector);
      if matches.SyntaxError? {
        return Threw;
      }
      var buttons := matches.ids;
      for j := 0 to |buttons|
        invariant FirstIndex(buttons, p, 0) == FirstIndex(buttons, p, j)
      {
        if IsMarkedNext(cfg, info, buttons[j]) {
          return Hit(buttons[j]);
        }
      }
    }
    return Miss;
  }

  /** The second loop of findButtonByPositionAndContext. */
  method SearchSecondButton(info: seq<NodeInfo>, env: Env, navs: seq<NodeId>) returns (r: Outcome)
    ensures r == SecondButtonInNavigation(info, env, navs, 0)
  {
    for k := 0 to |navs|
      invariant SecondButtonInNavigation(info, env, navs, 0) == SecondButtonInNavigation(info, env, navs, k)
    {
      var matches := env.select(Within(navs[k]), ButtonSelector);
      if matches.SyntaxError? {
        return Threw;
      }
      var buttons := matches.ids;
      if |buttons| >= 2 && IsPrimaryButton(info, buttons[1]) {
        return Hit(buttons[1]);
      }
    }
    return Miss;
  }

  /** findButtonByPositionAndContext. */
  method FindButtonByPositionAndContext(cfg: Config, info: seq<NodeInfo>, env: Env) returns (r: Option<NodeId>)
    ensures r == PositionSearch(cfg, info, env)
  {
    var navControls := env.select(WholeDocument, NavigationControlsSelector);
    if navControls.SyntaxError? {
      return None;
    }
    var marked := SearchMarkedInNavigation(cfg, info, env, navControls.ids);
    if marked.Hit? {
      return Some(marked.node);
    } else if marked.Threw? {
      return None;
    }
    var navs := env.select(WholeDocument, NavigationSelector);
    if navs.SyntaxError? {
      return None;
    }
    var second := SearchSecondButton(info, env, navs.ids);
    if second.Hit? {
      return Some(second.node);
    }
    return None;
  }

  /** Strategy 7, the last resort. */
  method FindByRequiredClass(cfg: Config, info: seq<NodeInfo>, env: Env) returns (r: Outcome)
    ensures r == RequiredClassSearch(cfg, info, env)
    ensures r.Hit? ==> HasRequiredClass(cfg, info, r.node)
  {
    var matches := env.select(WholeDocument, ButtonSelector);
    if matches.SyntaxError? {
      return Threw;
    }
    var allButtons := matches.ids;
    ghost var p := (id: NodeId) => HasRequiredClass(cfg, info, id);
    for k := 0 to |allButtons|
      invariant FirstIndex(allButtons, p, 0) == FirstIndex(allButtons, p, k)
    {
      if HasRequiredClass(cfg, info, allButtons[k]) {
        return Hit(allButtons[k]);
      }
    }
    return Miss;
  }

  /** Runs strategy i of the list (numbered from 0). */
  method RunStrategy(i: nat, cfg: Config, info: seq<NodeInfo>, env: Env) returns (r: Outcome)
    requires i < StrategyCount
    ensures r == StrategyOutcome(i, cfg, info, env)
  {
    if i == 0 {
      var matches := env.select(WholeDocument, cfg.primarySelector);
      r := if matches.SyntaxError? then Threw else if |matches.ids| > 0 then Hit(matches.ids[0]) else Miss;
    } else if i == 1 {
      r := FindByAlternativeSelectors(env, WholeDocument, cfg.alternativeSelectors);
    } else if i == 2 {
      var found := FindByXPath(env, cfg.xpathSelectors);
      r := FromOption(found);
    } else if i == 3 {
      var found := FindButtonInModalsAndOverlays(cfg, info, env);
      r := FromOption(found);
    } else if i == 4 {
      var found := FindButtonByPositionAndContext(cfg, info, env);
      r := FromOption(found);
    } else if i == 5 {
      var found := FindButtonByCssProperties(cfg, info, env, WholeDocument);
      r := FromOption(found);
    } else {
      r := FindByRequiredClass(cfg, info, env);
    }
  }
}
