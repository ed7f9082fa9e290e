# clicker-script in Dafny

A model of `ButtonClicker`, the browser user script of clicker-script (`index.js`). The script finds a
"next" button on the page with seven search strategies. It makes that button and its ancestors
interactable and clicks it with a synthetic mouse-event sequence. Once the button is found it clicks
again on a fixed interval until a two-hour deadline. While the button is missing, it retries on a timer
and watches the document with a MutationObserver.

Modules, one per part of the class:

- `Settings`: the configuration record and its defaults (`index.js:9-40`).
- `Duration`: `formatDuration`, as `H:MM:SS` over whole seconds.
- `Dom`: the document. Node records are immutable: kind, parent, classes, text and computed
  background colour. Nodes are numbered so that a parent precedes its children. A `Document` object
  adds what `ensureInteractable` rewrites: the attribute and inline-style `Marks` of each node (an
  `array`) and the focused element.
- `Normalizer`: `ensureInteractable`. It is a walk function with a method over the `Document` that
  carries the source's loop.
- `Strategies`: the seven strategies of `locateButton`, with `findButtonByCSSProperties`,
  `findButtonInModalsAndOverlays`, `findButtonByPositionAndContext` and the XPath strategy. Each one is
  a scan function that states its meaning, and a method with the source's loops proved equal to it.
  `querySelectorAll` and `document.evaluate` are oracles in an `Env` value.
- `Locator`: `locateButton`. The strategies run in list order, and the first hit that
  `ensureInteractable` accepts is the answer.
- `Dispatch`: `dispatchClickSequence`, the events it sends in order and the throw points.
- `ClickerSpec`: the scheduler as transition functions over one state value.
  - The state holds the fields of `this.state`.
  - It also holds the host's live timeouts, intervals and observers, and the next handle the host
    hands out.
  - It has the invariant `Valid` and the lemmas about start, stop, performClick and the callbacks.
  - `StartCorrected` is start with the leaked retry of "## Findings" fixed. Its invariant is
    `SingleRetry`.
- `Clicker`: the `ButtonClicker` class.
  - Its fields are those of `this.state` and the host's timer tables.
  - Its methods update the fields in place and locate on the `Document` passed in.
  - Each public method (the constructor, `SetupMutationObserver`, `Start`, `Stop`, `PerformClick` and
    the four callbacks) is proved to leave `State()` equal to its `ClickerSpec` transition applied to
    the old state, and to keep `Valid`.
  - The helpers they are built from (`ConnectObserver`, `ArmFindButtonTimeout`,
    `ClearFindButtonTimeout`, `DisconnectMutationObserver`, `ClearClickInterval` and `RunAttempt`) are
    proved only equal to their transitions. They neither require nor ensure `Valid`.

The clock (`Date.now()`) is a parameter `now` of each operation. `hasTimeRemaining` is
`ButtonClicker.HasTimeRemaining(now)`, that is `now < endTimestamp`. Each scheduled callback (a retry
timeout, the click interval, the debounced observer callback) is a method that the host calls when that
callback fires.

Where the code differs from what it evidently means to do, the model follows the code:

- `locateButton` moves on to the next strategy when `ensureInteractable` returns null. It does not
  return the original element.
- A strategy-2 selector that throws ends strategy 2. Later selectors are not tried.
- The ancestor walk stops before `document.body`. It does not go up to the root.
- The inline styles are overwritten whatever they were before.
- `attempt` is not reset when start finds the button. It keeps counting the attempts made so far.
- ensureInteractable returns null for a non-null hit that is not an element (a text node). Its
  ancestors are rewritten first, and then the element-only step throws into the catch.

`start` is modelled as `index.js` writes it. Arming a retry overwrites `findButtonTimeout`, and a retry
still pending under the old handle is not cancelled (see "## Findings"). `ClickerSpec.StartCorrected`
cancels that retry first. The class follows the code as written.

## Model

| member | source | states |
|---|---|---|
| `Duration.Decimal` | index.js:76-78 | `String(n)` of a natural number is a non-empty digit string without a leading zero |
| `Duration.TotalSeconds` | index.js:75 | `Math.max(Math.floor(ms / 1000), 0)`: floor division by 1000, negative results clamped to 0; `SubSecondIsZero` and `FormatDurationTruncates` state its behaviour |
| `Duration.PadStart2` | index.js:76-78 | `padStart(2, '0')`: a string of two or more characters is kept, a shorter one gets '0's in front up to length 2; `FieldDenotes` states what it gives for `String(n)` |
| `Duration.DecimalRoundTrip` | index.js:76-78 | reading back the digits of `String(n)` gives `n` |
| `Duration.FormatDuration` | index.js:74-80 | formatDuration; the shape and value of its result are stated by `FormatDurationFields`, `SubSecondIsZero` and `FormatDurationTruncates` |
| `Duration.FieldDenotes` | index.js:76-78 | `padStart(2, '0')` of `String(n)`: at least two digits, exactly two below 100, a leading '0' below 10, still denoting `n` |
| `Duration.FormatDurationFields` | index.js:74-80 | the result is `H:MM:SS`; MM and SS are two digits below 60; H has at least two digits, and a leading zero only when it has exactly two; H*3600 + MM*60 + SS is `max(floor(ms/1000), 0)` |
| `Duration.SubSecondIsZero` | index.js:75 | a negative or sub-second duration renders as `00:00:00` |
| `Duration.FormatDurationTruncates` | index.js:75 | a remainder below 1000 ms never changes the rendering (floor division, no rounding) |
| `Dom.OnWalkBelow` | index.js:119-133 | the ancestor walk only moves up the tree (to lower-numbered nodes) and never visits `body` |
| `Dom.Contains` | index.js:144 | `element.contains(node)`: the node is the element itself or lies below it on its parent chain; `NormalizeSpec` uses it for the blur |
| `Normalizer.FixWalk` | index.js:119-133 | the marks after the ancestor walk; `FixWalkAt` states which nodes change and how |
| `Normalizer.Cleared` | index.js:121-132 | one step of the walk: an element loses `aria-hidden` and `inert` and gets pointer-events auto, visibility visible and opacity 1, with display kept; a text node, which has neither attributes nor a style, is unchanged; `FixWalkAt` states its effect along the walk |
| `Normalizer.Enabled` | index.js:137-141 | the fixes to the element itself: not disabled, no `aria-disabled`, not hidden; `NormalizedIsInteractable` states the result |
| `Normalizer.Normalize` | index.js:114-153 | ensureInteractable as a function of the marks and focus; it keeps one mark per node, and `NormalizeSpec` states the rest |
| `Normalizer.FixWalkAt` | index.js:119-133 | the walk rewrites exactly the nodes from the element up to, not including, `body`; element nodes lose aria-hidden and inert and get pointer-events auto, visibility visible and opacity 1; text nodes and display are left alone |
| `Normalizer.NormalizeSpec` | index.js:114-153 | null gives null with nothing changed. Otherwise: a text node gives null after its walk; an element is returned. It is then not disabled, not hidden and without aria-disabled, and its whole walk is cleared. Nodes off the walk are unchanged, and focus inside the element is dropped |
| `Normalizer.NormalizedIsInteractable` | index.js:114-148 | an element that ensureInteractable returns is interactable: enabled, unhidden, with a clear walk to body |
| `Normalizer.NormalizeSparesBody` | index.js:120 | `body` is never rewritten unless it is the element itself |
| `Normalizer.FixWalkIdempotent` | index.js:119-133 | running the ancestor walk twice is the same as once |
| `Normalizer.NormalizeIdempotent` | index.js:114-153 | a second ensureInteractable of the same element returns the same and changes nothing more |
| `Normalizer.EnsureInteractable` | index.js:114-153 | the method with the source's while loop returns, and leaves marks and focus, exactly as `Normalize` says |
| `Strategies.IncludesAt` | index.js:221 | `includes` holds exactly when the colour prefix occurs at some position of the background string |
| `Strategies.Includes` | index.js:221 | `bgColor.includes(primaryButtonColor)`; `IncludesAt` states that it holds exactly when the colour occurs at some offset |
| `Strategies.IsJsWhitespace` | index.js:284 | the characters `String.prototype.trim` removes: tab, line feed, vertical tab, form feed, carriage return, space, the line and paragraph separators, the Unicode space separators and the byte-order mark |
| `Strategies.IsBlank` | index.js:284 | `!textContent.trim()`: the text is empty once whitespace is trimmed, that is, every character is whitespace |
| `Strategies.HasRequiredClass` | index.js:218-220 | `requiredClasses.some(cls => classList.contains(cls))`: the button has one of the configured classes |
| `Strategies.IsPrimaryButton` | index.js:217 | `classList.contains('uikit-primary-button')`, the same test at index.js:283 and index.js:296; used by `IsStyledNext`, `IsMarkedNext` and `SecondButtonInNavigationSpec` |
| `Strategies.IsStyledNext` | index.js:217-223 | the CSS-property test: a required class, and either the primary class or a background containing the primary colour |
| `Strategies.IsMarkedNext` | index.js:281-284 | the first context loop's test: a required class, or the primary class with blank trimmed text |
| `Strategies.FirstIndex` | index.js:214-225 | the first position of a list that passes a test, and none before it; none when no position passes |
| `Strategies.FirstSelectorMatch` | index.js:316-322 | the alternative-selector scan; its meaning is `FirstSelectorMatchSpec` |
| `Strategies.FirstXPathMatch` | index.js:324-330 | the XPath scan; its meaning is `FirstXPathMatchSpec` |
| `Strategies.PrimarySearch` | index.js:310-314 | strategy 1: the first match of the primary selector, a miss when it has none, a throw when the query throws; `PrimaryHitWins` states its priority |
| `Strategies.CssPropertiesSearch` | index.js:211-231 | findButtonByCSSProperties, its own catch giving null; its meaning is `CssPropertiesSpec` |
| `Strategies.ModalScan` | index.js:253-263 | the modals of one selector; its meaning is `ModalScanSpec` |
| `Strategies.ModalSelectorScan` | index.js:234-269 | findButtonInModalsAndOverlays; its meaning is `ModalSelectorScanSpec` |
| `Strategies.MarkedInNavigation` | index.js:278-289 | the first context loop; its meaning is `MarkedInNavigationSpec` |
| `Strategies.SecondButtonInNavigation` | index.js:292-302 | the second context loop; its meaning is `SecondButtonInNavigationSpec` |
| `Strategies.PositionSearch` | index.js:272-305 | findButtonByPositionAndContext; its meaning is `PositionSearchSpec` |
| `Strategies.RequiredClassSearch` | index.js:338-348 | strategy 7; its meaning is `RequiredClassSpec` |
| `Strategies.StrategyOutcome` | index.js:309-349 | strategy i of locateButton's list; `StrategyOutcomeInRange` and `OnlyUnguardedStrategiesThrow` state what every strategy shares |
| `Strategies.FirstSelectorMatchSpec` | index.js:316-322 | the alternative selectors are tried in order. A hit is the first match of the first selector with any match; a throw comes from a selector whose predecessors matched nothing; a miss means no selector matched |
| `Strategies.FirstXPathMatchSpec` | index.js:324-330 | the first XPath expression that yields a node wins, and none is found exactly when none yields one |
| `Strategies.CssPropertiesSpec` | index.js:211-231 | the first button of the scope that has a required class and either the primary class or the primary colour; a miss means no button passes |
| `Strategies.MarkedInNavigationSpec` | index.js:278-289 | the first context loop returns the first marked button (a required class, or a primary button with blank trimmed text) of the first container that has one. Every earlier container was listed and has none. A throw comes from a container whose button query throws. A miss means every container is clean |
| `Strategies.SecondButtonInNavigationSpec` | index.js:292-302 | the second context loop returns the second button of the first container whose second button is primary. Every earlier container was listed and fails that test. A throw comes from a container's query. A miss means every container fails the test |
| `Strategies.RequiredClassSpec` | index.js:338-348 | the last resort returns the first button with a required class; it throws exactly when the query does; a miss means no button has one |
| `Strategies.ModalScanSpec` | index.js:253-263 | within one selector's modals, a hit is what the first modal that yields anything yields: CSS matching first, the alternative selectors only when it finds nothing. Every earlier modal yields nothing. A throw comes from an alternative selector. A miss means no modal yields |
| `Strategies.ModalSelectorScanSpec` | index.js:234-269 | a found button is the hit of the first modal selector whose modals yield one; every earlier selector threw or yielded nothing; null exactly when no selector yields |
| `Strategies.PositionSearchSpec` | index.js:272-305 | a found button has the Next markers or the primary class. Unless every first-loop container is clean, the result is the first loop's hit (null when that loop or its query throws). Otherwise it is the second loop's hit, and null when that loop finds nothing or throws |
| `Strategies.StrategyOutcomeInRange` | index.js:308-349 | every strategy hit is a node of the document |
| `Strategies.OnlyUnguardedStrategiesThrow` | index.js:309-349 | only strategies 1, 2 and 7 can throw out of their own body; the others catch inside |
| `Strategies.FindByAlternativeSelectors` | index.js:316-322 | the loop of strategy 2 computes `FirstSelectorMatch` |
| `Strategies.FindByXPath` | index.js:324-330 | the loop of strategy 3 computes `FirstXPathMatch` |
| `Strategies.FindButtonByCssProperties` | index.js:211-231 | the loop computes `CssPropertiesSearch`, and its hit carries a required class |
| `Strategies.SearchModals` | index.js:253-263 | the loop over one selector's modals computes `ModalScan`: CSS matching in each modal, then the alternative selectors (its meaning is `ModalScanSpec`) |
| `Strategies.FindButtonInModalsAndOverlays` | index.js:234-269 | the loop over the twelve modal selectors computes `ModalSelectorScan`; a throw moves on to the next selector (its meaning is `ModalSelectorScanSpec`) |
| `Strategies.SearchMarkedInNavigation` | index.js:278-289 | the nested loop computes `MarkedInNavigation` |
| `Strategies.SearchSecondButton` | index.js:292-302 | the loop computes `SecondButtonInNavigation` |
| `Strategies.FindButtonByPositionAndContext` | index.js:272-305 | the two loops under one `try` compute `PositionSearch`; any throw gives null (its meaning is `PositionSearchSpec`) |
| `Strategies.FindByRequiredClass` | index.js:338-348 | the loop computes `RequiredClassSearch`, and its hit carries a required class |
| `Strategies.RunStrategy` | index.js:309-349 | running strategy i gives `StrategyOutcome(i)` |
| `Locator.FirstAccepted` | index.js:351-366 | the first strategy whose hit is an element (what ensureInteractable accepts), with no earlier one |
| `Locator.Accepted` | index.js:354-356 | strategy i's hit is an element node of the document, which is exactly what ensureInteractable returns non-null for (`NormalizeSpec`); `LocateFirstAccepted` states the locate result in its terms |
| `Locator.LocateFrom` | index.js:351-366 | locateButton as a function of the strategies' hits and the document; `LocateFirstAccepted`, `LocatedIsInteractable` and `LocateIsStable` state its properties |
| `Locator.LocateFirstAccepted` | index.js:351-366 | locateButton returns the hit of the first accepted strategy, and null exactly when none is accepted; what rejected hits did to the document does not change the answer |
| `Locator.PrimaryHitWins` | index.js:310-314 | an element found by the primary selector is the answer, whatever later strategies find |
| `Locator.LocateIsStable` | index.js:308-367 | on the same tree, locating again gives the same element, whatever the marks and focus are |
| `Locator.LocatedIsInteractable` | index.js:351-366 | what locateButton returns is an interactable element of the document |
| `Locator.LocateButton` | index.js:308-367 | the method with the strategy loop returns, and leaves the document, exactly as `LocateFrom` says |
| `Dispatch.DispatchClickSequence` | index.js:156-191 | no target: nothing is sent and the result is false. A throw at step k: the first k events were sent, and the result is false. Otherwise: mouseover, mousedown, focus, mouseup, click, then the native `click()` when present, and the result is true |
| `Settings.Defaults` | index.js:9-40 | the constructor's default options; `ClickerSpec.DefaultsLeakRetry` shows the finding applies to them |
| `ClickerSpec.Initial` | index.js:44-54 | the state the constructor sets up: attempt 0, not running, no clicks, no handle, nothing live; `InitialValid` and `CorrectedKeepsSingleRetry` state its invariants |
| `ClickerSpec.Valid` | index.js:44-533 | the handle invariant: every handle in use was handed out by the host; the only live interval is `clickInterval`'s and the only connected observer is `mutationObserver`'s; an interval is live only while running. It does not bound the pending retries, because start as written can leave several; `InitialValid`, the `KeepsValid` lemmas and `OneOfEachKind` state what it gives |
| `ClickerSpec.SingleRetry` | index.js:472-475 | `Valid`, and the only pending retry is the one named by `findButtonTimeout`, as the success path's clearTimeout (and stop's, index.js:521-524) presume; `SingleRetryBounds` and `CorrectedKeepsSingleRetry` state what it gives and who keeps it |
| `ClickerSpec.Proceeds` | index.js:451-459 | start's two guards: time remains and the clicker is not both running and clicking on an interval; `StartGuards` and `StartIdempotentOnceClicking` state what start does otherwise |
| `ClickerSpec.ArmTimeout` | index.js:497-508 | `findButtonTimeout = setTimeout(...)`, at index.js:497 and index.js:505: a new pending timeout under a fresh handle, which overwrites the handle without cancelling what it named; `StartRetries` and `StartExhausted` state its effect |
| `ClickerSpec.ClearTimeout` | index.js:472-475 | clearTimeout of `findButtonTimeout` and the null assignment, as also at index.js:521-524: that one pending timeout is cancelled and the handle dropped; `StartOnButton` and `StopClears` state its effect |
| `ClickerSpec.DisconnectObserver` | index.js:478-481 | disconnect of `mutationObserver` and the null assignment, as also at index.js:526-529; `StartOnButton` and `StopClears` state its effect |
| `ClickerSpec.ClearInterval` | index.js:516-519 | clearInterval of `clickInterval` and the null assignment; `StopClears` states its effect |
| `ClickerSpec.Attempt` | index.js:465-509 | start once its guards pass, the attempt is counted and locateButton has answered: click on a hit, otherwise arm a retry (connecting the observer on attempt 1) or, after `maxAttempts`, reconnect the observer and arm a reset retry at twice the delay; `StartOnButton`, `StartRetries` and `StartExhausted` state each branch |
| `ClickerSpec.Clicking` | index.js:465-486 | the found branch: one click counted, lastButtonFound = now, the named retry cancelled, the observer disconnected, one interval armed; `StartOnButton` states it |
| `ClickerSpec.IntervalFired` | index.js:484-486 | the click interval fires: exactly performClick; `PerformClickKeepsValid` and `CallbacksKeepValid` state what it keeps |
| `ClickerSpec.SetupObserver` | index.js:370-399 | setupMutationObserver; `SetupObserverKeepsValid` states its effect |
| `ClickerSpec.Start` | index.js:450-510 | start as written; its effect is stated by `StartGuards`, `StartOnButton`, `StartRetries`, `StartExhausted` and `StartCount` |
| `ClickerSpec.PerformClick` | index.js:425-447 | performClick; its effect is stated by `PerformClickPastDeadline` and `PerformClickBeforeDeadline` |
| `ClickerSpec.Stop` | index.js:513-533 | stop; its effect is stated by `StopClears`, `StopIdempotent` and `StopForgetsHandles` |
| `ClickerSpec.TimeoutFired` | index.js:497-508 | a pending retry fires: the host forgets it, a reset retry sets attempt to 0, then start; `ResetRetryRestartsCount` states the reset case |
| `ClickerSpec.ObserverFired` | index.js:379-388 | one debounced firing of the observer callback; `ObserverRestartsAfterStop` states its effect after stop |
| `ClickerSpec.VisibilityChanged` | index.js:402-411 | handleVisibilityChange; `VisibilityRestartLeaksRetry` follows it through the finding |
| `ClickerSpec.StartCorrected` | index.js:490-509 | start with a pending retry cancelled before a new one is armed; `StartLeavesOneRetry` states what that buys |
| `ClickerSpec.InitialValid` | index.js:44-54 | the constructor's state satisfies the invariant |
| `ClickerSpec.SetupObserverKeepsValid` | index.js:370-399 | setupMutationObserver keeps the invariant; exactly the new observer is connected |
| `ClickerSpec.StopKeepsValid` | index.js:513-533 | stop keeps the invariant |
| `ClickerSpec.StartKeepsValid` | index.js:450-510 | start keeps the invariant |
| `ClickerSpec.PerformClickKeepsValid` | index.js:425-447 | performClick keeps the invariant |
| `ClickerSpec.CallbacksKeepValid` | index.js:370-510 | the retry timeouts, the click interval, the observer callback and handleVisibilityChange keep the invariant |
| `ClickerSpec.OneOfEachKind` | index.js:370-510 | at most one click interval and one connected observer at any time |
| `ClickerSpec.StartGuards` | index.js:450-459 | past the deadline, or while already clicking periodically, start changes nothing |
| `ClickerSpec.StartOnButton` | index.js:461-487 | a found button gives one more attempt and running. One click is counted whatever the dispatch did. The retry named by `findButtonTimeout` is cancelled and every other pending retry is kept. The observer is gone, and exactly one interval runs at `clickInterval` |
| `ClickerSpec.StartIdempotentOnceClicking` | index.js:456-459 | once start has found the button, every later start is a no-op |
| `ClickerSpec.StartRetries` | index.js:490-499 | no button with attempts left: a retry after `findButtonDelay` is armed under a fresh handle, and every retry already pending is kept. The observer starts only on attempt 1. No click is counted |
| `ClickerSpec.StartExhausted` | index.js:500-509 | no button with attempts used up: the observer is rearmed. A reset-and-retry after twice `findButtonDelay` is armed under a fresh handle, and every retry already pending is kept |
| `ClickerSpec.ResetRetryRestartsCount` | index.js:505-508 | when the reset retry fires without a button, discovery starts again at attempt 1 |
| `ClickerSpec.PerformClickPastDeadline` | index.js:425-430 | past the deadline performClick is exactly stop |
| `ClickerSpec.PerformClickBeforeDeadline` | index.js:432-446 | a click is counted, and lastButtonFound moves, exactly when a button was found and dispatch succeeded. No button means a fresh observer. No timer is armed or cancelled, and otherwise nothing changes |
| `ClickerSpec.StopClears` | index.js:513-533 | after stop: not running, attempt 0, counts kept, no handle, no interval and no observer. Of the pending retries only the one `findButtonTimeout` names is cancelled |
| `ClickerSpec.StopIdempotent` | index.js:513-533 | stop twice is stop once |
| `ClickerSpec.StopForgetsHandles` | index.js:513-533 | what stop leaves depends only on the click counters, the handle counter and the retries `findButtonTimeout` does not name |
| `ClickerSpec.ClickCountNeverDecreases` | index.js:425-533 | no operation or callback lowers the click count |
| `ClickerSpec.StartCount` | index.js:450-468 | start counts one click exactly when it gets past its guards and has a button |
| `ClickerSpec.VisibilityRestartLeaksRetry` | index.js:490-509 | with start as written, for every configuration allowing more than two attempts whose retry delay exceeds 1000 ms and ends before the deadline: a visibility change at 1000 ms during discovery leaves two retries pending. stop cancels only one. The other fires when due, at `findButtonDelay`, and restarts the clicker, which clicks |
| `ClickerSpec.DefaultsLeakRetry` | index.js:9-40 | the leaked-retry trace happens with the default options (ten attempts, a retry after 2000 ms, two hours) |
| `ClickerSpec.ObserverRestartsAfterStop` | index.js:374-388 | a debounced observer callback still pending after stop that finds the button starts the clicker again, at attempt 1 with one more click, with start as written and as corrected |
| `ClickerSpec.StartLeavesOneRetry` | index.js:490-509 | with start corrected, from any state with a single retry: after start at most one retry is pending, the invariant holds again, and stop then leaves nothing live |
| `ClickerSpec.SingleRetryBounds` | index.js:513-533 | with the single-retry invariant at most one retry is pending, and stop leaves no timer and no observer of any kind |
| `ClickerSpec.CorrectedKeepsSingleRetry` | index.js:370-533 | the constructor's state has the single-retry invariant. The corrected start keeps it, and so do stop, performClick and the state changes a firing timer, the observer and the visibility handler make before they call start |
| `Clicker.ButtonClicker.constructor` | index.js:44-54 | the initial state, with `endTimestamp` = now + `durationMs` |
| `Clicker.ButtonClicker.HasTimeRemaining` | index.js:83-85 | `Date.now() < endTimestamp`, with the clock as the parameter `now` |
| `Clicker.ButtonClicker.SetupMutationObserver` | index.js:370-399 | disconnects any previous observer and connects a new one (`ClickerSpec.SetupObserver`) |
| `Clicker.ButtonClicker.ConnectObserver` | index.js:371-396 | the fields end equal to `ClickerSpec.SetupObserver` of the old state: the old observer disconnected, a new one connected under a fresh handle |
| `Clicker.ButtonClicker.ArmFindButtonTimeout` | index.js:497-508 | the fields end equal to `ClickerSpec.ArmTimeout` of the old state, for the arming at index.js:497 and at index.js:505 |
| `Clicker.ButtonClicker.ClearFindButtonTimeout` | index.js:472-475 | the fields end equal to `ClickerSpec.ClearTimeout` of the old state, for the clearing here and at index.js:521-524 |
| `Clicker.ButtonClicker.DisconnectMutationObserver` | index.js:478-481 | the fields end equal to `ClickerSpec.DisconnectObserver` of the old state, for the disconnect here and at index.js:526-529 |
| `Clicker.ButtonClicker.ClearClickInterval` | index.js:516-519 | the fields end equal to `ClickerSpec.ClearInterval` of the old state |
| `Clicker.ButtonClicker.RunAttempt` | index.js:465-509 | the part of start after locateButton: the fields end equal to `ClickerSpec.Attempt` with the located button |
| `Clicker.ButtonClicker.Start` | index.js:450-510 | updates the fields to `ClickerSpec.Start` (start as written) of the old state and what locateButton finds; the document ends as after locateButton exactly when start gets past its guards |
| `Clicker.ButtonClicker.Stop` | index.js:513-533 | updates the fields to `ClickerSpec.Stop` of the old state |
| `Clicker.ButtonClicker.PerformClick` | index.js:425-447 | updates the fields to `ClickerSpec.PerformClick` with the located button and whether the dispatch succeeded; it locates only before the deadline |
| `Clicker.ButtonClicker.TimeoutFired` | index.js:497-508 | a pending retry fires: the host forgets it, a reset retry sets attempt to 0, then start runs |
| `Clicker.ButtonClicker.IntervalFired` | index.js:484-486 | the click interval fires: performClick |
| `Clicker.ButtonClicker.ObserverFired` | index.js:379-388 | when not clicking periodically, locate; on a hit, reset attempt and start, which locates again; the document ends accordingly |
| `Clicker.ButtonClicker.HandleVisibilityChange` | index.js:402-411 | becoming visible while running without an interval calls start; anything else changes nothing |

## Left out

- CSS selector matching, `document.evaluate` and `getComputedStyle` are not modelled. Queries are
  the oracles of `Strategies.Env`, a background colour is a string of the node record, and
  `textContent` is the node's text.
- LocateIsStable: the query oracles are assumed blind to what ensureInteractable rewrites (inline
  style, aria-hidden, inert, disabled, hidden, aria-disabled) and to focus. A configured selector
  or XPath expression that tests those could answer differently later in the same locate call, or
  on the observer's second locate. That case is not modelled. The default selectors do not test
  them: the only default that reads a rewritten attribute is `div[style*="z-index"]`, and the
  rewrite never adds or removes `z-index`.
- The tree is fixed during one call. The page changing between calls is a different `Document` or
  `Env` passed to the next call.
- `isElementVisible` (index.js:88-111) is not modelled: none of the modelled operations calls it.
- `log` and its console output, timestamps and messages are left out: they are I/O with no effect on
  the state.
- `waitForPageReady`, the listener wiring and the bootstrap at the end of the file (index.js:414-423,
  535-555) are left out: they are host start-up.
- The 500 ms debounce timer of the observer is left out: `ObserverFired` is one debounced firing, and
  the host may call it at any time. That includes after stop, because neither stop nor `disconnect`
  clears the debounce timer (`ClickerSpec.ObserverRestartsAfterStop`). Which mutations trigger it
  (the `observe` options) is not modelled either.
- Event objects are not modelled: no coordinates (`getBoundingClientRect`, floating point), no
  bubbling flags, no listener effects. `Dispatch.DispatchClickSequence` models the order of the
  events and where a throw stops them. `ButtonClicker.Start` does not call it, because start never
  looks at its outcome.
- `blur()` is modelled as dropping focus. Whether the focused element has a `blur` method is not
  modelled.
- `style.display = style.display || ''` is modelled as leaving display unchanged.
- Each operation reads the clock once. The source reads `Date.now()` several times in one call.
- `ms` in `formatDuration` is an unbounded integer, and the model computes exactly. Non-integer
  milliseconds are not modelled. JavaScript numbers are doubles: above 2^53 `ms / 1000` rounds, and
  `String()` switches to exponent notation from 1e21 on. That is not modelled either.
- The `...config` override is any `Config` value. `visibilityCheckDelay`, `debug` and
  `startTimestamp` are kept but never read by the modelled operations. The source reads
  `visibilityCheckDelay` only in `waitForPageReady` and `debug` only in `log`, both left out, and
  never reads `startTimestamp`.

## Findings

| source | as written | input that shows it | evidently intended | confidence | as-written member | corrected member |
|---|---|---|---|---|---|---|
| index.js:497-508 | start arms `findButtonTimeout` with a new `setTimeout` and never cancels a retry that is still pending. handleVisibilityChange (index.js:402-411) calls start while a retry is pending | The first start finds no button (retry pending, handle 2). The page becomes visible at 1000 ms with no button, so start runs again (retry handle 3; handle 2 is still live). stop cancels only 3. Timer 2 fires when due, `findButtonDelay` after the first start (2000 ms by default); a button is present, and the clicker runs again after stop | One retry at a time, and stop cancels every pending retry, as the success path (index.js:472-475) and stop (index.js:521-524) do for the one handle they know. A debounced observer callback pending at stop can still restart the clicker either way (`ClickerSpec.ObserverRestartsAfterStop`) | not executed; high | `ClickerSpec.VisibilityRestartLeaksRetry` | `ClickerSpec.StartLeavesOneRetry` |
