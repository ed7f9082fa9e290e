/**
 * The scheduling state machine of ButtonClicker (start, stop, performClick,
 * setupMutationObserver and the callbacks they schedule) as functions on
 * a state value. Besides the fields of `this.state` the state holds the
 * host's side: the timeouts, intervals and observers that are really live,
 * and the next handle the host hands out. A handle field may keep a stale
 * handle after its timer has fired, as in the source.
 */
module ClickerSpec {
  import opened Wrappers
  import opened Settings
  import opened Dom

  type Handle = nat

  /** What a pending findButtonTimeout will run: a plain retry of start, or reset attempt to 0 and then start. */
  datatype Callback = Retry | ResetAndRetry

  datatype Timeout = Timeout(callback: Callback, delay: int)

  datatype State = State(
    attempt: int,
    isRunning: bool,
    clickCount: nat,
    lastButtonFound: Option<int>,
    clickInterval: Option<Handle>,
    findButtonTimeout: Option<Handle>,
    mutationObserver: Option<Handle>,
    timeouts: map<Handle, Timeout>,   // live one-shot timers
    intervals: map<Handle, int>,      // live repeating timers and their period
    observers: set<Handle>,           // connected observers
    nextHandle: Handle)

  function Live(h: Option<Handle>): set<Handle>
  {
    if h.Some? then {h.value} else {}
  }

  /** The state the constructor sets up (the clock is not part of it). */
  function Initial(): State
  {
    State(0, false, 0, None, None, None, None, map[], map[], {}, 1)
  }

  /**
   * The invariant every transition keeps: handles come from the host, the
   * only live interval is clickInterval's, the only connected observer is
   * mutationObserver's (so at most one of each), and an interval is live
   * only while running. Nothing bounds the pending retries: see
   * SingleRetry and the corrected start below.
   */
  ghost predicate Valid(s: State)
  {
    && (forall h :: h in s.timeouts ==> h < s.nextHandle)
    && (forall h :: h in Live(s.findButtonTimeout) ==> h < s.nextHandle)
    && (forall h :: h in Live(s.clickInterval) ==> h < s.nextHandle)
    && (forall h :: h in Live(s.mutationObserver) ==> h < s.nextHandle)
    && s.intervals.Keys == Live(s.clickInterval)
    && s.observers == Live(s.mutationObserver)
    && (s.clickInterval.Some? ==> s.isRunning)
  }

  /** setupMutationObserver: disconnect the current observer, connect a new one. */
  function SetupObserver(s: State): State
  {
    s.(mutationObserver := Some(s.nextHandle),
       observers := (s.observers - Live(s.mutationObserver)) + {s.nextHandle},
       nextHandle := s.nextHandle + 1)
  }

  /** `this.state.findButtonTimeout = setTimeout(...)`: the old handle is overwritten, not cleared. */
  function ArmTimeout(s: State, t: Timeout): State
  {
    s.(findButtonTimeout := Some(s.nextHandle), timeouts := s.timeouts[s.nextHandle := t], nextHandle := s.nextHandle + 1)
  }

  function ClearTimeout(s: State): State
  {
    s.(timeouts := s.timeouts - Live(s.findButtonTimeout), findButtonTimeout := None)
  }

  function DisconnectObserver(s: State): State
  {
    s.(observers := s.observers - Live(s.mutationObserver), mutationObserver := None)
  }

  function ClearInterval(s: State): State
  {
    s.(intervals := s.intervals - Live(s.clickInterval), clickInterval := None)
  }

  function Stop(s: State): State
  {
    ClearTimeout(DisconnectObserver(ClearInterval(s))).(isRunning := false, attempt := 0)
  }

  /** start gets past its two guards: time is left and it is not already clicking periodically. */
  predicate Proceeds(end: int, s: State, now: int)
  {
    now < end && !(s.isRunning && s.clickInterval.Some?)
  }

  /** start(), given the clock and what locateButton returned. */
  function Start(cfg: Config, end: int, s: State, now: int, button: Option<NodeId>): State
  {
    if !Proceeds(end, s, now) then s
    else Attempt(cfg, s.(attempt := s.attempt + 1, isRunning := true), now, button)
  }

  /**
   * The rest of start, once the attempt is counted and isRunning set. A new
   * retry overwrites findButtonTimeout; a retry still pending under the old
   * handle is not cancelled.
   */
  function Attempt(cfg: Config, s: State, now: int, button: Option<NodeId>): State
  {
    if button.Some? then Clicking(cfg, s, now)
    else if s.attempt < cfg.maxAttempts then
      ArmTimeout(if s.attempt == 1 then SetupObserver(s) else s, Timeout(Retry, cfg.findButtonDelay))
    else
      ArmTimeout(SetupObserver(s), Timeout(ResetAndRetry, cfg.findButtonDelay * 2))
  }

  /** The button was found: count the click, cancel the retry and the observer, start the interval. */
  function Clicking(cfg: Config, s: State, now: int): State
  {
    var s2 := DisconnectObserver(ClearTimeout(s.(clickCount := s.clickCount + 1, lastButtonFound := Some(now))));
    s2.(clickInterval := Some(s2.nextHandle), intervals := s2.intervals[s2.nextHandle := cfg.clickInterval],
        nextHandle := s2.nextHandle + 1)
  }

  /** performClick(), given the clock, what locateButton returned and whether dispatch succeeded. */
  function PerformClick(end: int, s: State, now: int, button: Option<NodeId>, dispatched: bool): State
  {
    if !(now < end) then Stop(s)
    else if button.Some? then
      if dispatched then s.(clickCount := s.clickCount + 1, lastButtonFound := Some(now)) else s
    else SetupObserver(s)
  }

  /** A live timeout fires: the host forgets it (the handle field keeps the stale handle) and its callback runs. */
  function TimeoutFired(cfg: Config, end: int, s: State, h: Handle, now: int, button: Option<NodeId>): State
    requires h in s.timeouts
  {
    var s1 := s.(timeouts := s.timeouts - {h});
    match s.timeouts[h].callback
    case Retry => Start(cfg, end, s1, now, button)
    case ResetAndRetry => Start(cfg, end, s1.(attempt := 0), now, button)
  }

  /** A live interval fires: performClick. */
  function IntervalFired(end: int, s: State, h: Handle, now: int, button: Option<NodeId>, dispatched: bool): State
    requires h in s.intervals
  {
    PerformClick(end, s, now, button, dispatched)
  }

  /**
   * The debounced observer callback: when not clicking periodically, locate;
   * on a hit reset attempt and start (which locates again: `relocated`).
   */
  function ObserverFired(cfg: Config, end: int, s: State, now: int, located: Option<NodeId>, relocated: Option<NodeId>): State
  {
    if !s.isRunning || s.clickInterval.None? then
      if located.Some? then Start(cfg, end, s.(attempt := 0), now, relocated) else s
    else s
  }

  /** handleVisibilityChange: on becoming visible while discovering, start again. */
  function VisibilityChanged(cfg: Config, end: int, s: State, hidden: bool, now: int, button: Option<NodeId>): State
  {
    if hidden then s
    else if s.isRunning && s.clickInterval.None? then Start(cfg, end, s, now, button)
    else s
  }

  // ---------------------------------------------------------------- invariant

  lemma InitialValid()
    ensures Valid(Initial())
  {
  }

  lemma SetupObserverKeepsValid(s: State)
    requires Valid(s)
    ensures Valid(SetupObserver(s))
    ensures SetupObserver(s).observers == {s.nextHandle}
  {
  }

  lemma StopKeepsValid(s: State)
    requires Valid(s)
    ensures Valid(Stop(s))
  {
  }

  lemma StartKeepsValid(cfg: Config, end: int, s: State, now: int, button: Option<NodeId>)
    requires Valid(s)
    ensures Valid(Start(cfg, end, s, now, button))
  {
    if Proceeds(end, s, now) {
      AttemptKeepsValid(cfg, s.(attempt := s.attempt + 1, isRunning := true), now, button);
    }
  }

  lemma AttemptKeepsValid(cfg: Config, s: State, now: int, button: Option<NodeId>)
    requires Valid(s) && s.isRunning && s.clickInterval.None?
    ensures Valid(Attempt(cfg, s, now, button))
  {
    if button.None? {
      SetupObserverKeepsValid(s);
    }
  }

  lemma PerformClickKeepsValid(end: int, s: State, now: int, button: Option<NodeId>, dispatched: bool)
    requires Valid(s)
    ensures Valid(PerformClick(end, s, now, button, dispatched))
  {
  }

  lemma CallbacksKeepValid(cfg: Config, end: int, s: State, now: int, located: Option<NodeId>, relocated: Option<NodeId>,
                           hidden: bool, dispatched: bool)
    requires Valid(s)
    ensures forall h :: h in s.timeouts ==> Valid(TimeoutFired(cfg, end, s, h, now, relocated))
    ensures forall h :: h in s.intervals ==> Valid(IntervalFired(end, s, h, now, relocated, dispatched))
    ensures Valid(ObserverFired(cfg, end, s, now, located, relocated))
    ensures Valid(VisibilityChanged(cfg, end, s, hidden, now, relocated))
  {
    forall h | h in s.timeouts
      ensures Valid(TimeoutFired(cfg, end, s, h, now, relocated))
    {
      StartKeepsValid(cfg, end, s.(timeouts := s.timeouts - {h}), now, relocated);
      StartKeepsValid(cfg, end, s.(timeouts := s.timeouts - {h}, attempt := 0), now, relocated);
    }
    StartKeepsValid(cfg, end, s.(attempt := 0), now, relocated);
    StartKeepsValid(cfg, end, s, now, relocated);
  }

  /** At most one periodic-click interval and one connected observer, ever. */
  lemma OneOfEachKind(s: State)
    requires Valid(s)
    ensures |s.intervals| <= 1 && |s.observers| <= 1
  {
    assert |s.intervals.Keys| == |s.intervals|;
  }

  lemma SubsetCard(a: set<Handle>, b: set<Handle>)
    requires a <= b
    ensures |a| <= |b|
  {
    assert b == a + (b - a);
  }

  // ---------------------------------------------------------------- start

  /** Past the deadline, or while already clicking periodically, start changes nothing. */
  lemma StartGuards(cfg: Config, end: int, s: State, now: int, button: Option<NodeId>)
    requires !Proceeds(end, s, now)
    ensures Start(cfg, end, s, now, button) == s
  {
  }

  /**
   * A successful start: one more attempt, running, one more click counted
   * (whatever the dispatch did), the retry under findButtonTimeout cancelled
   * and no other timer touched, no observer left, and exactly one
   * interval, at the configured cadence.
   */
  lemma StartOnButton(cfg: Config, end: int, s: State, now: int, b: NodeId)
    requires Valid(s) && Proceeds(end, s, now)
    ensures var t := Start(cfg, end, s, now, Some(b));
      && t.attempt == s.attempt + 1 && t.isRunning
      && t.clickCount == s.clickCount + 1 && t.lastButtonFound == Some(now)
      && t.findButtonTimeout.None? && t.timeouts == s.timeouts - Live(s.findButtonTimeout)
      && t.mutationObserver.None? && t.observers == {}
      && t.clickInterval == Some(s.nextHandle) && t.intervals == map[s.nextHandle := cfg.clickInterval]
  {
  }

  /** Once start has found the button, further starts are no-ops: repeated calls are idempotent. */
  lemma StartIdempotentOnceClicking(cfg: Config, end: int, s: State, now: int, b: NodeId, later: int, again: Option<NodeId>)
    requires now < end
    ensures var t := Start(cfg, end, s, now, Some(b));
      Start(cfg, end, t, later, again) == t
  {
  }

  /**
   * No button, attempts left: a plain retry after findButtonDelay is armed
   * under a fresh handle, every retry already pending stays pending; the
   * observer is armed only on the first attempt; no click is counted.
   */
  lemma StartRetries(cfg: Config, end: int, s: State, now: int)
    requires Valid(s) && Proceeds(end, s, now)
    requires s.attempt + 1 < cfg.maxAttempts
    ensures var t := Start(cfg, end, s, now, None);
      && t.attempt == s.attempt + 1 && t.isRunning && t.clickCount == s.clickCount
      && t.lastButtonFound == s.lastButtonFound
      && t.findButtonTimeout.Some? && t.findButtonTimeout.value !in s.timeouts
      && t.timeouts == s.timeouts[t.findButtonTimeout.value := Timeout(Retry, cfg.findButtonDelay)]
      && (s.attempt + 1 == 1 ==> t.mutationObserver == Some(s.nextHandle) && t.observers == {s.nextHandle})
      && (s.attempt + 1 != 1 ==> t.mutationObserver == s.mutationObserver && t.observers == s.observers)
      && t.clickInterval.None?
  {
  }

  /**
   * No button, attempts used up: the observer is (re)armed, and a retry
   * after twice findButtonDelay that first resets attempt is armed under a
   * fresh handle beside every retry already pending; no click counted.
   */
  lemma StartExhausted(cfg: Config, end: int, s: State, now: int)
    requires Valid(s) && Proceeds(end, s, now)
    requires s.attempt + 1 >= cfg.maxAttempts
    ensures var t := Start(cfg, end, s, now, None);
      && t.attempt == s.attempt + 1 && t.isRunning && t.clickCount == s.clickCount
      && t.lastButtonFound == s.lastButtonFound
      && t.mutationObserver.Some? && t.observers == {t.mutationObserver.value}
      && t.findButtonTimeout.Some? && t.findButtonTimeout.value !in s.timeouts
      && t.timeouts == s.timeouts[t.findButtonTimeout.value := Timeout(ResetAndRetry, 2 * cfg.findButtonDelay)]
      && t.clickInterval.None?
  {
    SetupObserverKeepsValid(s.(attempt := s.attempt + 1, isRunning := true));
  }

  /** When the reset retry fires and the button is still missing, discovery begins again at attempt 1. */
  lemma ResetRetryRestartsCount(cfg: Config, end: int, s: State, h: Handle, now: int)
    requires Valid(s) && h in s.timeouts && s.timeouts[h].callback == ResetAndRetry
    requires now < end && s.clickInterval.None?
    ensures var t := TimeoutFired(cfg, end, s, h, now, None);
      && t.attempt == 1 && t.clickCount == s.clickCount
      && t.mutationObserver.Some?
      && (1 < cfg.maxAttempts ==> t.timeouts[t.findButtonTimeout.value] == Timeout(Retry, cfg.findButtonDelay))
  {
  }

  // ---------------------------------------------------------------- performClick

  /** Past the deadline performClick is exactly stop. */
  lemma PerformClickPastDeadline(end: int, s: State, now: int, button: Option<NodeId>, dispatched: bool)
    requires now >= end
    ensures PerformClick(end, s, now, button, dispatched) == Stop(s)
  {
  }

  /**
   * Before the deadline: a click is counted, and lastButtonFound moves,
   * exactly when a button was found and dispatch succeeded; a missing
   * button arms a fresh observer (the previous one disconnected); no timer
   * is armed or cancelled, and with a button nothing else changes.
   */
  lemma PerformClickBeforeDeadline(end: int, s: State, now: int, button: Option<NodeId>, dispatched: bool)
    requires Valid(s) && now < end
    ensures var t := PerformClick(end, s, now, button, dispatched);
      && t.clickCount == s.clickCount + (if button.Some? && dispatched then 1 else 0)
      && t.lastButtonFound == (if button.Some? && dispatched then Some(now) else s.lastButtonFound)
      && (button.None? ==>
            t.mutationObserver == Some(s.nextHandle) && t.observers == {s.nextHandle} && t.nextHandle == s.nextHandle + 1)
      && (button.Some? ==>
            t.mutationObserver == s.mutationObserver && t.observers == s.observers && t.nextHandle == s.nextHandle)
      && t.isRunning == s.isRunning && t.attempt == s.attempt
      && t.clickInterval == s.clickInterval && t.intervals == s.intervals
      && t.findButtonTimeout == s.findButtonTimeout && t.timeouts == s.timeouts
  {
  }

  // ---------------------------------------------------------------- stop

  /**
   * stop: not running, attempt 0, clicks kept, no handle, no interval and
   * no observer left; of the pending retries only findButtonTimeout's is
   * cancelled.
   */
  lemma StopClears(s: State)
    requires Valid(s)
    ensures var t := Stop(s);
      && !t.isRunning && t.attempt == 0 && t.clickCount == s.clickCount && t.lastButtonFound == s.lastButtonFound
      && t.clickInterval.None? && t.findButtonTimeout.None? && t.mutationObserver.None?
      && t.intervals == map[] && t.observers == {} && t.timeouts == s.timeouts - Live(s.findButtonTimeout)
  {
  }

  /** stop twice is stop once. */
  lemma StopIdempotent(s: State)
    ensures Stop(Stop(s)) == Stop(s)
  {
  }

  /** What stop leaves depends only on the click counters, the handle counter and the retries it cannot see. */
  lemma StopForgetsHandles(s1: State, s2: State)
    requires Valid(s1) && Valid(s2)
    requires s1.clickCount == s2.clickCount && s1.lastButtonFound == s2.lastButtonFound
    requires s1.nextHandle == s2.nextHandle
    requires s1.timeouts - Live(s1.findButtonTimeout) == s2.timeouts - Live(s2.findButtonTimeout)
    ensures Stop(s1) == Stop(s2)
  {
    StopClears(s1);
    StopClears(s2);
  }

  /** No transition ever lowers the click count. */
  lemma ClickCountNeverDecreases(cfg: Config, end: int, s: State, now: int, located: Option<NodeId>,
                                 relocated: Option<NodeId>, hidden: bool, dispatched: bool)
    ensures Start(cfg, end, s, now, relocated).clickCount >= s.clickCount
    ensures Stop(s).clickCount == s.clickCount
    ensures PerformClick(end, s, now, relocated, dispatched).clickCount >= s.clickCount
    ensures ObserverFired(cfg, end, s, now, located, relocated).clickCount >= s.clickCount
    ensures VisibilityChanged(cfg, end, s, hidden, now, relocated).clickCount >= s.clickCount
    ensures forall h :: h in s.timeouts ==> TimeoutFired(cfg, end, s, h, now, relocated).clickCount >= s.clickCount
  {
    StartCount(cfg, end, s, now, relocated);
    StartCount(cfg, end, s.(attempt := 0), now, relocated);
    forall h | h in s.timeouts
      ensures TimeoutFired(cfg, end, s, h, now, relocated).clickCount >= s.clickCount
    {
      StartCount(cfg, end, s.(timeouts := s.timeouts - {h}), now, relocated);
      StartCount(cfg, end, s.(timeouts := s.timeouts - {h}, attempt := 0), now, relocated);
    }
  }

  /** start counts one click exactly when it goes ahead with a button. */
  lemma StartCount(cfg: Config, end: int, s: State, now: int, button: Option<NodeId>)
    ensures Start(cfg, end, s, now, button).clickCount ==
      s.clickCount + (if Proceeds(end, s, now) && button.Some? then 1 else 0)
  {
  }

  // ---------------------------------------------------------------- the leaked retry

  /**
   * The trace: start finds nothing at time 0; the page becomes visible
   * again at 1000 while discovery is under way, so handleVisibilityChange
   * starts a second time; stop is called; then the retry whose handle was
   * overwritten fires when it is due, findButtonDelay after time 0, and the
   * button is there.
   */
  ghost predicate LeaksRetry(cfg: Config, end: int)
  {
    var s1 := Start(cfg, end, Initial(), 0, None);
    && s1.isRunning && s1.clickInterval.None?
    && var s2 := VisibilityChanged(cfg, end, s1, false, 1000, None);
    && var s3 := Stop(s2);
    && s1.timeouts.Keys == {2}
    && s2.timeouts.Keys == {2, 3}
    && s3.timeouts.Keys == {2} && !s3.isRunning
    && var s4 := TimeoutFired(cfg, end, s3, 2, cfg.findButtonDelay, Some(0));
       s4.isRunning && s4.clickInterval.Some? && s4.clickCount == s3.clickCount + 1
  }

  /**
   * With start as written, two retry timers are pending after the second
   * start; the one whose handle was overwritten survives stop and, when it
   * fires, starts the clicker again. This holds for every configuration
   * that allows more than two attempts and whose retry delay is longer
   * than the 1000 ms before the visibility change and ends before the
   * deadline.
   */
  lemma VisibilityRestartLeaksRetry(cfg: Config, end: int)
    requires cfg.maxAttempts > 2 && 1000 < cfg.findButtonDelay < end
    ensures LeaksRetry(cfg, end)
  {
    var retry := Timeout(Retry, cfg.findButtonDelay);
    LeakFirstStart(cfg, end);
    LeakSecondStart(cfg, end);
    var e2 := State(2, true, 0, None, None, Some(3), Some(1), map[2 := retry, 3 := retry], map[], {1}, 4);
    var e3 := State(0, false, 0, None, None, None, None, map[2 := retry], map[], {}, 4);
    assert Stop(e2) == e3 by {
      assert e2.timeouts - {3} == map[2 := retry];
      assert e2.observers - {1} == {};
    }
  }

  /** The default configuration (ten attempts, a retry every 2000 ms, two hours) is one of those. */
  lemma DefaultsLeakRetry()
    ensures LeaksRetry(Defaults(), Defaults().durationMs)
  {
    DefaultsAllowLeak();
    VisibilityRestartLeaksRetry(Defaults(), Defaults().durationMs);
  }

  lemma DefaultsAllowLeak()
    ensures Defaults().maxAttempts > 2 && 1000 < Defaults().findButtonDelay < Defaults().durationMs
  {
  }

  lemma LeakFirstStart(cfg: Config, end: int)
    requires cfg.maxAttempts > 2 && end > 0
    ensures Start(cfg, end, Initial(), 0, None) ==
      State(1, true, 0, None, None, Some(2), Some(1), map[2 := Timeout(Retry, cfg.findButtonDelay)], map[], {1}, 3)
  {
    var a := Initial().(attempt := 1, isRunning := true);
    assert SetupObserver(a) == State(1, true, 0, None, None, None, Some(1), map[], map[], {1}, 2);
  }

  lemma LeakSecondStart(cfg: Config, end: int)
    requires cfg.maxAttempts > 2 && end > 1000
    ensures var retry := Timeout(Retry, cfg.findButtonDelay);
      VisibilityChanged(cfg, end, State(1, true, 0, None, None, Some(2), Some(1), map[2 := retry], map[], {1}, 3), false, 1000, None) ==
      State(2, true, 0, None, None, Some(3), Some(1), map[2 := retry, 3 := retry], map[], {1}, 4)
  {
  }

  /**
   * The debounced observer callback runs when not running at all, and stop
   * cannot cancel its debounce timer: a callback still pending after stop
   * that finds the button starts the clicker again, with start as written
   * and as corrected alike.
   */
  lemma ObserverRestartsAfterStop(cfg: Config, end: int, s: State, now: int, b: NodeId, b2: NodeId)
    requires now < end
    ensures var t := ObserverFired(cfg, end, Stop(s), now, Some(b), Some(b2));
      && t.isRunning && t.clickInterval.Some? && t.attempt == 1 && t.clickCount == s.clickCount + 1
      && t == StartCorrected(cfg, end, Stop(s).(attempt := 0), now, Some(b2))
  {
  }

  // ---------------------------------------------------------------- start, corrected

  /** The invariant the corrected start keeps: Valid, and the only pending retry is findButtonTimeout's. */
  ghost predicate SingleRetry(s: State)
  {
    Valid(s) && s.timeouts.Keys <= Live(s.findButtonTimeout)
  }

  /** start with the pending retry cancelled before a new one is armed. */
  function StartCorrected(cfg: Config, end: int, s: State, now: int, button: Option<NodeId>): State
  {
    if !Proceeds(end, s, now) then s
    else AttemptCorrected(cfg, s.(attempt := s.attempt + 1, isRunning := true), now, button)
  }

  function AttemptCorrected(cfg: Config, s: State, now: int, button: Option<NodeId>): State
  {
    if button.Some? then Clicking(cfg, s, now)
    else if s.attempt < cfg.maxAttempts then
      ArmTimeout(ClearTimeout(if s.attempt == 1 then SetupObserver(s) else s), Timeout(Retry, cfg.findButtonDelay))
    else
      ArmTimeout(ClearTimeout(SetupObserver(s)), Timeout(ResetAndRetry, cfg.findButtonDelay * 2))
  }

  /** Cancelling the pending retry and then arming one leaves exactly that one pending. */
  lemma ArmAfterClearSingle(s: State, t: Timeout)
    requires SingleRetry(s)
    ensures SingleRetry(ArmTimeout(ClearTimeout(s), t))
    ensures ArmTimeout(ClearTimeout(s), t).timeouts == map[s.nextHandle := t]
  {
    assert ClearTimeout(s).timeouts.Keys == Live(None);
  }

  lemma AttemptCorrectedSingle(cfg: Config, s: State, now: int, button: Option<NodeId>)
    requires SingleRetry(s) && s.isRunning && s.clickInterval.None?
    ensures SingleRetry(AttemptCorrected(cfg, s, now, button))
  {
    if button.None? {
      SetupObserverKeepsValid(s);
      assert SingleRetry(SetupObserver(s));
      if s.attempt < cfg.maxAttempts {
        ArmAfterClearSingle(if s.attempt == 1 then SetupObserver(s) else s, Timeout(Retry, cfg.findButtonDelay));
      } else {
        ArmAfterClearSingle(SetupObserver(s), Timeout(ResetAndRetry, cfg.findButtonDelay * 2));
      }
    } else {
      assert AttemptCorrected(cfg, s, now, button).timeouts.Keys == Live(None);
    }
  }

  /** A state with the single-retry invariant has at most one pending retry, and stop leaves none. */
  lemma SingleRetryBounds(s: State)
    requires SingleRetry(s)
    ensures |s.timeouts| <= 1
    ensures Stop(s).timeouts == map[] && Stop(s).intervals == map[] && Stop(s).observers == {}
  {
    SubsetCard(s.timeouts.Keys, Live(s.findButtonTimeout));
    assert Stop(s).timeouts.Keys == {};
  }

  /**
   * The corrected start keeps the invariant; so do stop, performClick and
   * what a firing timer, the observer and the visibility handler do to the
   * state before they call start. The initial state has it.
   */
  lemma CorrectedKeepsSingleRetry(cfg: Config, end: int, s: State, now: int, button: Option<NodeId>, dispatched: bool, h: Handle)
    requires SingleRetry(s)
    ensures SingleRetry(Initial())
    ensures SingleRetry(StartCorrected(cfg, end, s, now, button))
    ensures SingleRetry(Stop(s))
    ensures SingleRetry(PerformClick(end, s, now, button, dispatched))
    ensures SingleRetry(s.(timeouts := s.timeouts - {h})) && SingleRetry(s.(timeouts := s.timeouts - {h}, attempt := 0))
    ensures SingleRetry(s.(attempt := 0))
  {
    StartCorrectedSingle(cfg, end, s, now, button);
    StopSingle(s);
    if now < end && button.None? {
      SetupObserverKeepsValid(s);
    }
  }

  lemma StartCorrectedSingle(cfg: Config, end: int, s: State, now: int, button: Option<NodeId>)
    requires SingleRetry(s)
    ensures SingleRetry(StartCorrected(cfg, end, s, now, button))
  {
    if Proceeds(end, s, now) {
      AttemptCorrectedSingle(cfg, s.(attempt := s.attempt + 1, isRunning := true), now, button);
    }
  }

  lemma StopSingle(s: State)
    requires SingleRetry(s)
    ensures SingleRetry(Stop(s))
  {
    StopKeepsValid(s);
    assert Stop(s).timeouts.Keys == {};
  }

  /**
   * With start corrected, the trace of LeaksRetry and every other: after
   * any start at most one retry is pending, and stop then leaves no timer
   * and no observer of any kind.
   */
  lemma StartLeavesOneRetry(cfg: Config, end: int, s: State, now: int, button: Option<NodeId>)
    requires SingleRetry(s)
    ensures var t := StartCorrected(cfg, end, s, now, button);
      && SingleRetry(t) && |t.timeouts| <= 1
      && Stop(t).timeouts == map[] && Stop(t).intervals == map[] && Stop(t).observers == {}
  {
    var t := StartCorrected(cfg, end, s, now, button);
    CorrectedKeepsSingleRetry(cfg, end, s, now, button, false, 0);
    SingleRetryBounds(t);
  }
}
