/**
 * The ButtonClicker object: the fields of `this.state`, updated in place.
 * The host's timers and observers (what setTimeout, setInterval and
 * MutationObserver keep alive) are fields too. The clock and the page as
 * it is at the moment of a call (its document, what its queries answer,
 * where a dispatched event would throw) are parameters, and a scheduled
 * callback is a method the host invokes when it fires.
 */
module Clicker {
  import opened Wrappers
  import opened Settings
  import opened Dom
  import opened Strategies
  import opened Locator
  import opened Dispatch
  import S = ClickerSpec

  class ButtonClicker {
    const config: Config
    const startTimestamp: int
    const endTimestamp: int

    var attempt: int
    var isRunning: bool
    var clickCount: nat
    var lastButtonFound: Option<int>
    var clickInterval: Option<S.Handle>
    var findButtonTimeout: Option<S.Handle>
    var mutationObserver: Option<S.Handle>

    var timeouts: map<S.Handle, S.Timeout>
    var intervals: map<S.Handle, int>
    var observers: set<S.Handle>
    var nextHandle: S.Handle

    /** The whole state as a value. */
    function State(): S.State
      reads this
    {
      S.State(attempt, isRunning, clickCount, lastButtonFound, clickInterval, findButtonTimeout,
              mutationObserver, timeouts, intervals, observers, nextHandle)
    }

    ghost predicate Valid()
      reads this
    {
      S.Valid(State())
    }

    constructor (config: Config, now: int)
      ensures Valid() && State() == S.Initial()
      ensures this.config == config && startTimestamp == now && endTimestamp == now + config.durationMs
    {
      this.config := config;
      startTimestamp := now;
      endTimestamp := now + config.durationMs;
      attempt, isRunning, clickCount, lastButtonFound := 0, false, 0, None;
      clickInterval, findButtonTimeout, mutationObserver := None, None, None;
      timeouts, intervals, observers, nextHandle := map[], map[], {}, 1;
    }

    predicate HasTimeRemaining(now: int)
      reads this
    {
      now < endTimestamp
    }

    method SetupMutationObserver()
      requires Valid()
      modifies this
      ensures Valid() && State() == S.SetupObserver(old(State()))
    {
      S.SetupObserverKeepsValid(State());
      ConnectObserver();
    }

    // The host-side steps start() and stop() are made of, each pinned to its transition.

    /** disconnect a previous observer, then connect a new one */
    method ConnectObserver()
      modifies this
      ensures State() == S.SetupObserver(old(State()))
    {
      if mutationObserver.Some? {
        observers := observers - {mutationObserver.value};
      }
      mutationObserver := Some(nextHandle);
      observers := observers + {nextHandle};
      nextHandle := nextHandle + 1;
    }

    /** `findButtonTimeout = setTimeout(...)`, overwriting the handle */
    method ArmFindButtonTimeout(t: S.Timeout)
      modifies this
      ensures State() == S.ArmTimeout(old(State()), t)
    {
      findButtonTimeout := Some(nextHandle);
      timeouts := timeouts[nextHandle := t];
      nextHandle := nextHandle + 1;
    }

    method ClearFindButtonTimeout()
      modifies this
      ensures State() == S.ClearTimeout(old(State()))
    {
      if findButtonTimeout.Some? {
        timeouts := timeouts - {findButtonTimeout.value};
        findButtonTimeout := None;
      }
    }

    method DisconnectMutationObserver()
      modifies this
      ensures State() == S.DisconnectObserver(old(State()))
    {
      if mutationObserver.Some? {
        observers := observers - {mutationObserver.value};
        mutationObserver := None;
      }
    }

    method ClearClickInterval()
      modifies this
      ensures State() == S.ClearInterval(old(State()))
    {
      if clickInterval.Some? {
        intervals := intervals - {clickInterval.value};
        clickInterval := None;
      }
    }

    method Start(now: int, doc: Document, env: Env)
      requires Valid() && doc.Valid() && Resolves(env, |doc.info|)
      modifies this, doc, doc.marks
      ensures Valid() && doc.Valid()
      ensures var n := LocateFrom(doc.info, doc.body, old(doc.marks[..]), old(doc.active), config, env, 0);
        && State() == S.Start(config, endTimestamp, old(State()), now, n.result)
        && if S.Proceeds(endTimestamp, old(State()), now)
           then doc.marks[..] == n.marks && doc.active == n.active
           else doc.marks[..] == old(doc.marks[..]) && doc.active == old(doc.active)
    {
      if !HasTimeRemaining(now) {
        return;
      }
      if isRunning && clickInterval.Some? {
        return;
      }
      attempt := attempt + 1;
      isRunning := true;
      var button := LocateButton(doc, config, env);
      S.StartKeepsValid(config, endTimestamp, old(State()), now, button);
      RunAttempt(now, button);
    }

    /**
     * The part of start after locateButton. Arming a retry overwrites
     * findButtonTimeout without cancelling the retry it named.
     */
    method RunAttempt(now: int, button: Option<NodeId>)
      modifies this
      ensures State() == S.Attempt(config, old(State()), now, button)
    {
      if button.Some? {
        // the click sequence is dispatched here; its outcome is not looked at
        clickCount := clickCount + 1;
        lastButtonFound := Some(now);
        ClearFindButtonTimeout();
        DisconnectMutationObserver();
        clickInterval := Some(nextHandle);
        intervals := intervals[nextHandle := config.clickInterval];
        nextHandle := nextHandle + 1;
      } else if attempt < config.maxAttempts {
        if attempt == 1 {
          ConnectObserver();
        }
        ArmFindButtonTimeout(S.Timeout(S.Retry, config.findButtonDelay));
      } else {
        ConnectObserver();
        ArmFindButtonTimeout(S.Timeout(S.ResetAndRetry, config.findButtonDelay * 2));
      }
    }

    method Stop()
      requires Valid()
      modifies this
      ensures Valid() && State() == S.Stop(old(State()))
    {
      S.StopKeepsValid(State());
      isRunning := false;
      ClearClickInterval();
      ClearFindButtonTimeout();
      DisconnectMutationObserver();
      attempt := 0;
    }

    /**
     * performClick; `failsAt` and `hasNativeClick` describe, as for
     * dispatchClickSequence, where dispatching to the button would throw.
     */
    method PerformClick(now: int, doc: Document, env: Env, failsAt: Option<nat>, hasNativeClick: bool)
      requires Valid() && doc.Valid() && Resolves(env, |doc.info|)
      modifies this, doc, doc.marks
      ensures Valid() && doc.Valid()
      ensures var n := LocateFrom(doc.info, doc.body, old(doc.marks[..]), old(doc.active), config, env, 0);
        && State() == S.PerformClick(endTimestamp, old(State()), now, n.result, Succeeds(failsAt, hasNativeClick))
        && if HasTimeRemaining(now)
           then doc.marks[..] == n.marks && doc.active == n.active
           else doc.marks[..] == old(doc.marks[..]) && doc.active == old(doc.active)
    {
      if !HasTimeRemaining(now) {
        Stop();
        return;
      }
      var button := LocateButton(doc, config, env);
      S.PerformClickKeepsValid(endTimestamp, old(State()), now, button, Succeeds(failsAt, hasNativeClick));
      if button.Some? {
        var _, _, success := DispatchClickSequence(button, failsAt, hasNativeClick);
        if success {
          clickCount := clickCount + 1;
          lastButtonFound := Some(now);
        }
      } else {
        SetupMutationObserver();
      }
    }

    /** The findButtonTimeout callback (either kind) fires. */
    method TimeoutFired(h: S.Handle, now: int, doc: Document, env: Env)
      requires Valid() && h in timeouts && doc.Valid() && Resolves(env, |doc.info|)
      modifies this, doc, doc.marks
      ensures Valid() && doc.Valid()
      ensures var n := LocateFrom(doc.info, doc.body, old(doc.marks[..]), old(doc.active), config, env, 0);
        && State() == S.TimeoutFired(config, endTimestamp, old(State()), h, now, n.result)
        && if S.Proceeds(endTimestamp, old(State()), now)
           then doc.marks[..] == n.marks && doc.active == n.active
           else doc.marks[..] == old(doc.marks[..]) && doc.active == old(doc.active)
    {
      var callback := timeouts[h].callback;
      timeouts := timeouts - {h};
      if callback == S.ResetAndRetry {
        attempt := 0;
      }
      Start(now, doc, env);
    }

    /** The clickInterval callback fires. */
    method IntervalFired(h: S.Handle, now: int, doc: Document, env: Env, failsAt: Option<nat>, hasNativeClick: bool)
      requires Valid() && h in intervals && doc.Valid() && Resolves(env, |doc.info|)
      modifies this, doc, doc.marks
      ensures Valid() && doc.Valid()
      ensures var n := LocateFrom(doc.info, doc.body, old(doc.marks[..]), old(doc.active), config, env, 0);
        && State() == S.IntervalFired(endTimestamp, old(State()), h, now, n.result, Succeeds(failsAt, hasNativeClick))
        && if HasTimeRemaining(now)
           then doc.marks[..] == n.marks && doc.active == n.active
           else doc.marks[..] == old(doc.marks[..]) && doc.active == old(doc.active)
    {
      PerformClick(now, doc, env, failsAt, hasNativeClick);
    }

    /**
     * The debounced observer callback fires: when not clicking
     * periodically it locates, and on a hit resets attempt and starts,
     * which locates a second time.
     */
    method ObserverFired(now: int, doc: Document, env: Env)
      requires Valid() && doc.Valid() && Resolves(env, |doc.info|)
      modifies this, doc, doc.marks
      ensures Valid() && doc.Valid()
      ensures var n1 := LocateFrom(doc.info, doc.body, old(doc.marks[..]), old(doc.active), config, env, 0);
        var n2 := LocateFrom(doc.info, doc.body, n1.marks, n1.active, config, env, 0);
        && State() == S.ObserverFired(config, endTimestamp, old(State()), now, n1.result, n2.result)
        && if old(isRunning) && old(clickInterval).Some?
           then doc.marks[..] == old(doc.marks[..]) && doc.active == old(doc.active)
           else if n1.result.None? || !HasTimeRemaining(now)
           then doc.marks[..] == n1.marks && doc.active == n1.active
           else doc.marks[..] == n2.marks && doc.active == n2.active
    {
      if !isRunning || clickInterval.None? {
        var button := LocateButton(doc, config, env);
        if button.Some? {
          attempt := 0;
          Start(now, doc, env);
        }
      }
    }

    method HandleVisibilityChange(hidden: bool, now: int, doc: Document, env: Env)
      requires Valid() && doc.Valid() && Resolves(env, |doc.info|)
      modifies this, doc, doc.marks
      ensures Valid() && doc.Valid()
      ensures var n := LocateFrom(doc.info, doc.body, old(doc.marks[..]), old(doc.active), config, env, 0);
        && State() == S.VisibilityChanged(config, endTimestamp, old(State()), hidden, now, n.result)
        && if !hidden && old(isRunning) && old(clickInterval).None? && HasTimeRemaining(now)
           then doc.marks[..] == n.marks && doc.active == n.active
           else doc.marks[..] == old(doc.marks[..]) && doc.active == old(doc.active)
    {
      if !hidden && isRunning && clickInterval.None? {
        Start(now, doc, env);
      }
    }
  }
}
