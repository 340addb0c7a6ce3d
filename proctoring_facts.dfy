/**
 * What the proctoring state machine guarantees: the invariant every event
 * preserves, at most one expiry per violation episode, recovery only with
 * fullscreen and focus together, and the wall-clock countdown arithmetic.
 */
module ProctoringFacts {
  import opened Wrappers
  import opened Proctoring

  // ---------- Countdown arithmetic ----------

  /** The displayed countdown never goes below 0 and, once the clock has reached the anchor, never above the grace period. */
  lemma RemainingWithinGrace(seconds: int, start: int, now: int)
    requires seconds >= 0
    ensures 0 <= Remaining(seconds, start, now)
    ensures now >= start ==> Remaining(seconds, start, now) <= seconds
    ensures start <= now < start + 1000 ==> Remaining(seconds, start, now) == seconds
  {
    if now >= start {
      assert (now - start) / 1000 >= 0;
    }
    if start <= now < start + 1000 {
      assert (now - start) / 1000 == 0;
    }
  }

  /** Floor division by 1000 is monotone. */
  lemma DivMonotone(a: int, b: int)
    requires a <= b
    ensures a / 1000 <= b / 1000
  {
    assert a / 1000 * 1000 <= a;
    assert b < (b / 1000 + 1) * 1000;
  }

  /** For a clock that does not go backwards, the displayed countdown never increases. */
  lemma RemainingNonIncreasing(seconds: int, start: int, now1: int, now2: int)
    requires now1 <= now2
    ensures Remaining(seconds, start, now2) <= Remaining(seconds, start, now1)
  {
    DivMonotone(now1 - start, now2 - start);
  }

  /** The countdown reaches 0 exactly when `seconds` full seconds of wall-clock time have elapsed, however many ticks were skipped. */
  lemma RemainingZeroIff(seconds: int, start: int, now: int)
    requires seconds >= 0
    ensures Remaining(seconds, start, now) == 0 <==> now - start >= seconds * 1000
  {
    var d := now - start;
    if d >= seconds * 1000 {
      DivMonotone(seconds * 1000, d);
      assert (seconds * 1000) / 1000 == seconds;
    } else {
      assert d / 1000 * 1000 <= d < seconds * 1000;
    }
  }

  /** A clock moved backwards before the anchor shows more than the grace period. */
  lemma BackwardClockExceedsGrace(seconds: int, start: int, now: int)
    requires seconds >= 0 && now <= start - 1000
    ensures Remaining(seconds, start, now) > seconds
  {
    DivMonotone(now - start, -1000);
  }

  // ---------- Invariant ----------

  lemma MountedSatisfiesInv(v: Variant, isEnabled: bool, uaMobile: bool, env: Env)
    ensures Inv(v, Mounted(v, isEnabled, uaMobile, env))
    ensures !Mounted(v, isEnabled, uaMobile, env).showing
    ensures !Mounted(v, isEnabled, uaMobile, env).intervalActive
    ensures Mounted(v, isEnabled, uaMobile, env).listening <==> (v == Prototype || isEnabled)
  {
  }

  /**
   * What every single step guarantees: the invariant is kept, a countdown is
   * armed only by opening an episode, a running countdown keeps its anchor,
   * and an expiry signal comes only from a running countdown, which it stops.
   */
  ghost predicate StepOk(v: Variant, r: Refs, r': Refs, s: Signal) {
    && Inv(v, r')
    && (!r.intervalActive && r'.intervalActive ==>
          !r.showing && r'.showing && r'.countdown == GraceSeconds && r'.startTime.Some?)
    && (r.intervalActive && r'.intervalActive ==> r'.startTime == r.startTime)
    && (IsExpiry(s) ==> r.intervalActive && !r'.intervalActive)
  }

  lemma TriggerOk(v: Variant, r: Refs, now: int)
    requires Inv(v, r) && r.listening
    ensures StepOk(v, r, TriggerViolation(v, r, now), Quiet)
  {
  }

  lemma TickOk(v: Variant, r: Refs, now: int, env: Env)
    requires Inv(v, r)
    ensures StepOk(v, r, Tick(v, r, now, env).0, Tick(v, r, now, env).1)
  {
    var start := if r.startTime.Some? then r.startTime.value else now;
    RemainingWithinGrace(GraceSeconds, start, now);
  }

  lemma RecoveryOk(v: Variant, r: Refs, env: Env)
    requires Inv(v, r)
    ensures StepOk(v, r, PerformRecovery(r, env).0, PerformRecovery(r, env).1)
  {
  }

  lemma ResizeCheckOk(v: Variant, r: Refs, now: int, env: Env)
    requires Inv(v, r) && r.listening
    ensures StepOk(v, r, ResizeCheck(v, r, now, env).0, ResizeCheck(v, r, now, env).1)
  {
    TriggerOk(v, r.(isInFullscreen := IsActuallyFullscreen(r.isMobile, env)), now);
  }

  lemma CanonicalResizeChecksOk(r: Refs, now: int, env: Env)
    requires Inv(Canonical, r) && r.listening
    ensures StepOk(Canonical, r, CanonicalResizeChecks(r, now, env).0, CanonicalResizeChecks(r, now, env).1)
  {
    var c := ResizeCheck(Canonical, r, now, env);
    ResizeCheckOk(Canonical, r, now, env);
    if !r.isMobile {
      TriggerOk(Canonical, c.0, now);
    }
  }

  lemma ResizeOk(v: Variant, r: Refs, now: int, env: Env)
    requires Inv(v, r)
    ensures StepOk(v, r, OnResize(v, r, now, env).0, OnResize(v, r, now, env).1)
  {
    if r.listening {
      if v == Canonical {
        CanonicalResizeChecksOk(r.(lastResizeTime := now), now, env);
      } else {
        ResizeCheckOk(v, r, now, env);
      }
    }
  }

  lemma SetEnabledOk(v: Variant, r: Refs, enabled: bool, uaMobile: bool, env: Env)
    requires Inv(v, r)
    ensures StepOk(v, r, SetEnabled(v, r, enabled, uaMobile, env).0, SetEnabled(v, r, enabled, uaMobile, env).1)
  {
    if v != Prototype && enabled != r.isEnabled {
      var r1 := Mount(v, Teardown(r).(isEnabled := enabled), uaMobile, env);
      assert Inv(v, r1) && !r1.intervalActive;
      RecoveryOk(v, r1, env);
    }
  }

  lemma VisibilityOk(v: Variant, r: Refs, hidden: bool, now: int, env: Env)
    requires Inv(v, r)
    ensures StepOk(v, r, OnVisibility(v, r, hidden, now, env).0, OnVisibility(v, r, hidden, now, env).1)
  {
    if r.listening && hidden { TriggerOk(v, r.(hasFocus := false), now); }
  }

  lemma BlurOk(v: Variant, r: Refs, now: int)
    requires Inv(v, r)
    ensures StepOk(v, r, OnBlur(v, r, now), Quiet)
  {
    if r.listening { TriggerOk(v, r.(hasFocus := false), now); }
  }

  lemma FullscreenChangeOk(v: Variant, r: Refs, now: int, env: Env)
    requires Inv(v, r)
    ensures StepOk(v, r, OnFullscreenChange(v, r, now, env).0, OnFullscreenChange(v, r, now, env).1)
  {
    if r.listening { TriggerOk(v, r.(isInFullscreen := IsActuallyFullscreen(r.isMobile, env)), now); }
  }

  lemma DevToolsPollOk(v: Variant, r: Refs, now: int, env: Env)
    requires Inv(v, r)
    ensures StepOk(v, r, OnDevToolsPoll(r, now, env), Quiet)
  {
    if r.devToolsPolling { TriggerOk(v, r, now); }
  }

  /** The events that only flip a flag or tear down keep the step guarantees unaided. */
  lemma FlagEventOk(v: Variant, r: Refs, e: Event)
    requires Inv(v, r)
    requires e.WindowFocus? || e.InputFocus? || e.InputBlur? || e.LockRelease? || e.Unmount?
    ensures StepOk(v, r, Step(v, r, e).0, Step(v, r, e).1)
  {
  }

  lemma {:induction false} StepIsOk(v: Variant, r: Refs, e: Event)
    requires Inv(v, r)
    ensures StepOk(v, r, Step(v, r, e).0, Step(v, r, e).1)
  {
    match e
    case IntervalTick(now, env) => TickOk(v, r, now, env);
    case VisibilityChange(hidden, now, env) => VisibilityOk(v, r, hidden, now, env);
    case WindowBlur(now) => BlurOk(v, r, now);
    case FullscreenChange(now, env) => FullscreenChangeOk(v, r, now, env);
    case WindowResize(now, env) => ResizeOk(v, r, now, env);
    case DevToolsPoll(now, env) => DevToolsPollOk(v, r, now, env);
    case Recovery(env) => RecoveryOk(v, r, env);
    case SyncEffect(env) => RecoveryOk(v, r, env);
    case EnabledChange(enabled, uaMobile, env) => SetEnabledOk(v, r, enabled, uaMobile, env);
    case _ => FlagEventOk(v, r, e);
  }

  /** Every event keeps the invariant: the interval runs only inside an open episode and only while attached. */
  lemma StepPreservesInv(v: Variant, r: Refs, e: Event)
    requires Inv(v, r)
    ensures Inv(v, Step(v, r, e).0)
  {
    StepIsOk(v, r, e);
  }

  lemma {:induction false} RunPreservesInv(v: Variant, r: Refs, evs: seq<Event>)
    requires Inv(v, r)
    ensures Inv(v, Run(v, r, evs).0)
    decreases |evs|
  {
    if evs != [] {
      StepPreservesInv(v, r, evs[0]);
      RunPreservesInv(v, Step(v, r, evs[0]).0, evs[1..]);
    }
  }

  // ---------- One countdown per episode ----------

  /** A countdown starts only when an episode opens, always from the full grace period and anchored at the event's time. */
  lemma ArmingOpensEpisode(v: Variant, r: Refs, e: Event)
    requires Inv(v, r)
    ensures var r' := Step(v, r, e).0;
      !r.intervalActive && r'.intervalActive ==>
        !r.showing && r'.showing && r'.countdown == GraceSeconds && r'.startTime.Some?
  {
    StepIsOk(v, r, e);
  }

  /** While a countdown runs, no event restarts it or moves its anchor. */
  lemma AnchorNeverMoves(v: Variant, r: Refs, e: Event)
    requires Inv(v, r)
    ensures var r' := Step(v, r, e).0;
      r.intervalActive && r'.intervalActive ==> r'.startTime == r.startTime
  {
    StepIsOk(v, r, e);
  }

  /** An expiry signal is emitted only by a running countdown, which it stops. */
  lemma ExpiryDisarms(v: Variant, r: Refs, e: Event)
    requires Inv(v, r)
    ensures IsExpiry(Step(v, r, e).1) ==> r.intervalActive && !Step(v, r, e).0.intervalActive
  {
    StepIsOk(v, r, e);
  }

  /**
   * Over any sequence of events the timeout callback (or the redirect) fires
   * at most once per violation episode opened, plus one for a countdown that
   * was already running at the start.
   */
  lemma {:induction false} ExpiriesBoundedByEpisodes(v: Variant, r: Refs, evs: seq<Event>)
    requires Inv(v, r)
    ensures var (r', ss) := Run(v, r, evs);
      Expiries(ss) + (if r'.intervalActive then 1 else 0)
        <= Episodes(v, r, evs) + (if r.intervalActive then 1 else 0)
    decreases |evs|
  {
    if evs != [] {
      var (r1, s) := Step(v, r, evs[0]);
      StepPreservesInv(v, r, evs[0]);
      ExpiryDisarms(v, r, evs[0]);
      ArmingOpensEpisode(v, r, evs[0]);
      ExpiriesBoundedByEpisodes(v, r1, evs[1..]);
      var (r2, ss) := Run(v, r1, evs[1..]);
      assert Run(v, r, evs) == (r2, [s] + ss);
      assert ([s] + ss)[1..] == ss;
    }
  }

  /** From a freshly mounted monitor, expiries never outnumber episodes. */
  lemma TimeoutAtMostOncePerEpisode(v: Variant, isEnabled: bool, uaMobile: bool, env: Env, evs: seq<Event>)
    ensures Expiries(Run(v, Mounted(v, isEnabled, uaMobile, env), evs).1)
      <= Episodes(v, Mounted(v, isEnabled, uaMobile, env), evs)
  {
    MountedSatisfiesInv(v, isEnabled, uaMobile, env);
    ExpiriesBoundedByEpisodes(v, Mounted(v, isEnabled, uaMobile, env), evs);
  }

  /** A detached hook stays detached and silent under every event except an enabled change. */
  lemma DetachedStepStaysDetached(v: Variant, r: Refs, e: Event)
    requires Inv(v, r) && !r.listening && !e.EnabledChange?
    ensures Inv(v, Step(v, r, e).0) && !Step(v, r, e).0.listening && !IsExpiry(Step(v, r, e).1)
  {
    StepPreservesInv(v, r, e);
  }

  /** Once detached, and until the enable option changes again, nothing can fire the timeout callback or redirect. */
  lemma {:induction false} NoExpiryWhileDetached(v: Variant, r: Refs, evs: seq<Event>)
    requires Inv(v, r) && !r.listening
    requires forall i :: 0 <= i < |evs| ==> !evs[i].EnabledChange?
    ensures Expiries(Run(v, r, evs).1) == 0
    decreases |evs|
  {
    if evs != [] {
      var (r1, s) := Step(v, r, evs[0]);
      DetachedStepStaysDetached(v, r, evs[0]);
      NoExpiryWhileDetached(v, r1, evs[1..]);
      var (r2, ss) := Run(v, r1, evs[1..]);
      assert ([s] + ss)[1..] == ss;
    }
  }

  /** Teardown stops the countdown and the listeners without firing anything; the episode flag is left as it was. */
  lemma TeardownCancelsSilently(v: Variant, r: Refs)
    requires Inv(v, r)
    ensures var (r', s) := Step(v, r, Unmount);
      s == Quiet && !r'.intervalActive && r'.startTime == None && !r'.listening
      && !r'.devToolsPolling && r'.showing == r.showing
  {
  }

  // ---------- Triggering ----------

  /** Triggering during an open episode changes nothing: the countdown is neither restarted nor re-anchored. */
  lemma TriggerWhileShowingIsNoop(v: Variant, r: Refs, now: int)
    requires r.showing
    ensures TriggerViolation(v, r, now) == r
  {
  }

  /** Canonical hook: disabled, or a focused text input on a mobile device, means no violation. */
  lemma TriggerDisabledOrSuppressedIsNoop(r: Refs, now: int)
    requires !r.isEnabled || (r.isMobile && r.inputFocused)
    ensures TriggerViolation(Canonical, r, now) == r
  {
  }

  /** Triggering either leaves the refs alone or opens an episode with a fresh 10 s countdown anchored at `now`, changing nothing else. */
  lemma TriggerOpensFreshCountdown(v: Variant, r: Refs, now: int)
    ensures var r' := TriggerViolation(v, r, now);
      r' == r
      || (!r.showing && r'.showing && r'.intervalActive && r'.startTime == Some(now)
          && r'.countdown == GraceSeconds
          && r'.(showing := r.showing, intervalActive := r.intervalActive,
                 startTime := r.startTime, countdown := r.countdown) == r)
  {
  }

  /** Less-strict hook: an episode opens iff none is open and the monitor is enabled. */
  lemma LessStrictTriggerOpensIff(r: Refs, now: int)
    ensures var r' := TriggerViolation(LessStrict, r, now);
      (r'.showing && !r.showing) <==> (!r.showing && r.isEnabled)
    ensures !(!r.showing && r.isEnabled) ==> TriggerViolation(LessStrict, r, now) == r
  {
  }

  /** Prototype: there is no enable flag, so any trigger while idle opens an episode. */
  lemma PrototypeTriggerAlwaysOpens(r: Refs, now: int)
    requires !r.showing
    ensures TriggerViolation(Prototype, r, now).showing
    ensures TriggerViolation(Prototype, r, now).intervalActive
    ensures TriggerViolation(Prototype, r, now).startTime == Some(now)
  {
  }

  // ---------- Recovery ----------

  /** Restoring only one of fullscreen and focus leaves the episode open and the refs untouched. */
  lemma RecoveryRequiresBoth(r: Refs, env: Env)
    requires !IsActuallyFullscreen(r.isMobile, env) || !env.hasFocus
    ensures PerformRecovery(r, env) == (r, Quiet)
  {
  }

  /** Recovery does nothing when no episode is open or while the re-entrancy lock is held. */
  lemma RecoveryGuards(r: Refs, env: Env)
    requires !r.showing || r.recovering
    ensures PerformRecovery(r, env) == (r, Quiet)
  {
  }

  /** A recovery that closes the episode stops the countdown, resets it to 10, takes the lock and schedules its release in 150 ms. */
  lemma RecoveryCloses(r: Refs, env: Env)
    ensures var (r', s) := PerformRecovery(r, env);
      r.showing && !r'.showing ==>
        && !r.recovering && Recovered(r.isMobile, env)
        && r'.recovering && !r'.intervalActive && r'.startTime == None
        && r'.countdown == GraceSeconds && s == LockReleaseIn(RecoveryLockMs)
    ensures var (r', s) := PerformRecovery(r, env);
      r.showing && !r.recovering && Recovered(r.isMobile, env) ==> !r'.showing
  {
  }

  /** Prototype: the lock taken by a recovery blocks a second one until the 150 ms release runs. */
  lemma PrototypeRecoveryLock(r: Refs, env: Env, env2: Env)
    requires r.showing && !r.recovering && Recovered(r.isMobile, env)
    ensures var r1 := PerformRecovery(r, env).0;
      r1.recovering && PerformRecovery(r1, env2) == (r1, Quiet)
      && !ReleaseLock(r1).recovering
      && ReleaseLock(r1).(recovering := true) == r1
  {
  }

  // ---------- Expiry ----------

  /** Canonical hook: at expiry the interval is cleared and the warning hidden in both branches; the callback fires iff not recovered and still showing. */
  lemma ExpiryClosesEpisode(v: Variant, r: Refs, now: int, env: Env)
    requires v != Prototype && Inv(v, r) && r.intervalActive
    requires Remaining(GraceSeconds, r.startTime.value, now) == 0
    ensures var (r', s) := Tick(v, r, now, env);
      !r'.intervalActive && !r'.showing && r'.countdown == 0
      && (s == ViolationTimeout <==> !Recovered(r.isMobile, env))
      && (s == Quiet <==> Recovered(r.isMobile, env))
  {
  }

  /** Less-strict hook: the callback fires only when the final check fails while the episode is open, never otherwise. */
  lemma ExpiryCallbackOnlyIfNotRecovered(r: Refs, now: int, env: Env)
    ensures var (r', s) := Tick(LessStrict, r, now, env);
      s == ViolationTimeout ==>
        r.intervalActive && r.showing && !Recovered(r.isMobile, env) && !r'.showing
    ensures var (r', s) := Tick(LessStrict, r, now, env);
      s == Quiet && r.intervalActive && !r'.intervalActive ==> !r'.showing
  {
  }

  /** Prototype: at expiry it redirects iff not recovered and still showing, and in that branch the warning stays up. */
  lemma PrototypeExpiryRedirect(r: Refs, now: int, env: Env)
    requires r.intervalActive && r.startTime.Some?
    requires Remaining(GraceSeconds, r.startTime.value, now) == 0
    ensures var (r', s) := Tick(Prototype, r, now, env);
      && !r'.intervalActive
      && (s == Redirect("/cheating-detected") <==> (!Recovered(r.isMobile, env) && r.showing))
      && (s.Redirect? ==> r'.showing)
      && (!s.Redirect? ==> !r'.showing)
  {
  }

  /** Prototype: each tick recomputes the countdown from the anchor, so skipped or extra ticks do not change what is shown. */
  lemma PrototypeTickIsAnchored(r: Refs, now1: int, now2: int, env: Env)
    requires r.intervalActive && r.startTime.Some? && now1 <= now2
    requires Remaining(GraceSeconds, r.startTime.value, now1) > 0
    ensures var r1 := Tick(Prototype, r, now1, env).0;
      Tick(Prototype, r1, now2, env) == Tick(Prototype, r, now2, env)
      && r1.countdown == Remaining(GraceSeconds, r.startTime.value, now1)
      && Tick(Prototype, r, now2, env).0.countdown <= r1.countdown
  {
    RemainingNonIncreasing(GraceSeconds, r.startTime.value, now1, now2);
  }

  // ---------- Heuristics and handlers ----------

  /** The fallback fullscreen test has a 4 px tolerance on each dimension: 4 px off still passes, 5 px does not. */
  lemma FullscreenTolerance(env: Env)
    requires !env.fullscreenElement && env.innerWidth == env.screenWidth
    ensures env.innerHeight == env.screenHeight - 4 ==> IsActuallyFullscreen(false, env)
    ensures env.innerHeight == env.screenHeight - 5 ==> !IsActuallyFullscreen(false, env)
  {
  }

  /** Prototype and less-strict hook: the device is never treated as mobile, so the fullscreen test never consults focus. */
  lemma PrototypeFullscreenIgnoresFocus(v: Variant, r: Refs, env: Env)
    requires v != Canonical && Inv(v, r)
    ensures IsActuallyFullscreen(r.isMobile, env) == IsActuallyFullscreen(r.isMobile, env.(hasFocus := !env.hasFocus))
    ensures IsActuallyFullscreen(r.isMobile, env) <==>
      env.fullscreenElement || (Abs(env.innerHeight - env.screenHeight) <= 4 && Abs(env.innerWidth - env.screenWidth) <= 4)
  {
  }

  /** The devtools check opens an episode iff the device is not mobile, a docked panel is detected, and the monitor is idle and enabled; otherwise nothing changes. */
  lemma DetectDevToolsOpensIff(r: Refs, now: int, env: Env)
    ensures var r' := DetectDevTools(r, now, env);
      (!r.showing && r'.showing) <==> (!r.isMobile && DevToolsOpen(env) && !r.showing && r.isEnabled)
    ensures r.isMobile || !DevToolsOpen(env) ==> DetectDevTools(r, now, env) == r
  {
  }

  /** Canonical hook on mobile: a resize less than 300 ms after the previous one only records its time. */
  lemma MobileResizeDebounce(r: Refs, now: int, env: Env)
    requires r.listening && r.isMobile && now - r.lastResizeTime < ResizeDebounceMs
    ensures OnResize(Canonical, r, now, env) == (r.(lastResizeTime := now), Quiet)
  {
  }

  /** Less-strict hook: blur, hidden visibility, fullscreen exit and a non-fullscreen resize all call the trigger, with no suppression. */
  lemma LessStrictAlwaysTriggers(r: Refs, now: int, env: Env)
    requires Inv(LessStrict, r) && r.listening
    ensures OnBlur(LessStrict, r, now) == TriggerViolation(LessStrict, r.(hasFocus := false), now)
    ensures OnVisibility(LessStrict, r, true, now, env).0 == TriggerViolation(LessStrict, r.(hasFocus := false), now)
    ensures !IsActuallyFullscreen(false, env) ==>
      OnFullscreenChange(LessStrict, r, now, env).0
        == TriggerViolation(LessStrict, r.(isInFullscreen := false), now)
    ensures !IsActuallyFullscreen(false, env) ==>
      OnResize(LessStrict, r, now, env).0 == TriggerViolation(LessStrict, r.(isInFullscreen := false), now)
    ensures r.isEnabled && !r.showing ==> OnBlur(LessStrict, r, now).showing
  {
  }

  // ---------- Keyboard and context-menu filter ----------

  /** A blocked key needs the canonical hook attached on desktop, and F12 or a Ctrl/Cmd modifier. */
  lemma BlockedKeyNeedsModifier(v: Variant, r: Refs, k: KeyPress)
    ensures BlocksKey(v, r, k) ==> BlocksContextMenu(v, r)
    ensures BlocksKey(v, r, k) ==> k.key == "F12" || k.ctrlKey || k.metaKey
    ensures !BlocksContextMenu(v, r) ==> !BlocksKey(v, r, k)
  {
  }

  /** Wherever the context menu is blocked, so are F12 and the inspector, console and source chords. */
  lemma DevToolsChordsBlocked(v: Variant, r: Refs, ctrl: bool, meta: bool, shift: bool, alt: bool)
    requires BlocksContextMenu(v, r)
    ensures BlocksKey(v, r, KeyPress("F12", ctrl, meta, shift, alt))
    ensures (ctrl || meta) && shift ==>
      && BlocksKey(v, r, KeyPress("I", ctrl, meta, shift, alt))
      && BlocksKey(v, r, KeyPress("J", ctrl, meta, shift, alt))
      && BlocksKey(v, r, KeyPress("C", ctrl, meta, shift, alt))
    ensures ctrl || meta ==> BlocksKey(v, r, KeyPress("u", ctrl, meta, shift, alt))
  {
  }

  /**
   * The chords are matched on Shift, not on Option/Alt, and case-sensitively:
   * Cmd+Option+I without Shift and Ctrl+Shift+U pass through.
   */
  lemma UnmatchedChordsPassThrough(v: Variant, r: Refs)
    ensures !BlocksKey(v, r, KeyPress("I", false, true, false, true))
    ensures !BlocksKey(v, r, KeyPress("U", true, false, true, false))
    ensures !BlocksKey(v, r, KeyPress("i", true, false, true, false))
  {
  }
}
