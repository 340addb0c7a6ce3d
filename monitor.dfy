/**
 * The proctoring monitor as the source runs it: an object whose refs are
 * updated in place by event handlers, the 200 ms countdown interval, the
 * devtools poll and the effect cleanup. Browser readings arrive as an `Env`
 * parameter, `Date.now()` as `now`, and the callback, the redirect and the
 * scheduled timeouts are returned as a `Signal`. Every method is proved to
 * perform exactly the step that `Proctoring` specifies, and to keep the
 * invariant `Proctoring.Inv`.
 */
module ProctorMonitor {
  import opened Wrappers
  import P = Proctoring

  class Monitor {
    const variant: P.Variant
    var isEnabled: bool
    var isMobile: bool
    var listening: bool
    var devToolsPolling: bool
    var showing: bool
    var recovering: bool
    var intervalActive: bool
    var startTime: Option<int>
    var countdown: int
    var lastResizeTime: int
    var inputFocused: bool
    var isInFullscreen: bool
    var hasFocus: bool

    /** The refs as one value. */
    ghost function State(): P.Refs
      reads this
    {
      P.Refs(isEnabled, isMobile, listening, devToolsPolling, showing, recovering,
             intervalActive, startTime, countdown, lastResizeTime, inputFocused,
             isInFullscreen, hasFocus)
    }

    ghost predicate Valid()
      reads this
    {
      P.Inv(variant, State())
    }

    /** First render followed by the mount effect. */
    constructor (variant: P.Variant, isEnabled: bool, uaMobile: bool, env: P.Env)
      ensures this.variant == variant
      ensures Valid() && State() == P.Mounted(variant, isEnabled, uaMobile, env)
    {
      this.variant := variant;
      this.isEnabled := variant == P.Prototype || isEnabled;
      isMobile, listening, devToolsPolling := false, false, false;
      showing, recovering, intervalActive := false, false, false;
      startTime := None;
      countdown := P.GraceSeconds;
      lastResizeTime := 0;
      inputFocused, isInFullscreen, hasFocus := false, false, true;
      new;
      Mount(uaMobile, env);
    }

    /** The mount effect body. */
    method Mount(uaMobile: bool, env: P.Env)
      requires Valid()
      modifies this
      ensures Valid()
      ensures State() == P.Mount(variant, old(State()), uaMobile, env)
    {
      if !isEnabled {
        return;
      }
      isMobile := variant == P.Canonical && uaMobile;
      hasFocus := env.hasFocus;
      isInFullscreen := P.IsActuallyFullscreen(isMobile, env);
      listening := true;
      devToolsPolling := variant == P.Canonical && !isMobile;
    }

    /** The effect cleanup: remove the listeners, stop the devtools poll and the countdown. */
    method Teardown()
      requires Valid()
      modifies this
      ensures Valid()
      ensures State() == P.Teardown(old(State()))
    {
      if !listening {
        return;
      }
      listening := false;
      devToolsPolling := false;
      ClearCountdown();
    }

    method ClearCountdown()
      modifies this
      ensures State() == P.ClearCountdown(old(State()))
    {
      if intervalActive {
        intervalActive := false;
      }
      startTime := None;
    }

    method StartCountdown(now: int)
      modifies this
      ensures State() == P.StartCountdown(old(State()), now)
    {
      ClearCountdown();
      countdown := P.GraceSeconds;
      startTime := Some(now);
      intervalActive := true;
    }

    /** The 200 ms interval body: recompute the countdown from the anchor and handle expiry. */
    method Tick(now: int, env: P.Env) returns (signal: P.Signal)
      requires Valid()
      modifies this
      ensures Valid()
      ensures State() == P.Tick(variant, old(State()), now, env).0
      ensures signal == P.Tick(variant, old(State()), now, env).1
    {
      signal := P.Quiet;
      if !intervalActive {
        return;
      }
      var start := if startTime.Some? then startTime.value else now;
      var remaining := P.Remaining(P.GraceSeconds, start, now);
      countdown := remaining;
      if remaining <= 0 {
        signal := Expire(env);
      }
    }

    /** The expiry branch of the interval body. */
    method Expire(env: P.Env) returns (signal: P.Signal)
      requires Valid()
      modifies this
      ensures Valid()
      ensures State() == P.Expire(variant, old(State()), env).0
      ensures signal == P.Expire(variant, old(State()), env).1
    {
      ClearCountdown();
      var timedOut := !(P.IsActuallyFullscreen(isMobile, env) && env.hasFocus) && showing;
      if timedOut && variant == P.Prototype {
        signal := P.Redirect(P.CheatingDetectedPath);
      } else {
        signal := if timedOut then P.ViolationTimeout else P.Quiet;
        showing := false;
      }
    }

    method TriggerViolation(now: int)
      requires Valid() && listening
      modifies this
      ensures Valid()
      ensures State() == P.TriggerViolation(variant, old(State()), now)
    {
      if variant == P.Canonical && inputFocused && isMobile {
        return;
      }
      if !showing && (variant == P.Prototype || isEnabled) {
        showing := true;
        StartCountdown(now);
      }
    }

    method PerformRecovery(env: P.Env) returns (signal: P.Signal)
      requires Valid()
      modifies this
      ensures Valid()
      ensures State() == P.PerformRecovery(old(State()), env).0
      ensures signal == P.PerformRecovery(old(State()), env).1
    {
      signal := P.Quiet;
      if !showing {
        return;
      }
      if recovering {
        return;
      }
      var nowFullscreen := P.IsActuallyFullscreen(isMobile, env);
      var nowFocused := env.hasFocus;
      if nowFullscreen && nowFocused {
        recovering := true;
        ClearCountdown();
        showing := false;
        countdown := P.GraceSeconds;
        signal := P.LockReleaseIn(P.RecoveryLockMs);
      }
    }

    /** The 150 ms timeout set by a recovery. */
    method ReleaseRecoveryLock()
      requires Valid()
      modifies this
      ensures Valid()
      ensures State() == P.ReleaseLock(old(State()))
    {
      recovering := false;
    }

    method DetectDevTools(now: int, env: P.Env)
      requires variant == P.Canonical && Valid() && listening
      modifies this
      ensures Valid()
      ensures State() == P.DetectDevTools(old(State()), now, env)
    {
      if isMobile {
        return;
      }
      if P.DevToolsOpen(env) {
        TriggerViolation(now);
      }
    }

    /** The 1 s devtools poll. */
    method OnDevToolsPoll(now: int, env: P.Env)
      requires Valid()
      modifies this
      ensures Valid()
      ensures State() == P.OnDevToolsPoll(old(State()), now, env)
    {
      if devToolsPolling {
        DetectDevTools(now, env);
      }
    }

    method OnVisibility(hidden: bool, now: int, env: P.Env) returns (signal: P.Signal)
      requires Valid()
      modifies this
      ensures Valid()
      ensures State() == P.OnVisibility(variant, old(State()), hidden, now, env).0
      ensures signal == P.OnVisibility(variant, old(State()), hidden, now, env).1
    {
      ghost var r := State();
      ghost var spec := P.OnVisibility(variant, r, hidden, now, env);
      signal := P.Quiet;
      if !listening {
        return;
      }
      if hidden {
        hasFocus := false;
        ghost var r1 := r.(hasFocus := false);
        assert State() == r1;
        if !(variant == P.Canonical && inputFocused && isMobile) {
          assert spec == (P.TriggerViolation(variant, r1, now), P.Quiet);
          TriggerViolation(now);
        } else {
          assert spec == (r1, P.Quiet);
        }
      } else {
        hasFocus := env.hasFocus;
        signal := P.RecoveryIn(P.VisibleRecoveryDelayMs);
      }
    }

    method OnFocus() returns (signal: P.Signal)
      requires Valid()
      modifies this
      ensures Valid()
      ensures State() == P.OnFocus(old(State())).0
      ensures signal == P.OnFocus(old(State())).1
    {
      signal := P.Quiet;
      if !listening {
        return;
      }
      hasFocus := true;
      signal := P.RecoveryIn(P.FocusRecoveryDelayMs);
    }

    method OnBlur(now: int)
      requires Valid()
      modifies this
      ensures Valid()
      ensures State() == P.OnBlur(variant, old(State()), now)
    {
      if !listening {
        return;
      }
      hasFocus := false;
      if !(variant == P.Canonical && inputFocused && isMobile) {
        TriggerViolation(now);
      }
    }

    method OnFullscreenChange(now: int, env: P.Env) returns (signal: P.Signal)
      requires Valid()
      modifies this
      ensures Valid()
      ensures State() == P.OnFullscreenChange(variant, old(State()), now, env).0
      ensures signal == P.OnFullscreenChange(variant, old(State()), now, env).1
    {
      signal := P.Quiet;
      if !listening {
        return;
      }
      var nowFs := P.IsActuallyFullscreen(isMobile, env);
      isInFullscreen := nowFs;
      if !nowFs && !isMobile {
        TriggerViolation(now);
      } else {
        signal := P.RecoveryIn(P.FocusRecoveryDelayMs);
      }
    }

    method OnResize(now: int, env: P.Env) returns (signal: P.Signal)
      requires Valid()
      modifies this
      ensures Valid()
      ensures State() == P.OnResize(variant, old(State()), now, env).0
      ensures signal == P.OnResize(variant, old(State()), now, env).1
    {
      signal := P.Quiet;
      if !listening {
        return;
      }
      if variant == P.Canonical {
        signal := OnResizeCanonical(now, env);
      } else {
        signal := CheckFullscreenAfterResize(now, env);
      }
    }

    /** The canonical hook's resize listener: debounced on mobile. */
    method OnResizeCanonical(now: int, env: P.Env) returns (signal: P.Signal)
      requires Valid() && listening && variant == P.Canonical
      modifies this
      ensures Valid()
      ensures State() == P.OnResize(variant, old(State()), now, env).0
      ensures signal == P.OnResize(variant, old(State()), now, env).1
    {
      var sinceLast := now - lastResizeTime;
      lastResizeTime := now;
      if isMobile && sinceLast < P.ResizeDebounceMs {
        return P.Quiet;
      }
      signal := CanonicalResizeChecks(now, env);
    }

    /** The canonical resize listener past the debounce: the fullscreen check, then the devtools test on desktop. */
    method CanonicalResizeChecks(now: int, env: P.Env) returns (signal: P.Signal)
      requires Valid() && listening && variant == P.Canonical
      modifies this
      ensures Valid()
      ensures State() == P.CanonicalResizeChecks(old(State()), now, env).0
      ensures signal == P.CanonicalResizeChecks(old(State()), now, env).1
    {
      signal := CheckFullscreenAfterResize(now, env);
      if !isMobile {
        DetectDevTools(now, env);
      }
    }

    /** The part of the resize listeners after the debounce. */
    method CheckFullscreenAfterResize(now: int, env: P.Env) returns (signal: P.Signal)
      requires Valid() && listening
      modifies this
      ensures Valid() && listening
      ensures State() == P.ResizeCheck(variant, old(State()), now, env).0
      ensures signal == P.ResizeCheck(variant, old(State()), now, env).1
    {
      var nowFs := P.IsActuallyFullscreen(isMobile, env);
      isInFullscreen := nowFs;
      if !nowFs && (variant != P.Canonical || !isMobile || !inputFocused) {
        TriggerViolation(now);
        signal := P.Quiet;
      } else {
        signal := P.RecoveryIn(P.FocusRecoveryDelayMs);
      }
    }

    /** focusin (focused) or focusout (not focused) on an element of the page. */
    method OnInputFocus(isTextTarget: bool, focused: bool)
      requires Valid()
      modifies this
      ensures Valid()
      ensures State() == P.OnInputFocus(variant, old(State()), isTextTarget, focused)
    {
      if variant == P.Canonical && listening && isTextTarget {
        inputFocused := focused;
      }
    }

    /** The keydown listener: whether the default action is prevented. */
    method OnKeyDown(k: P.KeyPress) returns (prevented: bool)
      ensures prevented == P.BlocksKey(variant, State(), k)
    {
      prevented := false;
      if variant != P.Canonical || !listening || isMobile {
        return;
      }
      if k.key == "F12" {
        prevented := true;
        return;
      }
      var modifier := k.ctrlKey || k.metaKey;
      if modifier && k.shiftKey && k.key == "I" {
        prevented := true;
      } else if modifier && k.shiftKey && k.key == "J" {
        prevented := true;
      } else if modifier && k.shiftKey && k.key == "C" {
        prevented := true;
      } else if modifier && k.key == "u" {
        prevented := true;
      }
    }

    /** The contextmenu listener: whether the menu is prevented. */
    method OnContextMenu() returns (prevented: bool)
      ensures prevented == P.BlocksContextMenu(variant, State())
    {
      prevented := variant == P.Canonical && listening && !isMobile;
    }

    /** The effect on [isInFullscreen, hasFocus, isEnabled]. */
    method SyncEffect(env: P.Env) returns (signal: P.Signal)
      requires Valid()
      modifies this
      ensures Valid()
      ensures State() == P.Sync(variant, old(State()), env).0
      ensures signal == P.Sync(variant, old(State()), env).1
    {
      signal := P.Quiet;
      if showing && (variant == P.Prototype || isEnabled) {
        signal := PerformRecovery(env);
      }
    }

    /** A new value of the isEnabled option. */
    method SetEnabled(enabled: bool, uaMobile: bool, env: P.Env) returns (signal: P.Signal)
      requires Valid()
      modifies this
      ensures Valid()
      ensures State() == P.SetEnabled(variant, old(State()), enabled, uaMobile, env).0
      ensures signal == P.SetEnabled(variant, old(State()), enabled, uaMobile, env).1
    {
      signal := P.Quiet;
      if variant == P.Prototype || enabled == isEnabled {
        return;
      }
      Remount(enabled, uaMobile, env);
      signal := SyncEffect(env);
    }

    /** The cleanup of the old effect, the new option value, and the mount effect again. */
    method Remount(enabled: bool, uaMobile: bool, env: P.Env)
      requires Valid() && variant != P.Prototype
      modifies this
      ensures Valid()
      ensures State() == P.Mount(variant, P.Teardown(old(State())).(isEnabled := enabled), uaMobile, env)
    {
      ghost var r1 := P.Teardown(State()).(isEnabled := enabled);
      Teardown();
      assert !listening;
      isEnabled := enabled;
      assert State() == r1;
      Mount(uaMobile, env);
    }
  }
}
