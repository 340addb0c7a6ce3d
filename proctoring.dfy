/**
 * The proctoring violation state machine.
 *
 * The repository holds three copies of the same monitor: the hook in
 * hooks/use-exam-proctor.ts (mobile-aware, with a devtools heuristic), the
 * hook in hooks/less-strict.ts (no mobile or devtools logic) and the
 * prototype component in src/app/test/page.tsx (no enable flag, redirects on
 * expiry). Each keeps synchronous refs and steps them through browser
 * events. This module states those steps as pure functions over a record of
 * the refs; a `Variant` selects the behaviour where the copies differ. The
 * class `ProctorMonitor.Monitor` performs the same steps in place.
 */
module Proctoring {
  import opened Wrappers

  /** Which of the three copies of the monitor is meant. */
  datatype Variant =
    | Canonical   // hooks/use-exam-proctor.ts
    | LessStrict  // hooks/less-strict.ts
    | Prototype   // src/app/test/page.tsx

  const GraceSeconds: int := 10
  const TolerancePx: int := 4
  const DevToolsThresholdPx: int := 160
  const ResizeDebounceMs: int := 300
  const RecoveryLockMs: nat := 150
  const FocusRecoveryDelayMs: nat := 50
  const VisibleRecoveryDelayMs: nat := 80
  const CheatingDetectedPath: string := "/cheating-detected"

  /** What the monitor reads from the browser at one instant. */
  datatype Env = Env(
    hasFocus: bool,            // document.hasFocus()
    fullscreenElement: bool,   // document.fullscreenElement is set
    innerWidth: int, innerHeight: int,
    outerWidth: int, outerHeight: int,
    screenWidth: int, screenHeight: int)

  function Abs(x: int): nat { if x < 0 then -x else x }

  /**
   * Fullscreen test: on a mobile device it is the focus test; on a desktop a
   * fullscreen element, or a viewport within 4 px of the screen in both
   * dimensions (browser F11 fullscreen).
   */
  function IsActuallyFullscreen(isMobile: bool, env: Env): (r: bool)
    ensures isMobile ==> (r <==> env.hasFocus)
    ensures !isMobile ==>
      (r <==> env.fullscreenElement
              || (env.screenHeight - TolerancePx <= env.innerHeight <= env.screenHeight + TolerancePx
                  && env.screenWidth - TolerancePx <= env.innerWidth <= env.screenWidth + TolerancePx))
  {
    if isMobile then env.hasFocus
    else if env.fullscreenElement then true
    else
      var heightDiff := Abs(env.innerHeight - env.screenHeight);
      var widthDiff := Abs(env.innerWidth - env.screenWidth);
      heightDiff <= TolerancePx && widthDiff <= TolerancePx
  }

  /** The condition under which an episode may close: fullscreen AND focus. */
  predicate Recovered(isMobile: bool, env: Env) {
    IsActuallyFullscreen(isMobile, env) && env.hasFocus
  }

  /** Docked devtools heuristic: outer minus inner size beyond 160 px. */
  predicate DevToolsOpen(env: Env) {
    env.outerWidth - env.innerWidth > DevToolsThresholdPx
    || env.outerHeight - env.innerHeight > DevToolsThresholdPx
  }

  /**
   * Seconds left of a countdown of `seconds` anchored at `start` (ms), read at
   * `now` (ms): max(0, seconds - floor((now - start) / 1000)). Dafny's `/`
   * with a positive divisor is floor division, as Math.floor of the quotient.
   */
  function Remaining(seconds: int, start: int, now: int): int {
    var elapsed := (now - start) / 1000;
    if seconds - elapsed > 0 then seconds - elapsed else 0
  }

  /** What a step asks of the outside world. */
  datatype Signal =
    | Quiet
    | ViolationTimeout           // onViolationTimeout() is called
    | Redirect(path: string)     // router.push(path)
    | RecoveryIn(delayMs: nat)   // setTimeout(performRecovery, delayMs)
    | LockReleaseIn(delayMs: nat) // setTimeout(() => recoveringRef.current = false, delayMs)

  predicate IsExpiry(s: Signal) { s.ViolationTimeout? || s.Redirect? }

  /**
   * The monitor's refs and the React state its logic reads. `showWarning`
   * mirrors `showing` in every copy, so it is not kept separately.
   */
  datatype Refs = Refs(
    isEnabled: bool,        // the isEnabled option (always true for the prototype)
    isMobile: bool,         // isMobileRef
    listening: bool,        // the event listeners are attached
    devToolsPolling: bool,  // devToolsCheckIntervalRef !== null
    showing: bool,          // showingRef: a violation episode is open
    recovering: bool,       // recoveringRef: the 150 ms re-entrancy lock
    intervalActive: bool,   // intervalRef !== null: the countdown interval runs
    startTime: Option<int>, // startTimeRef: wall-clock anchor of the countdown
    countdown: int,         // countdown state: remaining grace seconds
    lastResizeTime: int,    // lastResizeTimeRef
    inputFocused: bool,     // inputFocusedRef
    isInFullscreen: bool,   // isInFullscreen state
    hasFocus: bool)         // hasFocus state

  /** The refs before the mount effect has run. */
  function Initial(v: Variant, isEnabled: bool): Refs {
    Refs(v == Prototype || isEnabled, false, false, false, false, false, false,
         None, GraceSeconds, 0, false, false, true)
  }

  /** The invariant every reachable state of the monitor satisfies. */
  ghost predicate Inv(v: Variant, r: Refs) {
    && (r.intervalActive <==> r.startTime.Some?)
    && (r.intervalActive ==> r.showing && r.listening)
    && (r.listening ==> r.isEnabled)
    && (r.devToolsPolling ==> v == Canonical && r.listening && !r.isMobile)
    && (r.isMobile ==> v == Canonical)
    && (v == Prototype ==> r.isEnabled)
    && r.countdown >= 0
  }

  // ---------- Countdown ----------

  function ClearCountdown(r: Refs): Refs {
    r.(intervalActive := false, startTime := None)
  }

  function StartCountdown(r: Refs, now: int): Refs {
    ClearCountdown(r).(countdown := GraceSeconds, startTime := Some(now), intervalActive := true)
  }

  /** The 200 ms interval body. A cleared interval delivers no tick. */
  function Tick(v: Variant, r: Refs, now: int, env: Env): (Refs, Signal) {
    if !r.intervalActive then (r, Quiet)
    else
      var start := if r.startTime.Some? then r.startTime.value else now;
      var remaining := Remaining(GraceSeconds, start, now);
      var r1 := r.(countdown := remaining);
      if remaining > 0 then (r1, Quiet) else Expire(v, r1, env)
  }

  /** The interval body once the countdown has reached zero: stop it, then time out unless recovered. */
  function Expire(v: Variant, r: Refs, env: Env): (Refs, Signal) {
    var r1 := ClearCountdown(r);
    if !Recovered(r.isMobile, env) && r.showing then
      if v == Prototype then (r1, Redirect(CheatingDetectedPath))
      else (r1.(showing := false), ViolationTimeout)
    else (r1.(showing := false), Quiet)
  }

  // ---------- Violation and recovery ----------

  /** The mobile-input suppression of the canonical hook. */
  predicate Suppressed(v: Variant, r: Refs) {
    v == Canonical && r.inputFocused && r.isMobile
  }

  function TriggerViolation(v: Variant, r: Refs, now: int): Refs {
    if Suppressed(v, r) then r
    else if !r.showing && (v == Prototype || r.isEnabled) then
      StartCountdown(r.(showing := true), now)
    else r
  }

  function PerformRecovery(r: Refs, env: Env): (Refs, Signal) {
    if !r.showing then (r, Quiet)
    else if r.recovering then (r, Quiet)
    else if IsActuallyFullscreen(r.isMobile, env) && env.hasFocus then
      (ClearCountdown(r.(recovering := true)).(showing := false, countdown := GraceSeconds),
       LockReleaseIn(RecoveryLockMs))
    else (r, Quiet)
  }

  function ReleaseLock(r: Refs): Refs {
    r.(recovering := false)
  }

  /** Canonical hook only: the devtools size heuristic. */
  function DetectDevTools(r: Refs, now: int, env: Env): Refs {
    if r.isMobile then r
    else if DevToolsOpen(env) then TriggerViolation(Canonical, r, now)
    else r
  }

  // ---------- Event handlers (they act only while attached) ----------

  function OnVisibility(v: Variant, r: Refs, hidden: bool, now: int, env: Env): (Refs, Signal) {
    if !r.listening then (r, Quiet)
    else if hidden then
      var r1 := r.(hasFocus := false);
      if !Suppressed(v, r1) then (TriggerViolation(v, r1, now), Quiet) else (r1, Quiet)
    else (r.(hasFocus := env.hasFocus), RecoveryIn(VisibleRecoveryDelayMs))
  }

  function OnFocus(r: Refs): (Refs, Signal) {
    if !r.listening then (r, Quiet)
    else (r.(hasFocus := true), RecoveryIn(FocusRecoveryDelayMs))
  }

  function OnBlur(v: Variant, r: Refs, now: int): Refs {
    if !r.listening then r
    else
      var r1 := r.(hasFocus := false);
      if !Suppressed(v, r1) then TriggerViolation(v, r1, now) else r1
  }

  function OnFullscreenChange(v: Variant, r: Refs, now: int, env: Env): (Refs, Signal) {
    if !r.listening then (r, Quiet)
    else
      var nowFs := IsActuallyFullscreen(r.isMobile, env);
      var r1 := r.(isInFullscreen := nowFs);
      if !nowFs && !r.isMobile then (TriggerViolation(v, r1, now), Quiet)
      else (r1, RecoveryIn(FocusRecoveryDelayMs))
  }

  /**
   * The part of every resize listener after the debounce: record the
   * fullscreen reading, then trigger a violation or schedule a recovery. Only
   * the canonical hook spares a mobile user who is typing.
   */
  function ResizeCheck(v: Variant, r: Refs, now: int, env: Env): (Refs, Signal) {
    var nowFs := IsActuallyFullscreen(r.isMobile, env);
    var r1 := r.(isInFullscreen := nowFs);
    if !nowFs && (v != Canonical || !r.isMobile || !r.inputFocused) then (TriggerViolation(v, r1, now), Quiet)
    else (r1, RecoveryIn(FocusRecoveryDelayMs))
  }

  /** The canonical hook's resize listener after its debounce: the check, then the devtools test on desktop. */
  function CanonicalResizeChecks(r: Refs, now: int, env: Env): (Refs, Signal) {
    var c := ResizeCheck(Canonical, r, now, env);
    if !r.isMobile then (DetectDevTools(c.0, now, env), c.1) else c
  }

  function OnResize(v: Variant, r: Refs, now: int, env: Env): (Refs, Signal) {
    if !r.listening then (r, Quiet)
    else if v == Canonical then
      var r1 := r.(lastResizeTime := now);
      if r.isMobile && now - r.lastResizeTime < ResizeDebounceMs then (r1, Quiet)
      else CanonicalResizeChecks(r1, now, env)
    else ResizeCheck(v, r, now, env)
  }

  /** The 1 s devtools poll, registered only by the canonical hook on desktop. */
  function OnDevToolsPoll(r: Refs, now: int, env: Env): Refs {
    if !r.devToolsPolling then r else DetectDevTools(r, now, env)
  }

  /** focusin / focusout on an INPUT, TEXTAREA or content-editable target (canonical only). */
  function OnInputFocus(v: Variant, r: Refs, isTextTarget: bool, focused: bool): Refs {
    if v == Canonical && r.listening && isTextTarget then r.(inputFocused := focused) else r
  }

  /** A keydown event: the key name and the modifier flags. */
  datatype KeyPress = KeyPress(key: string, ctrlKey: bool, metaKey: bool, shiftKey: bool, altKey: bool)

  /** The shortcuts the canonical hook's keydown listener recognises. */
  predicate DevToolsShortcut(k: KeyPress) {
    || k.key == "F12"
    || ((k.ctrlKey || k.metaKey) && k.shiftKey && (k.key == "I" || k.key == "J" || k.key == "C"))
    || ((k.ctrlKey || k.metaKey) && k.key == "u")
  }

  /** Whether the keydown listener prevents the key's default action. */
  predicate BlocksKey(v: Variant, r: Refs, k: KeyPress) {
    v == Canonical && r.listening && !r.isMobile && DevToolsShortcut(k)
  }

  /** Whether the contextmenu listener prevents the menu. */
  predicate BlocksContextMenu(v: Variant, r: Refs) {
    v == Canonical && r.listening && !r.isMobile
  }

  // ---------- Effects ----------

  /** The mount effect: read the device and the environment, attach the listeners. */
  function Mount(v: Variant, r: Refs, uaMobile: bool, env: Env): Refs {
    if !r.isEnabled then r
    else
      var mobile := v == Canonical && uaMobile;
      r.(isMobile := mobile, hasFocus := env.hasFocus,
         isInFullscreen := IsActuallyFullscreen(mobile, env),
         listening := true, devToolsPolling := v == Canonical && !mobile)
  }

  /** The effect cleanup: detach the listeners, stop the polls and the countdown. */
  function Teardown(r: Refs): Refs {
    if !r.listening then r
    else ClearCountdown(r.(listening := false, devToolsPolling := false))
  }

  /** The effect on [isInFullscreen, hasFocus, isEnabled]: retry recovery while an episode is open. */
  function Sync(v: Variant, r: Refs, env: Env): (Refs, Signal) {
    if r.showing && (v == Prototype || r.isEnabled) then PerformRecovery(r, env) else (r, Quiet)
  }

  /** A new value of the isEnabled option: cleanup, then the mount and sync effects rerun. */
  function SetEnabled(v: Variant, r: Refs, enabled: bool, uaMobile: bool, env: Env): (Refs, Signal) {
    if v == Prototype || enabled == r.isEnabled then (r, Quiet)
    else Sync(v, Mount(v, Teardown(r).(isEnabled := enabled), uaMobile, env), env)
  }

  /** The state after the first render and its effects. */
  function Mounted(v: Variant, isEnabled: bool, uaMobile: bool, env: Env): Refs {
    Mount(v, Initial(v, isEnabled), uaMobile, env)
  }

  // ---------- Events ----------

  datatype Event =
    | IntervalTick(now: int, env: Env)
    | VisibilityChange(hidden: bool, now: int, env: Env)
    | WindowFocus
    | WindowBlur(now: int)
    | FullscreenChange(now: int, env: Env)
    | WindowResize(now: int, env: Env)
    | DevToolsPoll(now: int, env: Env)
    | InputFocus(isTextTarget: bool)
    | InputBlur(isTextTarget: bool)
    | Recovery(env: Env)
    | LockRelease
    | SyncEffect(env: Env)
    | EnabledChange(enabled: bool, uaMobile: bool, env: Env)
    | Unmount

  function Step(v: Variant, r: Refs, e: Event): (Refs, Signal) {
    match e
    case IntervalTick(now, env) => Tick(v, r, now, env)
    case VisibilityChange(hidden, now, env) => OnVisibility(v, r, hidden, now, env)
    case WindowFocus => OnFocus(r)
    case WindowBlur(now) => (OnBlur(v, r, now), Quiet)
    case FullscreenChange(now, env) => OnFullscreenChange(v, r, now, env)
    case WindowResize(now, env) => OnResize(v, r, now, env)
    case DevToolsPoll(now, env) => (OnDevToolsPoll(r, now, env), Quiet)
    case InputFocus(t) => (OnInputFocus(v, r, t, true), Quiet)
    case InputBlur(t) => (OnInputFocus(v, r, t, false), Quiet)
    case Recovery(env) => PerformRecovery(r, env)
    case LockRelease => (ReleaseLock(r), Quiet)
    case SyncEffect(env) => Sync(v, r, env)
    case EnabledChange(enabled, uaMobile, env) => SetEnabled(v, r, enabled, uaMobile, env)
    case Unmount => (Teardown(r), Quiet)
  }

  /** The state and the signals after a sequence of events. */
  function Run(v: Variant, r: Refs, evs: seq<Event>): (Refs, seq<Signal>)
    decreases |evs|
  {
    if evs == [] then (r, [])
    else
      var (r1, s) := Step(v, r, evs[0]);
      var (r2, ss) := Run(v, r1, evs[1..]);
      (r2, [s] + ss)
  }

  /** Number of timeout callbacks and redirects among the signals. */
  function Expiries(ss: seq<Signal>): nat {
    if ss == [] then 0 else (if IsExpiry(ss[0]) then 1 else 0) + Expiries(ss[1..])
  }

  /** Number of steps of a run that open a violation episode. */
  function Episodes(v: Variant, r: Refs, evs: seq<Event>): nat
    decreases |evs|
  {
    if evs == [] then 0
    else
      var r1 := Step(v, r, evs[0]).0;
      (if !r.showing && r1.showing then 1 else 0) + Episodes(v, r1, evs[1..])
  }
}
