# Exam client core: proctoring, session store, timer, route gate, navigation and review

This project models the client-side core of an online exam application (a
Next.js/React front end) and proves properties of that model.

- **Proctoring monitor** (`proctoring.dfy`, `monitor.dfy`, `proctoring_facts.dfy`).
  The repository holds three copies of one violation monitor:
  - the canonical hook `hooks/use-exam-proctor.ts`, which is aware of mobile
    devices, suppresses violations while a text input is focused on mobile,
    polls for docked devtools and blocks devtools shortcuts;
  - the hook `hooks/less-strict.ts`, which has none of that;
  - the prototype page `src/app/test/page.tsx`, which has no enable flag and
    redirects to `/cheating-detected` on expiry.

  Losing focus, hiding the page, leaving fullscreen or resizing away from the
  screen size opens a violation episode: the warning is shown and a 10-second
  countdown anchored on the wall clock starts. Regaining fullscreen and focus
  together closes the episode and takes a 150 ms re-entrancy lock. A countdown
  that reaches zero first checks once more whether the user has recovered. If
  not, it fires the timeout callback, or in the prototype the redirect.
  - Module `Proctoring` states every handler as a pure step over a record of
    the monitor's refs. A `Variant` selects between the three copies.
  - Class `ProctorMonitor.Monitor` holds the same refs as mutable fields. Each
    of its methods is proved to perform the corresponding step.
  - Module `ProctoringFacts` proves the following:
    - every event keeps the invariant;
    - the timeout fires at most once per episode;
    - recovery needs fullscreen and focus together;
    - the countdown arithmetic;
    - the per-variant differences.
- **Session store** (`store.dfy`, `lib/store.ts`). The user and the exam
  session (answers, flags, highlights, notes, current index, time) and its
  actions. Every session action is a no-op without a session.
- **Timer display** (`timer.dfy`, `components/exam/timer-display.tsx`). The
  `H:MM:SS` rendering, the low-time warning, and the one-second interval that
  reports the decremented time or expiry.
- **Route gate** (`middleware.dfy`, `src/middleware.ts`). The cookie-based
  redirect between the sign-in pages and the rest of the site, and the
  matcher that selects which paths reach it.
- **Module navigation popover** (`navigation.dfy`) and the **check-your-work and
  review summaries** (`review.dfy`).

Browser readings (`document.hasFocus()`, the fullscreen element, window and
screen sizes) are a parameter `Env`, and `Date.now()` is a parameter `now`.
Timers scheduled with `setTimeout` are not run: a step returns them as a
`Signal`, and the matching event (`Recovery`, `LockRelease`) is a separate
step.

## Model

| member | source | states |
|---|---|---|
| Proctoring.IsActuallyFullscreen | hooks/use-exam-proctor.ts:61-81 | On a mobile device the result is the focus reading. On a desktop it is true iff there is a fullscreen element, or the viewport is within 4 px of the screen in both height and width. |
| ProctorMonitor.Monitor.constructor | hooks/use-exam-proctor.ts:169-176 | A new monitor is in the state after the first render and the mount effect, and satisfies the invariant. |
| ProctorMonitor.Monitor.Mount | hooks/use-exam-proctor.ts:169-176 | The mount effect. When enabled it records the device kind (always desktop outside the canonical hook), focus and fullscreen, and attaches the listeners. It starts the devtools poll only in the canonical hook on desktop. The invariant is kept. |
| ProctorMonitor.Monitor.Teardown | hooks/use-exam-proctor.ts:341-361 | The effect cleanup detaches the listeners, stops the devtools poll and clears the countdown. It leaves the episode flag as it was. |
| ProctorMonitor.Monitor.ClearCountdown | hooks/use-exam-proctor.ts:83-89 | The interval is stopped and the start anchor dropped. Nothing else changes. |
| ProctorMonitor.Monitor.StartCountdown | hooks/use-exam-proctor.ts:92-96 | A fresh 10-second countdown starts, anchored at `now`. |
| ProctorMonitor.Monitor.Tick | hooks/use-exam-proctor.ts:97-103 | The 200 ms interval body. A cleared interval does nothing. Otherwise the shown countdown becomes max(0, 10 - floor((now - start)/1000)), and at zero the tick expires. The invariant is kept. |
| ProctorMonitor.Monitor.Expire | hooks/use-exam-proctor.ts:103-116 | Expiry stops the interval. If the user has not recovered and the warning still shows, the timeout fires: the callback with the warning hidden, or in the prototype the redirect with the warning left up. Otherwise the warning is hidden silently. |
| ProctorMonitor.Monitor.TriggerViolation | hooks/use-exam-proctor.ts:120-131 | An episode opens only if none is open and the monitor is enabled, and in the canonical hook only if no text input is focused on mobile. Opening an episode starts a fresh countdown. |
| ProctorMonitor.Monitor.PerformRecovery | hooks/use-exam-proctor.ts:133-151 | With an episode open, the lock free, and fullscreen and focus both present, the episode closes. The countdown is cleared and reset to 10, the lock is taken, and a release in 150 ms is scheduled. In every other case nothing changes. |
| ProctorMonitor.Monitor.ReleaseRecoveryLock | hooks/use-exam-proctor.ts:147-149 | The 150 ms timeout clears the re-entrancy lock and nothing else. |
| ProctorMonitor.Monitor.DetectDevTools | hooks/use-exam-proctor.ts:154-166 | On a desktop, an outer-minus-inner size above 160 px in either dimension triggers a violation. |
| ProctorMonitor.Monitor.OnDevToolsPoll | hooks/use-exam-proctor.ts:319-325 | The 1 s poll runs the devtools check only while it is registered. |
| ProctorMonitor.Monitor.OnVisibility | hooks/use-exam-proctor.ts:244-256 | A hidden page clears focus and triggers a violation, unless suppressed on mobile. A visible page records focus and schedules a recovery in 80 ms. |
| ProctorMonitor.Monitor.OnFocus | hooks/use-exam-proctor.ts:258-261 | Focus is recorded and a recovery is scheduled in 50 ms. |
| ProctorMonitor.Monitor.OnBlur | hooks/use-exam-proctor.ts:263-269 | Focus is cleared and a violation is triggered, unless suppressed on mobile. |
| ProctorMonitor.Monitor.OnFullscreenChange | hooks/use-exam-proctor.ts:271-280 | The fullscreen reading is recorded. Leaving fullscreen on a desktop triggers a violation; otherwise a recovery is scheduled in 50 ms. |
| ProctorMonitor.Monitor.OnResize | hooks/use-exam-proctor.ts:282-306 | The resize listener of each copy. The canonical hook records the time and drops a resize less than 300 ms after the previous one on mobile. It then checks fullscreen, and on a desktop it also checks for devtools. |
| ProctorMonitor.Monitor.OnResizeCanonical | hooks/use-exam-proctor.ts:282-290 | The canonical resize listener, including the mobile 300 ms debounce. |
| ProctorMonitor.Monitor.CanonicalResizeChecks | hooks/use-exam-proctor.ts:292-305 | After the debounce: the fullscreen check, then the devtools check on a desktop. |
| ProctorMonitor.Monitor.CheckFullscreenAfterResize | hooks/use-exam-proctor.ts:292-300 | Outside fullscreen a violation is triggered, except in the canonical hook for a mobile user typing. Otherwise a recovery is scheduled in 50 ms. |
| ProctorMonitor.Monitor.OnInputFocus | hooks/use-exam-proctor.ts:179-199 | focusin and focusout on an INPUT, TEXTAREA or content-editable element set or clear the input-focus flag (canonical hook only). |
| ProctorMonitor.Monitor.OnKeyDown | hooks/use-exam-proctor.ts:210-242 | The key is prevented iff the canonical hook is attached on a desktop and the key is F12, Ctrl/Cmd+Shift+I/J/C or Ctrl/Cmd+u. |
| ProctorMonitor.Monitor.OnContextMenu | hooks/use-exam-proctor.ts:202-207 | The context menu is prevented iff the canonical hook is attached on a desktop. |
| ProctorMonitor.Monitor.SyncEffect | hooks/use-exam-proctor.ts:365-370 | While an episode is open and the monitor is enabled, recovery is retried. |
| ProctorMonitor.Monitor.SetEnabled | hooks/use-exam-proctor.ts:169-170 | A changed enable option tears down, remounts with the new value and reruns the sync effect. The prototype has no such option. |
| ProctorMonitor.Monitor.Remount | hooks/use-exam-proctor.ts:341-363 | The cleanup followed by the mount effect under the new enable option. |
| ProctoringFacts.RemainingWithinGrace | hooks/use-exam-proctor.ts:98-100 | The shown countdown is never negative. Once the clock has passed the anchor it is at most 10, and during the first second it is exactly 10. |
| ProctoringFacts.RemainingNonIncreasing | hooks/use-exam-proctor.ts:98-101 | For a clock that does not go backwards, the countdown never increases. |
| ProctoringFacts.RemainingZeroIff | hooks/use-exam-proctor.ts:99-103 | The countdown reaches zero exactly when 10 full seconds of wall-clock time have elapsed, however many ticks were skipped. |
| ProctoringFacts.BackwardClockExceedsGrace | hooks/use-exam-proctor.ts:98-100 | A clock moved back by a second or more before the anchor shows more than 10 seconds. |
| ProctoringFacts.MountedSatisfiesInv | hooks/use-exam-proctor.ts:169-176 | The mounted monitor satisfies the invariant, shows no warning and runs no countdown. It listens iff it is enabled (always, for the prototype). |
| ProctoringFacts.TriggerOk | hooks/use-exam-proctor.ts:120-131 | A trigger keeps the invariant. It arms a countdown only by opening an episode, with the full 10 seconds. |
| ProctoringFacts.TickOk | hooks/use-exam-proctor.ts:97-117 | A tick keeps the invariant and the anchor, and expires only a running countdown, which it stops. |
| ProctoringFacts.RecoveryOk | hooks/use-exam-proctor.ts:133-151 | A recovery attempt keeps the invariant and never arms a countdown. |
| ProctoringFacts.ResizeCheckOk | hooks/use-exam-proctor.ts:292-300 | The post-debounce fullscreen check keeps the step guarantees. |
| ProctoringFacts.CanonicalResizeChecksOk | hooks/use-exam-proctor.ts:292-305 | The fullscreen check followed by the devtools check keeps the step guarantees. |
| ProctoringFacts.ResizeOk | hooks/use-exam-proctor.ts:282-306 | The resize listener keeps the step guarantees in every variant. |
| ProctoringFacts.SetEnabledOk | hooks/use-exam-proctor.ts:341-370 | Changing the enable option (teardown, mount, sync) keeps the step guarantees. |
| ProctoringFacts.VisibilityOk | hooks/use-exam-proctor.ts:244-256 | The visibility listener keeps the step guarantees. |
| ProctoringFacts.BlurOk | hooks/use-exam-proctor.ts:263-269 | The blur listener keeps the step guarantees. |
| ProctoringFacts.FullscreenChangeOk | hooks/use-exam-proctor.ts:271-280 | The fullscreenchange listener keeps the step guarantees. |
| ProctoringFacts.DevToolsPollOk | hooks/use-exam-proctor.ts:319-325 | The devtools poll keeps the step guarantees. |
| ProctoringFacts.FlagEventOk | hooks/use-exam-proctor.ts:179-199 | The focus, input-focus, lock-release and unmount events keep the step guarantees. |
| ProctoringFacts.StepIsOk | hooks/use-exam-proctor.ts:169-370 | Every event keeps the invariant. It arms a countdown only by opening an episode, never moves a running countdown's anchor, and emits an expiry only from a running countdown, which it stops. |
| ProctoringFacts.StepPreservesInv | hooks/use-exam-proctor.ts:169-370 | Every event preserves the invariant: the interval runs only inside an open episode and while attached, and the anchor is set iff the interval runs. |
| ProctoringFacts.RunPreservesInv | hooks/use-exam-proctor.ts:169-370 | Every sequence of events preserves the invariant. |
| ProctoringFacts.ArmingOpensEpisode | hooks/use-exam-proctor.ts:126-130 | A countdown starts only when an episode opens, from 10 seconds and with an anchor. |
| ProctoringFacts.AnchorNeverMoves | hooks/use-exam-proctor.ts:92-98 | While a countdown runs, no event restarts it or moves its anchor. |
| ProctoringFacts.ExpiryDisarms | hooks/use-exam-proctor.ts:103-111 | A timeout or redirect comes only from a running countdown, and stops it. |
| ProctoringFacts.ExpiriesBoundedByEpisodes | hooks/use-exam-proctor.ts:103-131 | Over any event sequence, expiries plus a still-running countdown are at most the episodes opened plus a countdown that was running at the start. |
| ProctoringFacts.TimeoutAtMostOncePerEpisode | hooks/use-exam-proctor.ts:103-131 | From a freshly mounted monitor, the timeout callback or redirect fires at most once per violation episode. |
| ProctoringFacts.DetachedStepStaysDetached | hooks/use-exam-proctor.ts:341-361 | A detached monitor stays detached and silent under every event except a change of the enable option. |
| ProctoringFacts.NoExpiryWhileDetached | hooks/use-exam-proctor.ts:341-361 | After teardown, and until the enable option changes, no timeout or redirect can fire. |
| ProctoringFacts.TeardownCancelsSilently | hooks/use-exam-proctor.ts:341-361 | Unmount fires nothing. It stops the countdown, the listeners and the poll, and keeps the episode flag. |
| ProctoringFacts.TriggerWhileShowingIsNoop | hooks/use-exam-proctor.ts:126-130 | A trigger during an open episode changes nothing, so the countdown is neither restarted nor re-anchored. |
| ProctoringFacts.TriggerDisabledOrSuppressedIsNoop | hooks/use-exam-proctor.ts:120-131 | In the canonical hook, a disabled monitor, or a focused text input on mobile, makes a trigger a no-op. |
| ProctoringFacts.TriggerOpensFreshCountdown | hooks/use-exam-proctor.ts:126-130 | A trigger either changes nothing or opens an episode with a 10-second countdown anchored at `now`, and touches nothing else. |
| ProctoringFacts.LessStrictTriggerOpensIff | hooks/less-strict.ts:101-107 | Less-strict hook: an episode opens iff none is open and the monitor is enabled. Otherwise nothing changes. |
| ProctoringFacts.PrototypeTriggerAlwaysOpens | src/app/test/page.tsx:100-107 | Prototype: with no enable flag, any trigger while idle opens an episode with a countdown anchored at `now`. |
| ProctoringFacts.RecoveryRequiresBoth | hooks/use-exam-proctor.ts:137-140 | Restoring only one of fullscreen and focus changes nothing. |
| ProctoringFacts.RecoveryGuards | hooks/use-exam-proctor.ts:134-135 | With no episode open, or with the lock held, recovery changes nothing. |
| ProctoringFacts.RecoveryCloses | hooks/use-exam-proctor.ts:140-150 | An episode closes iff it was open, the lock was free and the user recovered. Closing clears the countdown, resets it to 10, takes the lock and schedules the release in 150 ms. |
| ProctoringFacts.PrototypeRecoveryLock | src/app/test/page.tsx:109-133 | The lock taken by a recovery blocks a second recovery until the release runs. The release clears only the lock. |
| ProctoringFacts.ExpiryClosesEpisode | hooks/use-exam-proctor.ts:103-116 | Canonical and less-strict hooks: at expiry both branches stop the interval, hide the warning and show 0. The callback fires iff the user has not recovered. |
| ProctoringFacts.ExpiryCallbackOnlyIfNotRecovered | hooks/less-strict.ts:84-97 | Less-strict hook: the callback fires only from a running countdown with the warning up and the user not recovered. A silent expiry hides the warning. |
| ProctoringFacts.PrototypeExpiryRedirect | src/app/test/page.tsx:84-96 | Prototype: at expiry it redirects to `/cheating-detected` iff the user has not recovered and the warning still shows. The warning stays up exactly when it redirects. |
| ProctoringFacts.PrototypeTickIsAnchored | src/app/test/page.tsx:77-81 | Prototype: a tick that does not expire sets the countdown from the anchor alone. A later tick gives the same result as if the earlier tick had not happened, and never shows more time. |
| ProctoringFacts.FullscreenTolerance | hooks/use-exam-proctor.ts:72-78 | The fallback test accepts a viewport 4 px short of the screen and rejects one 5 px short. |
| ProctoringFacts.PrototypeFullscreenIgnoresFocus | hooks/less-strict.ts:48-62 | In the less-strict hook and the prototype, the fullscreen test never consults focus. It is exactly the fullscreen element or the 4 px size match. |
| ProctoringFacts.DetectDevToolsOpensIff | hooks/use-exam-proctor.ts:154-166 | The devtools check opens an episode iff the device is a desktop, a docked panel is detected, and the monitor is idle and enabled. On mobile, or with no panel, nothing changes. |
| ProctoringFacts.MobileResizeDebounce | hooks/use-exam-proctor.ts:282-290 | In the canonical hook on mobile, a resize within 300 ms of the previous one only records its time. |
| ProctoringFacts.LessStrictAlwaysTriggers | hooks/less-strict.ts:136-176 | Less-strict hook: blur, a hidden page, leaving fullscreen and a resize out of fullscreen all trigger, with no mobile suppression. |
| ProctoringFacts.BlockedKeyNeedsModifier | hooks/use-exam-proctor.ts:210-242 | A key is blocked only where the context menu is blocked, and only F12 or a key with a Ctrl/Cmd modifier. |
| ProctoringFacts.DevToolsChordsBlocked | hooks/use-exam-proctor.ts:213-241 | Wherever the context menu is blocked, F12, Ctrl/Cmd+Shift+I/J/C and Ctrl/Cmd+u are blocked too. |
| ProctoringFacts.UnmatchedChordsPassThrough | hooks/use-exam-proctor.ts:219-241 | The chords test Shift rather than Option/Alt, and match case-sensitively. Cmd+Option+I without Shift, Ctrl+Shift+U and Ctrl+Shift+i all pass. |
| ExamStore.SetUser | lib/store.ts:33 | Replaces the user and leaves the session alone. |
| ExamStore.InitSession | lib/store.ts:36-49 | Creates a fresh session: nothing answered, flagged, highlighted or noted, index 0, started at `now`, with `duration * 60` seconds remaining. |
| ExamStore.SetAnswer | lib/store.ts:50-59 | Without a session the store is unchanged. Otherwise the answer for the question is `answer`, the other answers and all other session fields are unchanged. |
| ExamStore.Toggled | lib/store.ts:63-68 | The given id's membership flips and every other id's membership is unchanged. |
| ExamStore.ToggleFlag | lib/store.ts:60-72 | Without a session the store is unchanged. Otherwise the question's flag flips, every other flag and every other field is unchanged. |
| ExamStore.Appended | lib/store.ts:76-78 | The question's highlight list is the previous list (empty if absent) followed by `text`. Other lists are unchanged. |
| ExamStore.AddHighlight | lib/store.ts:73-82 | Without a session the store is unchanged. Otherwise `text` is appended to the question's list, which starts empty, and everything else is unchanged. |
| ExamStore.SetNote | lib/store.ts:83-92 | Without a session the store is unchanged. Otherwise the question's note is `note` and everything else is unchanged. |
| ExamStore.SetCurrentQuestion | lib/store.ts:93-99 | Without a session the store is unchanged. Otherwise only the current index changes. |
| ExamStore.UpdateTimeRemaining | lib/store.ts:100-106 | Without a session the store is unchanged. Otherwise only the remaining time changes. |
| ExamStore.ClearSession | lib/store.ts:107 | The session is removed and the user kept. |
| ExamStore.ToggleFlagStep | lib/store.ts:60-72 | Copying the set and then deleting or adding the id gives the store `ToggleFlag` describes. |
| ExamStore.AddHighlightStep | lib/store.ts:73-82 | Copying the lists, creating an empty one if absent and pushing gives the store `AddHighlight` describes. |
| ExamStore.ToggleFlagInvolution | lib/store.ts:60-72 | Toggling the same flag twice restores the store. |
| ExamStore.ToggleFlagsCommute | lib/store.ts:60-72 | Toggling two flags gives the same store in either order. |
| ExamStore.HighlightsKeepOrder | lib/store.ts:73-82 | Two highlights added to a question end its list, in the order added. |
| ExamStore.SetAnswerLastWins | lib/store.ts:50-59 | Of two answers to one question the later wins, and writing the same answer again changes nothing. |
| ExamStore.UserAndSessionIndependent | lib/store.ts:33-107 | Setting the user and clearing the session commute. |
| ExamStore.ClearedStoreIgnoresActions | lib/store.ts:52-102 | After the session is cleared, every session action leaves the store unchanged. |
| TimerDisplay.JsRem | components/exam/timer-display.tsx:32-33 | JavaScript's `%`: the result has the sign of the dividend and its magnitude is the remainder of the magnitudes. |
| TimerDisplay.NatToString | components/exam/timer-display.tsx:34 | The decimal rendering is a non-empty string of digits, one character long iff the number is below 10. |
| TimerDisplay.PadStart2 | components/exam/timer-display.tsx:34 | `padStart(2, "0")` gives at least two characters. It ends with the original string, and every character added in front is `0`. |
| TimerDisplay.NatToStringRoundTrip | components/exam/timer-display.tsx:34 | The digits of a rendered number read back as that number. |
| TimerDisplay.TwoDigitField | components/exam/timer-display.tsx:34 | A minutes or seconds value below 60 is shown as exactly two digits that read back as the value. |
| TimerDisplay.FieldsDecompose | components/exam/timer-display.tsx:30-33 | For a non-negative time, minutes and seconds are below 60, and hours·3600 + minutes·60 + seconds is the time. |
| TimerDisplay.ClockFieldsRoundTrip | components/exam/timer-display.tsx:34 | The `H:MM:SS` template over in-range fields reads back as their value in seconds. |
| TimerDisplay.FormatTimeRoundTrip | components/exam/timer-display.tsx:30-35 | For every non-negative time, the `H:MM:SS` text of `formatTime` reads back as that number of seconds, so the rendering loses nothing. |
| TimerDisplay.LowTimeIffUnderFiveMinutes | components/exam/timer-display.tsx:37 | The low-time style applies exactly when the clock reads `0:0M:SS` with M below 5. |
| TimerDisplay.TickCallback | components/exam/timer-display.tsx:17-25 | Expiry is reported iff the time is at most 1. Otherwise the update is the time minus one, which is positive. |
| TimerDisplay.TimerInterval.constructor | components/exam/timer-display.tsx:16-17 | The effect registers an active interval for the current prop. |
| TimerDisplay.TimerInterval.Fire | components/exam/timer-display.tsx:17-25 | An active interval reports `TickCallback` of its prop, and a cleared one reports nothing. It stays active iff it reported an update. |
| TimerDisplay.TimerInterval.Clear | components/exam/timer-display.tsx:27 | The cleanup deactivates the interval. |
| TimerDisplay.CountdownShape | components/exam/timer-display.tsx:16-28 | With every update fed back as the new prop, the callbacks are `t-1, t-2, …, 1` and then one expiry, last. |
| AuthGate.Middleware | src/middleware.ts:4-23 | A token on a sign-in/sign-up path redirects to `/`. No token elsewhere redirects to `/signin`. Every other case passes, so it passes iff having a token differs from being on an auth route. |
| AuthGate.Route | src/middleware.ts:25-35 | Paths outside the matcher pass untouched, and paths inside it get the gate's answer. |
| AuthGate.AuthRouteIsPrefix | src/middleware.ts:9 | The auth-route test is a bare prefix test: `/signin…` and `/signup…` count, while `/sign`, `/` and `/exam` do not. |
| AuthGate.EmptyCookieIsAnonymous | src/middleware.ts:5-17 | An empty cookie value behaves as no cookie. |
| AuthGate.RedirectTargetsInScope | src/middleware.ts:34 | Both redirect targets, `/` and `/signin`, are inside the matcher. |
| AuthGate.NoRedirectLoop | src/middleware.ts:12-19 | Following a redirect with the same cookie is let through. |
| AuthGate.TokenDecidesSide | src/middleware.ts:12-22 | Inside the matcher, every path passes for exactly one of the signed-in and anonymous sides. |
| AuthGate.AssetPathsBypass | src/middleware.ts:34 | `/_next…`, `/api…`, `/images…` and `/favicon.ico` pass whatever the cookie. |
| AuthGate.ExclusionByPrefixOnly | src/middleware.ts:34 | The exclusion is a prefix test: `/apiary` and `/publications` bypass the gate anonymously, while `/exam` redirects to `/signin`. |
| ExamNavigation.ShouldShow | src/modules/exams/ui/navigation-popover.tsx:45-47 | False in both review views, and in a question view true iff that module is locked. |
| ExamNavigation.QuestionsFor | src/modules/exams/ui/navigation-popover.tsx:51-52 | Module A's questions iff the view is module A's questions, and module B's in every other view. |
| ExamNavigation.ReviewTarget | src/modules/exams/ui/navigation-popover.tsx:54-58 | Always a review view, and module A's review iff the current view is module A's questions. |
| ExamNavigation.Grid | src/modules/exams/ui/navigation-popover.tsx:106-114 | One button per question. The button at position i is keyed by the i-th id, shows i+1 and reports i. |
| ExamNavigation.ExamNavigator.constructor | src/modules/exams/ui/navigation-popover.tsx:67 | The popover starts closed, over the given view, index and locks. |
| ExamNavigation.ExamNavigator.SetOpen | src/modules/exams/ui/navigation-popover.tsx:67 | Sets the popover's `open` flag and nothing else. |
| ExamNavigation.ExamNavigator.GoToReview | src/modules/exams/ui/navigation-popover.tsx:54-58 | Shows the review, switches to the review view of the current module (A only from module A's questions), closes the popover and keeps the index. |
| ExamNavigation.ExamNavigator.QuestionClick | src/modules/exams/ui/navigation-popover.tsx:60-63 | Sets the current index and closes the popover. The view is unchanged. |
| ExamNavigation.PopoverIgnoresShouldShow | src/modules/exams/ui/navigation-popover.tsx:45-52 | With module A unlocked `shouldShow` is false, yet the popover lists every module A question. |
| ExamNavigation.ReviewAListsModuleB | src/modules/exams/ui/navigation-popover.tsx:51-56 | In module A's review the popover lists module B's questions and its review button opens module B's review. |
| ExamNavigation.ClickButton | src/modules/exams/ui/navigation-popover.tsx:106-113 | Clicking the button at position i makes i the current index, closes the popover and keeps the view. |
| ExamReview.AnsweredQuestions | src/modules/exams/ui/check-your-work.tsx:42 | Each question occurs as often as in the list if its answer is present and non-empty, and not at all otherwise. So its length is the number of answered questions. |
| ExamReview.UnansweredQuestions | src/modules/exams/ui/check-your-work.tsx:43 | Each question occurs as often as in the list if its answer is missing or empty, and not at all otherwise. |
| ExamReview.FlaggedQuestions | src/modules/exams/ui/check-your-work.tsx:44 | Each question occurs as often as in the list if its id is flagged, and not at all otherwise. |
| ExamReview.Grid | src/modules/exams/ui/check-your-work.tsx:98-127 | One button per question: keyed by id, showing i+1 and reporting i. It is styled answered iff the question is among the answered and marked iff among the flagged. |
| ExamReview.CheckYourWork | src/modules/exams/ui/check-your-work.tsx:42-173 | Back and Next are shown and no button is disabled. The buttons are the grid of the questions. The counts are exactly the numbers of answered, unanswered and flagged questions, and answered plus unanswered is the number of questions. |
| ExamReview.ReviewScreen | src/modules/exams/ui/review-screen.tsx:30-156 | Given the questions and the lock of the module under review (either module; the props are named `modelAQuestions` and `moduleALocked` by the component): the expiry message shows iff that module is locked. Every button is disabled iff it is locked, and Back shows iff it is not. The buttons are the grid of that module's questions, and the counts are exactly the numbers of answered, unanswered and flagged questions. |
| ExamReview.AnsweredPlusUnanswered | src/modules/exams/ui/check-your-work.tsx:42-43 | Every question is counted exactly once, as answered or as unanswered. |
| ExamReview.FlaggedCountIgnoresUnlisted | src/modules/exams/ui/check-your-work.tsx:44 | Flags on ids of questions not listed do not change the flagged list. |
| ExamReview.EmptyAnswerIsNoAnswer | src/modules/exams/ui/check-your-work.tsx:99 | An empty answer counts exactly as no answer. |
| ExamReview.UnlockedReviewMatchesCheckYourWork | src/modules/exams/ui/review-screen.tsx:30-156 | With the module under review unlocked, the review page shows exactly what check-your-work shows. |
| ExamReview.LockedReviewIsReadOnly | src/modules/exams/ui/review-screen.tsx:79-150 | With the module under review locked, the message shows, every button is disabled, Back is hidden and only Next leads on. The page otherwise shows what check-your-work shows. |

## Left out

- Rendering, styling and layout of every component. Only the values that decide what is shown (counts, enabled and disabled buttons, messages) are modelled.
- Server-side rendering guards (`typeof document === "undefined"` and similar). The browser is always present here.
- The user-agent regex of `isMobileDevice` (hooks/use-exam-proctor.ts:50-55). Its result is an input `uaMobile`.
- `requestFullscreen` on mount and `exitFullscreen` on cleanup. Both are asynchronous browser calls whose failures the source ignores. The readings after them arrive as later fullscreenchange events.
- The scheduling of `setTimeout` and `setInterval`. Delays are returned as signals, and the delayed calls are separate events, so their interleaving with other events is arbitrary in the event sequences of the lemmas.
- React's state setters and render order. `showWarning` mirrors `showingRef` in all three copies, so only the ref is kept, and the `isInFullscreen`/`hasFocus` state is a field updated where the source calls its setter.
- Teardown does not cancel pending `setTimeout` recoveries or the lock release, and leaves `showingRef` as it was. The model keeps both behaviours.
- The comments on the keydown listener name Cmd+Option+I/J/C, but the code tests Shift. The model follows the code (`UnmatchedChordsPassThrough`).
- The `onViolationTimeout` callback and `router.push` are not run. They are the `ViolationTimeout` and `Redirect` signals.
- `console.log` calls are not modelled.
- Timer values are whole seconds. Fractional times and the floating point of JavaScript numbers are not modelled.
- TimerDisplay.FormatTimeRoundTrip: stated for non-negative times only. For negative times `formatTime` renders minus signs that the `H:MM:SS` reader rejects.
- ExamStore.AddHighlight: the source pushes onto the list shared with the previous snapshot (aliasing). The model uses value semantics, so an old snapshot keeps its list. An id that names a member of `Object.prototype` (such as `constructor` or `toString`) and has no list of its own makes the source's `push` throw a TypeError and leaves the store unchanged; the model treats such an id as a fresh key and appends.
- ExamStore.Appended: an id naming a member of `Object.prototype` without a list of its own makes the source throw; the model treats it as a fresh key with an empty list.
- ExamStore.AddHighlightStep: the same `Object.prototype` ids, which make the source throw, are treated as fresh keys.
- `Date.now()` in `initSession` is the parameter `now`.
- Only the fields of the API's user record that the store is used with are kept. The rest of lib/api.ts, and all network calls, are not part of this model.
- Which modules are locked is decided by the exam page's clock, which is not part of this model. The locks are inputs.
- Only the matcher pattern's prefix exclusions are modelled, not general path-to-regexp matching. `NextResponse` URLs are reduced to their path.
