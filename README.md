# MindfulX in Dafny

MindfulX is a browser extension that stands between the user and X
(twitter.com). A top-level visit to one of the five monitored hosts is
deferred: the tab goes to an intervention page, which asks what the visit
is for and for how long (1 to 120 minutes), or offers an alternative
activity. Once the user commits, a session starts, and the tab goes on to
the deferred address. The service worker keeps two records: the active
session and the deferred ("pending") navigation of each tab. It also keeps
one expiry alarm. Pages on the monitored site show a countdown overlay and,
when the time is up, a modal that offers to close the site or to ask for
another session.

This project models the three parts of the extension that hold that logic,
and proves what they promise:

- `background.dfy`, module `Background`: the service worker as the class
  `ServiceWorker`.
  - Its fields are the two stored records, the alarm slot, and the logs it
    produces: tab redirects, tab closures and messages to tabs.
  - Each event listener and message handler is a method.
  - The router turns what a handler resolves or throws into
    `{ok, result}` / `{ok: false, error}`.
  - Duplicate-free tab lists and the tab-closing sweep are pure functions
    and a loop.
- `intervention.dfy`, module `Intervention`: the intervention page as the
  class `InterventionPage`.
  - It covers the submit form, the six activity panels (at most one open at
    a time), and the stretch and hydration countdowns driven by interval
    ticks.
  - The formatters `formatCountdown`, `formatSeconds` and `escapeHtml` are
    pure functions.
- `timer.dfy`, module `Timer`: the overlay as the class `TimerOverlay`.
  - It tracks the session shown, the interval, the overlay and the modal,
    driven by `setSession`, `clearSession`, `updateOverlay` and the
    listeners.
  - `statusForMs`, `formatDuration` and `sendMessageSafe` are pure
    functions.
- `decimal.dfy`, module `Decimal`: `String(n)` and `padStart(2, "0")`, and
  the "MM:SS" text both pages use, with a read-back function that proves the
  text shows the intended number.
- `wrappers.dfy`, module `Wrappers`: `Option`, `Max`, `Min`.
- `scenarios.dfy`, module `Scenarios`: end-to-end flows across the three
  parts, each a method whose postconditions state what the user sees. They
  cover:
  - deferring a visit and then starting a session;
  - a session expiring when the tab navigates after its end;
  - ending a session twice;
  - asking for more time pre-filling the old purpose;
  - the overlay reacting to the alarm;
  - the stretch sequence taking 123 ticks and the hydration countdown 121.

## How the model works

- Browser calls (storage, alarms, tab updates, removals and messages) become
  fields and logs. `Date.now()` is a `now` parameter.
- The answer to a `chrome.tabs.query` is a parameter, a sequence of optional
  tab ids. A query that fails counts as one that matched nothing, which is
  all the code does with that failure.
- A page's `chrome.runtime.sendMessage` result is a parameter:
  `SendResult`, which holds either the worker's `Response` or the error the
  call threw.
- An interval firing is a call of the tick method. `render()` keeps only
  its timer bookkeeping, which `RenderedFrom` states.
- The monitored-host check takes the host as a string: the `host` of the
  parsed URL.
- Sessions hold whole minutes. An input field that is not a number is
  `None`.
- The overlay stores the time left it last drew. Its `data-state` and its
  text are functions of that number (`OverlayState`, `RemainingText`).
- The alarm callback expires the stored session without comparing the
  current time with its `endTime` (background.js:59-75). Nothing in the code
  rules out an expiry before `endTime`. The model keeps the code's
  behaviour: `OnAlarm` flips the status unconditionally. Because the browser
  fires a session alarm once, firing it empties the alarm slot. The code
  never compares `endTime` at that point, and the model does not either.

## Model

| member | source | states |
|---|---|---|
| Background.Qualifies | background.js:1 | A navigation counts only for frame 0 and a host equal to one of the five monitored hosts |
| Background.ExactHostsOnly | background.js:203-211 | Each of the five hosts (x.com, www.x.com, mobile.x.com, twitter.com, www.twitter.com) qualifies; other subdomains, look-alike hosts and sub-frames do not (no suffix match) |
| Background.AddTab | background.js:172-175 | The tab is a member afterwards, the old list is a prefix, a present tab changes nothing, and no duplicate appears |
| Background.Without | background.js:89-93 | The tab is gone, every other tab stays, a missing tab means no change, and the list stays duplicate-free |
| Background.WithoutKeepsOrder | background.js:89 | Filtering a tab out keeps every other pair of tabs in their order |
| Background.WithoutIdempotent | background.js:77-94 | Removing the same tab twice is the same as removing it once |
| Background.Broadcast | background.js:331-342 | One message per tab id, in order, each carrying the same message |
| Background.Unseen | background.js:315-322 | The queried tabs that have an id and were not already seen, exactly |
| Background.UnseenDistinct | background.js:304-322 | Skipping seen tabs removes each distinct queried id at most once |
| Background.CloseBlockedTabs | background.js:303-329 | Removes the preferred tabs, then the unseen queried ones; no tab is removed twice when the inputs are duplicate-free |
| Background.Wrap | background.js:49-54 | A resolved handler gives `ok: true` with its value; a throw gives `ok: false` with its message, or "Unknown error" when that is empty |
| Background.ServiceWorker.constructor | background.js:247-252 | A fresh worker holds no session, no pending navigation and no alarm |
| Background.ServiceWorker.NotifyTabs | background.js:331-342 | Each listed tab receives the message, in order |
| Background.ServiceWorker.FocusAndNavigate | background.js:273-279 | One tab update to the given destination is logged |
| Background.ServiceWorker.CreateSessionAlarm | background.js:268-271 | The alarm slot holds exactly the new time |
| Background.ServiceWorker.RedirectToIntervention | background.js:236-245 | The tab's pending entry is replaced by the new address and time, other entries stay, and the tab goes to the intervention page |
| Background.ServiceWorker.HandleNavigation | background.js:203-234 | Non-qualifying events change nothing. With no session, the navigation is deferred and redirected. Past its end, the session is expired, its tabs are told, and the navigation is deferred. Otherwise the tab joins the session without a duplicate |
| Background.ServiceWorker.OnAlarm | background.js:59-75 | Another alarm changes nothing. The session alarm flips a stored session to expired, leaves its other fields as they were, and tells its tabs; with no session it only empties the slot |
| Background.ServiceWorker.OnTabRemoved | background.js:77-94 | The tab's pending entry is deleted and the tab is filtered out of the session, which is never ended, even with no tab left |
| Background.ServiceWorker.EndSession | background.js:281-301 | With no session only the optional sweep happens. Otherwise the alarm and the session are cleared, tabs are optionally closed once each, and the former tabs are told the reason |
| Background.ServiceWorker.HandleInterventionReady | background.js:97-106 | Returns the activities, the caller's pending entry (if any) and the stored session |
| Background.ServiceWorker.HandleStartSession | background.js:107-143 | "Missing tab context" and "No pending navigation found" change nothing. Success stores an active session for `minutes` minutes that only this tab may use, with the deferred address; it sets the alarm to its end, consumes only this tab's entry, and redirects the tab. A session of 1 to 120 minutes ends between one minute and 120 minutes after `createdAt` |
| Background.ServiceWorker.HandleCancelNavigation | background.js:144-157 | Without a tab it throws and changes nothing; otherwise it deletes the tab's entry and closes the tab |
| Background.ServiceWorker.HandleGetSession | background.js:158-160 | Returns the stored session and changes nothing |
| Background.ServiceWorker.HandleRegisterTab | background.js:161-178 | Without a tab or a session it returns null and changes nothing; otherwise the tab joins the session at most once and the session is returned |
| Background.ServiceWorker.HandleCloseSession | background.js:179-181 | Ends the session with reason "user", closing its tabs and the other monitored tabs |
| Background.ServiceWorker.HandleRequestExtension | background.js:182-200 | "No active session to extend" without a session or tab, changing nothing. Otherwise the session is ended without closing tabs, and the tab's pending entry holds the old address, the current time and the old purpose; the tab is sent to the intervention page |
| Background.ServiceWorker.Route | background.js:43-57 | An unknown kind gets no response; a failure changes nothing and carries one of the three error texts; each kind succeeds exactly when its handler's conditions hold; on success the reply is `ok: true` with the handler's value, and the records and logs are exactly what that handler leaves |
| Decimal.Show | intervention/intervention.js:1058 | `String(n)`: digits only, a leading zero only for zero, one digit exactly below ten |
| Decimal.ValueOfShow | intervention/intervention.js:1058 | The digits of `String(n)` read back as `n` |
| Decimal.PadTwo | intervention/intervention.js:1058 | `padStart(2, "0")`: at least two characters, the original text at the end, zeros in front |
| Decimal.ValueOfPadded | intervention/intervention.js:1058 | Padding keeps the value and gives exactly two digits below 100 |
| Decimal.ClockShape | content/timer.js:169-174 | The clock text is the padded minutes, a colon and the two padded seconds digits; the minutes field is as wide as `String(minutes)` but at least two, so below 100 minutes the text has five characters |
| Decimal.ClockFields | content/timer.js:171-174 | Both fields are digits; the minutes field reads as the total divided by 60 and the seconds field as the remainder, below 60; the whole text reads back as the total |
| Decimal.ClockOfZero | intervention/intervention.js:1054-1059 | Zero seconds is shown as "00:00" |
| Intervention.CanSubmit | intervention/intervention.js:395-404 | The form may be sent only with a purpose and a numeric minutes value from 1 to 120 |
| Intervention.HydrateBenefitIndex | intervention/intervention.js:1039-1042 | The benefit index lies in [0, 3] for any count in [0, 120], is 0 at the start and 3 at zero or below |
| Intervention.BenefitIndexMonotone | intervention/intervention.js:1039-1042 | As the count goes down, the benefit index never decreases |
| Intervention.FormatCountdown | intervention/intervention.js:1054-1059 | Negative input is clamped to 0; the minutes field is the value divided by 60, as wide as its `String` form but at least two, and the two-digit seconds field the value mod 60; five characters below 100 minutes; "00:00" for input at or below zero |
| Intervention.FormatSeconds | intervention/intervention.js:1049-1052 | Decimal digits that read back as the number of seconds (zero when not positive), followed by "s"; the digits start with 0 only for "0s", which is the result for input at or below zero |
| Intervention.Entity | intervention/intervention.js:541-547 | Each special character's entity starts with `&`, ends with `;`, and holds no markup character |
| Intervention.RunLength | intervention/intervention.js:540 | The length of the leading run of special characters that the pattern matches at once |
| Intervention.EscapeHtml | intervention/intervention.js:539-550 | No `<`, `>`, `"` or `'` is left in the output, and text without special characters comes back unchanged |
| Intervention.EscapeEach | intervention/intervention.js:541-547 | The table applied one character at a time leaves no markup character |
| Intervention.EscapeIsolated | intervention/intervention.js:539-550 | When no two special characters are adjacent, `escapeHtml` equals the character-by-character table |
| Intervention.EscapePlainPrefix | intervention/intervention.js:540-549 | Text without special characters is copied in front of the escaping of whatever follows it |
| Intervention.RunLengthOfRun | intervention/intervention.js:540-549 | The pattern matches a whole run of special characters, up to the first ordinary character |
| Intervention.EscapeRun | intervention/intervention.js:540-549 | Any run of two or more special characters between ordinary text becomes the text "undefined", and the text around it is escaped on its own |
| Intervention.EscapeRunQuirk | intervention/intervention.js:540-549 | Two adjacent special characters come out as the text "undefined" |
| Intervention.StretchSynced | intervention/intervention.js:874-893 | A timer runs exactly when the panel is open and not completed; the panel invariant is kept; a running timer or a positive count keeps the count |
| Intervention.HydrateSynced | intervention/intervention.js:960-975 | A timer runs exactly when the panel is open and either one ran already or there is time left; nothing else changes |
| Intervention.SyncIdempotent | intervention/intervention.js:171-172 | Rendering twice leaves the timers as rendering once |
| Intervention.StartError | intervention/intervention.js:406-424 | A start fails exactly when the answer is not `ok`; the worker's error text is shown when given, otherwise "Unable to start session"; an unanswered request shows the TypeError text; a throw shows its message, or "Something went wrong. Please try again." when that is empty; a failure never shows an empty message |
| Intervention.InterventionPage.constructor | intervention/intervention.js:55-90 | The initial page: no pending navigation, empty form, closed panels |
| Intervention.InterventionPage.Init | intervention/intervention.js:97-107 | Sends `intervention-ready`, stores the pending navigation it returns, and pre-fills the purpose of a previous session |
| Intervention.InterventionPage.Render | intervention/intervention.js:109-175 | With a pending navigation both timers are synchronised; the empty state leaves them |
| Intervention.InterventionPage.SyncStretchTimer | intervention/intervention.js:874-893 | The stretch panel becomes its synchronised form and keeps its invariant |
| Intervention.InterventionPage.StretchTick | intervention/intervention.js:900-929 | A closed or completed panel only stops the timer. A positive count goes down by exactly 1. At zero the next step starts with its full duration. After the last step the panel is completed at zero with the timer stopped. Step and count stay in range |
| Intervention.InterventionPage.StartStretchTimer | intervention/intervention.js:895-930 | The stretch interval is registered, and a running one is kept; the panel is otherwise unchanged |
| Intervention.InterventionPage.StopStretchTimer | intervention/intervention.js:932-937 | The stretch interval is cleared; the panel is otherwise unchanged |
| Intervention.InterventionPage.CloseStretchPanel | intervention/intervention.js:939-945 | The panel is closed at step 0 with count 0, not completed, with no timer |
| Intervention.InterventionPage.RestartStretchSequence | intervention/intervention.js:947-958 | An open panel restarts at step 0 with its full duration and the other panels kept; a closed one is opened as by the show function, with the hydration, music and walk panels reset |
| Intervention.InterventionPage.SyncHydrateTimer | intervention/intervention.js:960-975 | The hydration panel becomes its synchronised form |
| Intervention.InterventionPage.UpdateHydrateBenefit | intervention/intervention.js:1029-1043 | On an open panel the index becomes the one for the elapsed time, or the last when forced; a closed panel is left alone |
| Intervention.InterventionPage.HydrateTick | intervention/intervention.js:977-1000 | A closed panel only stops. A positive count goes down by one, with the benefit for the new count. At zero the timer stops with the last benefit. The count never goes negative |
| Intervention.InterventionPage.StartHydrateTimer | intervention/intervention.js:977-1000 | The hydration interval is registered, and a running one is kept; the panel is otherwise unchanged |
| Intervention.InterventionPage.StopHydrateTimer | intervention/intervention.js:1002-1007 | The hydration interval is cleared; the panel is otherwise unchanged |
| Intervention.InterventionPage.CloseHydratePanel | intervention/intervention.js:1009-1014 | The panel is closed with the full 120 seconds, benefit 0, and no timer |
| Intervention.InterventionPage.RestartHydrateTimer | intervention/intervention.js:1016-1027 | The panel is open with the full 120 seconds and benefit 0, its timer running when a navigation is pending; an open panel keeps the other panels, a closed one is opened as by the show function, with the stretch, music and walk panels reset |
| Intervention.InterventionPage.CloseCallPanel | intervention/intervention.js:1045-1047 | The call panel is closed |
| Intervention.InterventionPage.ShowMusicPanel | intervention/intervention.js:576-586 | Exactly the music panel is open, not playing, and the other panels are in their closed state |
| Intervention.InterventionPage.ShowWalkPanel | intervention/intervention.js:588-598 | Exactly the walk panel is open with its copy status reset, and the others are closed |
| Intervention.InterventionPage.ShowBreathingPanel | intervention/intervention.js:600-609 | Exactly the breathing panel is open; the walk panel's copy status is kept |
| Intervention.InterventionPage.ShowStretchPanel | intervention/intervention.js:611-625 | Exactly the stretch panel is open at step 0 with the full duration, its timer running when a navigation is pending |
| Intervention.InterventionPage.ShowHydratePanel | intervention/intervention.js:627-640 | Exactly the hydration panel is open with 120 seconds and benefit 0, its timer running when a navigation is pending |
| Intervention.InterventionPage.ShowCallPanel | intervention/intervention.js:642-652 | Exactly the call panel is open, and the timed panels are closed |
| Intervention.InterventionPage.HandleSubmit | intervention/intervention.js:394-425 | While loading, nothing changes. An invalid form only sets the validation message and sends nothing. Otherwise `start-session` is sent with the purpose and the minutes, and a failed start clears `loading` and shows its error |
| Intervention.InterventionPage.HandleClose | intervention/intervention.js:427-432 | The timed and call panels are closed and `cancel-navigation` is sent |
| Timer.StatusForMs | content/timer.js:158-167 | Critical exactly at or below 120000 ms; warning exactly in (120000, 300000]; ok exactly above |
| Timer.StatusMonotone | content/timer.js:158-167 | Less time left never gives a less severe status |
| Timer.FormatDuration | content/timer.js:169-174 | The text reads back as `max(0, floor(ms/1000))` seconds; its minutes field is that divided by 60, as wide as its `String` form but at least two, and its two-digit seconds field that mod 60; five characters below 100 minutes; below one second it shows "00:00" |
| Timer.SendMessageSafe | content/timer.js:291-302 | Null exactly when the send throws or the answer has `ok: false`; otherwise the answer itself |
| Timer.SessionOf | content/timer.js:25-31 | A session is found exactly when the answer is `ok` with a session in it |
| Timer.FailedSendHasNoSession | content/timer.js:25-31 | A thrown, refused or missing answer yields no session |
| Timer.TimerOverlay.OverlayState | content/timer.js:106 | A freshly built overlay is in the "ok" state |
| Timer.TimerOverlay.RemainingText | content/timer.js:120 | A freshly built overlay shows "--:--"; afterwards its text reads back as the whole seconds last drawn |
| Timer.TimerOverlay.constructor | content/timer.js:1-13 | No session, overlay, interval or modal |
| Timer.TimerOverlay.Bootstrap | content/timer.js:24-35 | Sends `register-tab`, falls back to `get-session` when that yields no session, and shows whichever session it got; with neither, the display and the modal stay as they were; the modal's buttons are never touched |
| Timer.TimerOverlay.SetSession | content/timer.js:61-78 | A missing or ended session clears the display. Otherwise the overlay and interval exist and the time left is drawn, and the modal is visible exactly when the status is expired or `now >= endTime` |
| Timer.TimerOverlay.ClearSession | content/timer.js:80-88 | No session, no interval, no overlay, and the modal hidden |
| Timer.TimerOverlay.RestartInterval | content/timer.js:90-97 | An interval is running |
| Timer.TimerOverlay.EnsureOverlay | content/timer.js:99-128 | The overlay exists; a new one is in its initial state and an existing one is kept |
| Timer.TimerOverlay.RemoveOverlay | content/timer.js:130-136 | The overlay is gone |
| Timer.TimerOverlay.UpdateOverlay | content/timer.js:138-156 | Nothing without a session or overlay. Otherwise `max(0, endTime - now)` is drawn; the first time it reaches zero the session is re-set as expired and the modal is shown |
| Timer.TimerOverlay.ShowExpiryModal | content/timer.js:233-258 | The modal is built and visible |
| Timer.TimerOverlay.HideExpiryModal | content/timer.js:260-268 | A built modal is hidden when forced or when the session is live and not expired; otherwise it stays as it was |
| Timer.TimerOverlay.OnMessage | content/timer.js:37-45 | `session-expired` sets the session with status expired; `session-ended` clears it and leaves the modal built |
| Timer.TimerOverlay.OnStorageChanged | content/timer.js:47-58 | Only a change to the local session record counts; a new value is set and a removed one is cleared, with the modal left built |
| Timer.TimerOverlay.HandleModalAction | content/timer.js:270-289 | The buttons are disabled, `close-session` or `request-extension` is sent, and the display is cleared |
| Scenarios.DeferThenStart | background.js:107-143 | A deferred first visit followed by a ten-minute start gives the expected session. The tab is redirected to the page, then to the site, and no pending entry is left |
| Scenarios.ExpiryByNavigation | background.js:203-234 | A second tab joins once despite repeated visits, a sub-frame is ignored, and a visit after the end expires the session, tells both tabs and is deferred |
| Scenarios.EndTwice | background.js:281-301 | A second end sends nothing more and the session stays absent |
| Scenarios.ExtensionPrefillsPurpose | background.js:182-200 | After asking for more time, the fresh intervention page offers the old purpose |
| Scenarios.OverlayExpires | content/timer.js:37-45 | A registered tab shows the time left without the modal; the alarm's expiry notice brings the modal up |
| Scenarios.StretchToCompletion | intervention/intervention.js:900-929 | The stretch sequence completes after exactly 123 ticks, on the last step at zero with the timer stopped |
| Scenarios.HydrateToCompletion | intervention/intervention.js:977-1000 | The hydration countdown stops after exactly 121 ticks at zero with the last benefit |

## Left out

- Browser APIs are modelled as fields and logs. Storage reads and writes, alarms, `tabs.update`/`remove`/`query`/`sendMessage` and `runtime.getURL` are foreign calls. A failing tab update or message is caught and only logged by the code, so the model logs the attempt.
- Concurrency: each handler runs atomically, and the `Promise.all` in `start-session` and `notifyTabs` is sequential. Interleavings of handlers are not modelled.
- Background.ServiceWorker.Route: storage writes (`chrome.storage.local.set`) and alarm calls never reject here. In the code, such a rejection inside a handler becomes `{ok: false, error: <its message>}`. Route's promise that a failure carries one of the three handler error texts holds only because of this.
- A failing `tabs.remove` in `cancel-navigation` would make the handler throw its message. The model treats the removal as always succeeding.
- URL parsing (`new URL`) and the `hostSuffix` event filter: the host arrives as a string.
- The storage fallbacks (`|| []`, `|| {}`) for records that are missing or malformed: the records are always well-formed here.
- Message payloads are typed. A missing payload, a non-numeric or fractional `minutes` reaching the worker, and kinds matching prototype keys of the handler table are not modelled.
- The DOM and its templating: the progress bars (float ratios), music playback, the walk panel's clipboard, `chrome.tabs.create`, `launchActivity`, `updateSubmitState`, the modal's purpose text (`trim`) and its fixed copy.
- A rejected `intervention-ready` send makes `init` fail into an error screen. `Init` takes the worker's response.
- `escapeHtml` on `null`/`undefined` input, which becomes "": strings here are never null.
- Console logging.
- `scripts/generate-icons.js`: float geometry and file I/O.
- Intervention.InterventionPage.StretchTick: requires a running timer, as only the registered interval calls the tick.
- Intervention.InterventionPage.HydrateTick: requires a running timer, for the same reason.
