# Social proof notification — verified model of the lifecycle core

SocialProofNotification shows a transient "N people did X recently" popup in a
web page. This project models, in Dafny, the logic under the widget's markup:

- **Configuration** (`Settings`): the defaults and the `{ ...defaults, ...options }`
  merge done by the constructor.
- **Throttle gate** (`Throttle`): `shouldShowNotification`, deciding from the
  persisted last-shown time whether a notification may be scheduled, and the
  stamp `show` writes after a display.
- **Content resolver** (`Content`, with `Text`): `fetchNotificationData` and
  `generateRandomNotification`, i.e. the local list, the remote endpoint, or
  the generator that fills `{count}`, `{action}` and `{timeframe}` in the
  message template with JavaScript `String.replace` semantics (first
  occurrence only).
- **Display lifecycle** (`Lifecycle`): `init`, `show`, `hide`, its removal
  callback, the auto-close timer, the `mouseenter`/`mouseleave` handlers and
  `destroy`, as pure transition functions over an immutable `Session`.

Time is integer milliseconds. Timers are not run: arming one is recorded in
the session and its expiry is an explicit event. Random draws, the clock,
the fetch outcome and the storage's success or failure are parameters.

Behaviour of the code that the model keeps, and proves:

- A stored record that is present but does not parse closes the gate: the
  elapsed time is `NaN` and the comparison is false. A present but
  unparsable record therefore keeps notifications off; it does not fail open.
- `hide` cancels the auto-close timer at once, but `isVisible` stays true
  until the removal callback runs. In that window `show` is refused, `hide`
  can be called again (scheduling a second removal), and `mouseleave` can
  re-arm a timer.
- `show` and `mouseleave` overwrite the timer handle without cancelling the
  timer it held. A timer re-armed in the dismissal window therefore outlives
  its notification and can start dismissing the next one early
  (`StaleTimerClosesNextNotification`). A second pending removal can take
  down a notification shown in between (`SecondRemovalTakesNewNotification`).
  `hide` followed by `destroy` clears the tracked timer, but it does not
  clear timers whose handle was already lost. It also leaves two removals
  pending, because the `hide` inside `destroy` finds the notification still
  visible (`HideThenDestroy`). Since `destroy` also resets the display count,
  the second removal takes down a notification shown after the first
  (`DestroyedRemovalTakesNextNotification`).
- For `show` calls that do not overlap, `maxNotifications` bounds the
  counter `notificationsShown`, not the total, because `destroy` resets the
  counter. An instance that is never destroyed displays at most
  `maxNotifications` notifications (`DisplaysWithinCap`). One that is
  destroyed can display more (`DestroyReopensCap`). Overlapping calls are
  outside the model (see `Lifecycle.Show` under "Left out").

## Model

| member | source | states |
|---|---|---|
| Settings.Merge | social-proof-notification.js:99 | For each of the 18 keys, a supplied value wins and a missing key keeps its built-in default. So `{}` gives exactly the defaults, and options that supply every key give exactly what was supplied. |
| Throttle.Read | social-proof-notification.js:312 | A read succeeds exactly when the store is readable, and it then returns the stored record. |
| Throttle.MarkShown | social-proof-notification.js:500-507 | A working store afterwards reads back the current time. A failing write is swallowed and the store is unchanged. |
| Throttle.ShouldShow | social-proof-notification.js:308-324 | Open when persistence is off, when the record is missing or empty, and when the read throws. Closed for an unparsable record. Otherwise open iff the elapsed hours (now minus stamp, over 3,600,000 ms, as a real quotient) are at least `minTimeBetween`. |
| Throttle.GateStaysOpen | social-proof-notification.js:316-320 | For a fixed stored record, a gate open at one time is open at every later time. |
| Throttle.GateAfterMark | social-proof-notification.js:316-320 | Right after a stamp, the gate is open at the same instant iff `minTimeBetween <= 0`. It is open exactly `minTimeBetween` hours later (equality counts) and closed one millisecond before. |
| Text.ReplaceFirst | social-proof-notification.js:355 | `String.prototype.replace` with a string pattern. Its own contract: the string either comes back unchanged or has exactly one pattern traded for the replacement (by length). `ReplaceFirstAtFirst` and `ReplaceFirstNoOccurrence` pin the result down. |
| Text.ReplaceFirstAtFirst | social-proof-notification.js:358-361 | `replace` with a string pattern substitutes at the least index where the pattern occurs, and only there. |
| Text.ReplaceFirstNoOccurrence | social-proof-notification.js:358-361 | When the pattern does not occur, `replace` returns the string unchanged. |
| Text.ReplaceFirstAfterPrefix | social-proof-notification.js:355 | If the text before a pattern cannot begin an occurrence, the replacement lands exactly at that pattern. |
| Text.NatToDecimal | social-proof-notification.js:354-355 | `toString` of a non-negative integer below 10^21 is a non-empty run of decimal digits with no leading zero; the generator only converts 2 to 9. It is a single digit exactly for numbers below 10. |
| Text.DecimalRoundTrip | social-proof-notification.js:354-355 | Reading back the digits `toString` wrote gives the original number. |
| Content.ExpandTimeframe | social-proof-notification.js:353-356 | A timeframe without `X` is unchanged. Otherwise its first `X` is replaced by the decimal form of an integer in [2, 9] and the rest stays in place. |
| Content.TimeframeExpansion | social-proof-notification.js:88-93 | Every vocabulary timeframe, once expanded, has no `X`, `{` or `}`. The number stands where the `X` stood ("N minutes ago", "in the last N hours"), and the other timeframes are unchanged. |
| Content.ActionIsPlain | social-proof-notification.js:77-86 | No action phrase contains `{`, `}` or `X`. |
| Content.CountIsPlain | social-proof-notification.js:95 | No count word contains `{`, `}` or `X`. |
| Content.Interpolate | social-proof-notification.js:358-361 | The chained replaces of `{count}`, `{action}` and `{timeframe}`. A template without any `{` has nothing to fill and comes out unchanged. |
| Content.NothingToInterpolate | social-proof-notification.js:358-361 | None of the three replaces touches a template that has no `{`, whatever the words are. |
| Content.InterpolateInOrder | social-proof-notification.js:358-361 | For a template holding `{count}`, `{action}` and `{timeframe}` in that order, with no earlier `{` to confuse the search, each placeholder is replaced by its word. |
| Content.DefaultInterpolation | social-proof-notification.js:36 | The default template yields "<count> people <action> <timeframe>!". |
| Content.Generate | social-proof-notification.js:348-366 | A generated payload always carries the timestamp "Just now". A template without any `{` is returned as the message unchanged. |
| Content.DefaultTemplateMessage | social-proof-notification.js:358-361 | With the default template, the message is the count, " people ", the action, a space, the expanded timeframe and "!". It contains no `{`, `}` or `X`. |
| Content.Resolve | social-proof-notification.js:326-346 | Local mode with a non-empty list gives an element of the list. Remote mode with a non-empty URL and a successful fetch gives the fetched body. Every other case, a failed fetch included, gives a payload the generator can produce from the configured template. |
| Content.EmptyLocalListGenerates | social-proof-notification.js:327-331 | Local mode with an empty list and the default template gives a payload timestamped "Just now" whose message has no braces. |
| Content.FetchFailureFallsBack | social-proof-notification.js:334-342 | A failed fetch is never surfaced: the payload is the generated one. |
| Lifecycle.Initial | social-proof-notification.js:100-104 | A fresh instance: count 0, nothing attached, not visible, no timers or pending callbacks, over the given store. It satisfies the invariant under every configuration. |
| Lifecycle.Init | social-proof-notification.js:109-117 | `init` schedules exactly one delayed show when the gate is open. When the gate is closed nothing changes. |
| Lifecycle.Show | social-proof-notification.js:488-513 | A refused show (cap reached or already visible) changes nothing, the store included. An admitted one does the following and nothing else: attaches the content, sets visible, counts exactly one more display, stamps the store iff `saveToStorage`, and arms a full auto-close timer iff `autoClose`. A handle it overwrites becomes a stray timer. |
| Lifecycle.Hide | social-proof-notification.js:515-540 | `hide` is a no-op unless a notification is attached and visible. Otherwise it cancels the tracked timer immediately and schedules one removal. The notification stays attached and visible. |
| Lifecycle.CompleteRemoval | social-proof-notification.js:528-534 | The removal callback detaches the notification and clears `visible`, consuming one pending removal. It changes nothing else. |
| Lifecycle.FireAutoClose | social-proof-notification.js:511 | When the tracked timer expires it is gone. An attached, visible notification gets one more pending removal but stays attached and visible. Nothing else changes. Without a live timer nothing happens. |
| Lifecycle.FireStrayTimer | social-proof-notification.js:480 | A timer whose handle was overwritten still fires: one stray timer fewer. If a notification is attached and visible, whichever notification the timer was armed for, its own tracked timer is cancelled and one removal is scheduled. Otherwise the timer and the removals are unchanged. Attachment, visibility, the count and the store never change. |
| Lifecycle.MouseEnter | social-proof-notification.js:472-476 | With `pauseOnHover` and an attached notification, `mouseenter` cancels the tracked timer and changes nothing else. Otherwise it has no effect. |
| Lifecycle.MouseLeave | social-proof-notification.js:478-482 | `mouseleave` arms a fresh timer due a full `autoCloseTimeout` after the event iff `autoClose` and the notification is visible. A live handle it overwrites becomes a stray timer, and nothing else changes. |
| Lifecycle.Destroy | social-proof-notification.js:542-545 | The display count becomes zero. The notification stays attached and visible, and stray timers, scheduled shows and the store are untouched. An attached, visible notification loses its tracked timer and gets one more pending removal. Otherwise only the count changes. |
| Lifecycle.Step | social-proof-notification.js:488-545 | Dispatches a call, a timer expiry or a hover event to its handler. The display count grows by one exactly on the step that makes the instance visible, is reset by `destroy`, and is otherwise unchanged. |
| Lifecycle.StepPreservesInvariant | social-proof-notification.js:494-498 | Every event keeps "attached iff visible" and keeps the display count within `maxNotifications`. |
| Lifecycle.RunPreservesInvariant | social-proof-notification.js:489-498 | The invariant holds after any finite sequence of events. |
| Lifecycle.NeverExceedsCap | social-proof-notification.js:489 | For `show` calls that do not overlap: starting fresh with a non-negative cap, the display counter `notificationsShown` never exceeds `maxNotifications`, in whatever order the events come. |
| Lifecycle.CounterCountsDisplays | social-proof-notification.js:497-498 | In a run without `destroy`, the counter grows by exactly the number of notifications displayed. |
| Lifecycle.DisplaysWithinCap | social-proof-notification.js:489 | For `show` calls that do not overlap: a fresh instance that is never destroyed displays at most `maxNotifications` notifications in all. |
| Lifecycle.DestroyReopensCap | social-proof-notification.js:542-545 | Under the defaults (cap 1): show, hide, removal, `destroy`, show displays two notifications. |
| Lifecycle.ShowTwiceIsIdempotent | social-proof-notification.js:489-490 | A show that starts after an earlier show has completed, with nothing in between, has no effect, whatever its content and time. |
| Lifecycle.VisibilityChanges | social-proof-notification.js:528-534 | Only the removal callback makes a visible notification invisible. Only a show makes an invisible one visible. |
| Lifecycle.DismissalWindow | social-proof-notification.js:528-539 | After `hide` the notification is still visible and untimed. A show is refused, and `mouseleave` re-arms a full timer when hover-pause and auto-close are on. |
| Lifecycle.HideThenDestroy | social-proof-notification.js:542-545 | `hide` then `destroy` on a visible notification leaves the count at zero and no tracked timer. The notification is still attached and visible, stray timers are untouched, and two removals are pending. |
| Lifecycle.DestroyedRemovalTakesNextNotification | social-proof-notification.js:516-534 | After `hide` and `destroy`, a notification shown between the two removals is detached by the second, with its own timer still armed. |
| Lifecycle.ThrottleAfterShow | social-proof-notification.js:501-504 | After an admitted show with persistence on, a positive interval and a working store, an immediate `init` schedules nothing. An `init` `minTimeBetween` hours later schedules a show. |
| Lifecycle.NineHourScenario | social-proof-notification.js:109-117 | Under the defaults with an empty store, `init` schedules and the show displays 10000 ms later. An `init` at that moment, or up to one millisecond short of nine hours after it, schedules nothing. Nine hours after the show it schedules again. |
| Lifecycle.StaleTimerClosesNextNotification | social-proof-notification.js:478-482 | The mouse enters, clicks close and leaves. The timer that `mouseleave` arms during dismissal survives the removal. After the next show it is a stray timer, and when it fires it starts dismissing the new notification. |
| Lifecycle.SecondRemovalTakesNewNotification | social-proof-notification.js:516-534 | Two `hide` calls schedule two removals. A notification shown between them is detached by the second one, with its own timer still armed. |

## Left out

- Style injection and CSS (social-proof-notification.js:119-306), and the markup built by `createNotificationElement` apart from its hover handlers: presentation only.
- Theme and icon tables (:40-74, :369-380, :383): static strings that do not affect the lifecycle.
- The UMD wrapper and the `create` factory (:10-14, :548-556): module plumbing.
- `setTimeout`/`clearTimeout`: timers are session fields and their expiry is an event. The model does not order expiries by deadline.
- `fetch` and `response.json()`: a `FetchOutcome` parameter. Only a body shaped like a payload is modelled. A `null` body makes rendering throw at `data.message` (:439). Other JSON (an object without `message`, a number, a string) is shown with an empty message line, and is counted and stamped like any other.
- `localStorage`: a `Storage` value with one record and read/write success flags. `console` logging on failures is dropped.
- `Date` parsing and ISO formatting: a stored record is either a millisecond stamp or unparsable.
- Throttle.ShouldShow: `minTimeBetween` is a whole number of hours and the division is exact, so a fractional interval or floating-point rounding of the quotient is not modelled.
- `Math.random`: every draw is an injected index constrained to the range `Math.floor(Math.random() * n)` yields.
- Lifecycle.Show: the admission check, content resolution and display are one atomic step, so the await between the checks and `isVisible = true` (:489-497) is not modelled. Two `show` calls that overlap in the code both pass the checks at :489-490 before either sets `isVisible` and `notificationsShown`. Examples are `n.show(); n.show()`, or two delayed shows whose timers fire while a fetch is still pending. Such calls can push the counter past `maxNotifications` and attach two elements. The first element can never be removed, because :494 overwrites `notificationElement` and `hide` removes only that element (:530). Nothing the model proves about the cap covers this case. The event carries the content resolved for that attempt, so `Show` and `Resolve` are not composed into one function.
- Text.ReplaceFirst, and with it Text.ReplaceFirstAtFirst: the `$` patterns that `String.replace` expands in a replacement string are not interpreted. No vocabulary word contains `$`.
- Settings.Merge: an option key supplied with the value `undefined` (which the spread copies over the default) is not representable. A missing key is `None`.
- Configuration values of the wrong JavaScript type (for example a string `maxNotifications`) are not modelled. Every field has one Dafny type.
