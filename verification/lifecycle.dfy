/** The display lifecycle of one widget instance as a state machine. Timers
    are not run: arming one records it in the session, and its expiry is an
    event of its own. */
module Lifecycle {
  import opened Wrappers
  import opened Settings
  import opened Throttle

  /** The mutable part of an instance, plus the persisted store.
      - `shown` counts successful displays (`notificationsShown`);
      - `visible` is `isVisible`; `element` the attached notification, if any;
      - `autoCloseDue` is the deadline of the auto-close timer that
        `timeoutId` refers to, while that timer is still live;
      - `strayTimers` counts live auto-close timers whose handle was
        overwritten, so nothing can cancel them any more;
      - `pendingRemovals` counts removal callbacks scheduled by `hide`;
      - `pendingShows` counts initial-delay timers scheduled by `init`. */
  datatype Session = Session(
    shown: nat,
    visible: bool,
    element: Option<Payload>,
    autoCloseDue: Option<int>,
    strayTimers: nat,
    pendingRemovals: nat,
    pendingShows: nat,
    storage: Storage)

  /** A freshly constructed instance over the given store: nothing shown or
      attached, no timer armed and no callback pending. It satisfies the
      invariant under every configuration. */
  function Initial(storage: Storage): (r: Session)
    ensures r.shown == 0 && !r.visible && r.element.None?
    ensures r.autoCloseDue.None? && r.strayTimers == 0
    ensures r.pendingRemovals == 0 && r.pendingShows == 0
    ensures r.storage == storage
    ensures forall cfg :: Invariant(cfg, r)
  {
    Session(0, false, None, None, 0, 0, 0, storage)
  }

  /** What can happen to an instance: a public call, a timer expiring, or a
      mouse event on the attached notification. */
  datatype Event =
    | InitCalled(now: int)
    | InitialDelayElapsed(content: Payload, now: int)
    | ShowCalled(content: Payload, now: int)
    | HideCalled
    | RemovalElapsed
    | AutoCloseElapsed
    | StrayTimerElapsed
    | MouseEntered
    | MouseLeft(now: int)
    | DestroyCalled

  /** `init`: consults the gate once; when it is open, schedules one show
      after the initial delay, and otherwise does nothing, for good. */
  function Init(cfg: Config, s: Session, now: int): (r: Session)
    ensures ShouldShow(cfg, Read(s.storage), now) ==> r == s.(pendingShows := s.pendingShows + 1)
    ensures !ShouldShow(cfg, Read(s.storage), now) ==> r == s
  {
    if ShouldShow(cfg, Read(s.storage), now) then s.(pendingShows := s.pendingShows + 1) else s
  }

  /** The show is refused while the cap is reached or a notification is up. */
  predicate Admits(cfg: Config, s: Session) {
    s.shown < cfg.maxNotifications && !s.visible
  }

  /** `show`: a refused call changes nothing, the store included. An admitted
      one attaches `content`, becomes visible, counts one more display,
      stamps the store iff persistence is on, arms the auto-close timer iff
      auto-close is on (overwriting, not cancelling, any live one), and
      leaves the rest as it was. */
  function Show(cfg: Config, s: Session, content: Payload, now: int): (r: Session)
    ensures !Admits(cfg, s) ==> r == s
    ensures Admits(cfg, s) ==>
      && r.visible && r.element == Some(content) && r.shown == s.shown + 1
      && r.storage == (if cfg.saveToStorage then MarkShown(s.storage, now) else s.storage)
      && r.autoCloseDue == (if cfg.autoClose then Some(now + cfg.autoCloseTimeout) else s.autoCloseDue)
      && r.strayTimers == s.strayTimers + (if cfg.autoClose && s.autoCloseDue.Some? then 1 else 0)
      && r.pendingRemovals == s.pendingRemovals && r.pendingShows == s.pendingShows
  {
    if s.shown >= cfg.maxNotifications || s.visible then s
    else
      var stamped := if cfg.saveToStorage then MarkShown(s.storage, now) else s.storage;
      var armed := cfg.autoClose;
      s.(element := Some(content), visible := true, shown := s.shown + 1, storage := stamped,
         autoCloseDue := if armed then Some(now + cfg.autoCloseTimeout) else s.autoCloseDue,
         strayTimers := if armed && s.autoCloseDue.Some? then s.strayTimers + 1 else s.strayTimers)
  }

  /** `hide`: nothing happens unless a notification is attached and visible.
      Otherwise the auto-close timer is cancelled at once and a removal is
      scheduled; the notification stays attached and visible until that
      removal runs. */
  function Hide(s: Session): (r: Session)
    ensures s.element.None? || !s.visible ==> r == s
    ensures s.element.Some? && s.visible ==>
      && r.visible && r.element == s.element && r.autoCloseDue.None?
      && r.pendingRemovals == s.pendingRemovals + 1
      && r == s.(autoCloseDue := None, pendingRemovals := r.pendingRemovals)
  {
    if s.element.None? || !s.visible then s
    else s.(autoCloseDue := None, pendingRemovals := s.pendingRemovals + 1)
  }

  /** The removal callback: detaches the notification and clears `visible`.
      It is the only step that does. */
  function CompleteRemoval(s: Session): (r: Session)
    ensures s.pendingRemovals > 0 ==>
      && r.element.None? && !r.visible && r.pendingRemovals == s.pendingRemovals - 1
      && r == s.(element := None, visible := false, pendingRemovals := r.pendingRemovals)
    ensures s.pendingRemovals == 0 ==> r == s
  {
    if s.pendingRemovals == 0 then s
    else s.(element := None, visible := false, pendingRemovals := s.pendingRemovals - 1)
  }

  /** The tracked auto-close timer expires and calls `hide`: the timer is
      gone, and a notification that is attached and visible gets one removal
      scheduled but stays up until it runs. */
  function FireAutoClose(s: Session): (r: Session)
    ensures s.autoCloseDue.None? ==> r == s
    ensures s.autoCloseDue.Some? ==>
      && r.autoCloseDue.None?
      && r.visible == s.visible && r.element == s.element && r.shown == s.shown
      && r.strayTimers == s.strayTimers && r.pendingShows == s.pendingShows && r.storage == s.storage
      && r.pendingRemovals == s.pendingRemovals + (if s.element.Some? && s.visible then 1 else 0)
  {
    if s.autoCloseDue.None? then s else Hide(s.(autoCloseDue := None))
  }

  /** A timer whose handle was lost expires and calls `hide` all the same.
      If a notification is attached and visible, that `hide` cancels the
      notification's own tracked timer and schedules a removal for it,
      whichever notification the stray timer was armed for. */
  function FireStrayTimer(s: Session): (r: Session)
    ensures s.strayTimers == 0 ==> r == s
    ensures s.strayTimers > 0 ==>
      && r.strayTimers == s.strayTimers - 1
      && r.visible == s.visible && r.element == s.element && r.shown == s.shown
      && r.pendingShows == s.pendingShows && r.storage == s.storage
      && (s.element.Some? && s.visible ==>
            r.autoCloseDue.None? && r.pendingRemovals == s.pendingRemovals + 1)
      && (!(s.element.Some? && s.visible) ==>
            r.autoCloseDue == s.autoCloseDue && r.pendingRemovals == s.pendingRemovals)
  {
    if s.strayTimers == 0 then s else Hide(s.(strayTimers := s.strayTimers - 1))
  }

  /** The hover handlers exist only with `pauseOnHover`, on an attached
      notification. */
  predicate Hoverable(cfg: Config, s: Session) {
    cfg.pauseOnHover && s.element.Some?
  }

  /** `mouseenter`: cancels the tracked auto-close timer and nothing else. */
  function MouseEnter(cfg: Config, s: Session): (r: Session)
    ensures Hoverable(cfg, s) ==> r.autoCloseDue.None? && r == s.(autoCloseDue := None)
    ensures !Hoverable(cfg, s) ==> r == s
  {
    if Hoverable(cfg, s) then s.(autoCloseDue := None) else s
  }

  /** `mouseleave`: when auto-close is on and the notification is still
      visible, arms a fresh timer for the full timeout; a live tracked timer
      is overwritten, not cancelled. */
  function MouseLeave(cfg: Config, s: Session, now: int): (r: Session)
    ensures Hoverable(cfg, s) && cfg.autoClose && s.visible ==>
      && r.autoCloseDue == Some(now + cfg.autoCloseTimeout)
      && r.strayTimers == s.strayTimers + (if s.autoCloseDue.Some? then 1 else 0)
      && r == s.(autoCloseDue := r.autoCloseDue, strayTimers := r.strayTimers)
    ensures !(Hoverable(cfg, s) && cfg.autoClose && s.visible) ==> r == s
  {
    if Hoverable(cfg, s) && cfg.autoClose && s.visible then
      s.(autoCloseDue := Some(now + cfg.autoCloseTimeout),
         strayTimers := if s.autoCloseDue.Some? then s.strayTimers + 1 else s.strayTimers)
    else s
  }

  /** `destroy`: a `hide`, then the display count back to zero. The
      notification is not detached here; it stays attached and visible until
      the removal scheduled by that `hide` runs. */
  function Destroy(s: Session): (r: Session)
    ensures r.shown == 0
    ensures r.visible == s.visible && r.element == s.element
    ensures r.strayTimers == s.strayTimers && r.pendingShows == s.pendingShows && r.storage == s.storage
    ensures s.element.Some? && s.visible ==>
      r.autoCloseDue.None? && r.pendingRemovals == s.pendingRemovals + 1
    ensures !(s.element.Some? && s.visible) ==> r == s.(shown := 0)
  {
    Hide(s).(shown := 0)
  }

  /** `notificationsShown` only changes by an admitted show, which is
      exactly the step that makes an invisible instance visible, and by
      `destroy`, which resets it. */
  function Step(cfg: Config, s: Session, e: Event): (r: Session)
    ensures !e.DestroyCalled? ==> r.shown == s.shown + (if !s.visible && r.visible then 1 else 0)
    ensures e.DestroyCalled? ==> r.shown == 0
  {
    match e
    case InitCalled(now) => Init(cfg, s, now)
    case InitialDelayElapsed(content, now) =>
      if s.pendingShows == 0 then s else Show(cfg, s.(pendingShows := s.pendingShows - 1), content, now)
    case ShowCalled(content, now) => Show(cfg, s, content, now)
    case HideCalled => Hide(s)
    case RemovalElapsed => CompleteRemoval(s)
    case AutoCloseElapsed => FireAutoClose(s)
    case StrayTimerElapsed => FireStrayTimer(s)
    case MouseEntered => MouseEnter(cfg, s)
    case MouseLeft(now) => MouseLeave(cfg, s, now)
    case DestroyCalled => Destroy(s)
  }

  function Run(cfg: Config, s: Session, events: seq<Event>): Session
    decreases |events|
  {
    if |events| == 0 then s else Run(cfg, Step(cfg, s, events[0]), events[1..])
  }

  /** What every reachable session satisfies: a notification is attached
      exactly while it is visible, and the display count stays within the
      cap (or at zero when the cap is negative). */
  ghost predicate Invariant(cfg: Config, s: Session) {
    (s.element.Some? <==> s.visible) && (s.shown == 0 || s.shown <= cfg.maxNotifications)
  }

  lemma StepPreservesInvariant(cfg: Config, s: Session, e: Event)
    requires Invariant(cfg, s)
    ensures Invariant(cfg, Step(cfg, s, e))
  {
  }

  lemma {:induction false} RunPreservesInvariant(cfg: Config, s: Session, events: seq<Event>)
    requires Invariant(cfg, s)
    ensures Invariant(cfg, Run(cfg, s, events))
    decreases |events|
  {
    if |events| > 0 {
      StepPreservesInvariant(cfg, s, events[0]);
      RunPreservesInvariant(cfg, Step(cfg, s, events[0]), events[1..]);
    }
  }

  /** However the events interleave, the display counter
      (`notificationsShown`) of a fresh instance never exceeds
      `maxNotifications`. It is a counter, not a total: `destroy` resets it,
      so `DestroyReopensCap` displays more than the cap. Each show is one
      atomic step here; `show` calls that overlap across the fetch are not
      covered. */
  lemma NeverExceedsCap(cfg: Config, storage: Storage, events: seq<Event>)
    requires cfg.maxNotifications >= 0
    ensures Run(cfg, Initial(storage), events).shown <= cfg.maxNotifications
  {
    RunPreservesInvariant(cfg, Initial(storage), events);
  }

  /** The number of notifications displayed during a run: the steps that
      make an invisible instance visible. */
  ghost function Displays(cfg: Config, s: Session, events: seq<Event>): nat
    decreases |events|
  {
    if |events| == 0 then 0
    else
      var next := Step(cfg, s, events[0]);
      (if !s.visible && next.visible then 1 else 0) + Displays(cfg, next, events[1..])
  }

  /** Without `destroy`, the counter grows by exactly the displays. */
  lemma {:induction false} CounterCountsDisplays(cfg: Config, s: Session, events: seq<Event>)
    requires forall i :: 0 <= i < |events| ==> !events[i].DestroyCalled?
    ensures Run(cfg, s, events).shown == s.shown + Displays(cfg, s, events)
    decreases |events|
  {
    if |events| > 0 {
      CounterCountsDisplays(cfg, Step(cfg, s, events[0]), events[1..]);
    }
  }

  /** A fresh instance that is never destroyed displays at most
      `maxNotifications` notifications in all, provided its `show` calls do
      not overlap (each is one atomic step here). */
  lemma DisplaysWithinCap(cfg: Config, storage: Storage, events: seq<Event>)
    requires cfg.maxNotifications >= 0
    requires forall i :: 0 <= i < |events| ==> !events[i].DestroyCalled?
    ensures Displays(cfg, Initial(storage), events) <= cfg.maxNotifications
  {
    CounterCountsDisplays(cfg, Initial(storage), events);
    NeverExceedsCap(cfg, storage, events);
  }

  /** `destroy` resets the counter, so with the default cap of one a
      destroyed instance displays a second notification. */
  lemma DestroyReopensCap(st: Storage, p: Payload, q: Payload)
    ensures var cfg := Merge(NoOptions);
      && cfg.maxNotifications == 1
      && Displays(cfg, Initial(st),
           [ShowCalled(p, 0), HideCalled, RemovalElapsed, DestroyCalled, ShowCalled(q, 400)]) == 2
  {
    var cfg := Merge(NoOptions);
    var events := [ShowCalled(p, 0), HideCalled, RemovalElapsed, DestroyCalled, ShowCalled(q, 400)];
    var s1 := Step(cfg, Initial(st), events[0]);
    var s2 := Step(cfg, s1, events[1]);
    var s3 := Step(cfg, s2, events[2]);
    var s4 := Step(cfg, s3, events[3]);
    var s5 := Step(cfg, s4, events[4]);
    assert s1.visible && s2.visible && !s3.visible && !s4.visible && s5.visible;
    assert Displays(cfg, s4, events[4..]) == 1 by {
      assert events[4..][1..] == [];
    }
    assert Displays(cfg, s3, events[3..]) == 1 by {
      assert events[3..][1..] == events[4..];
    }
    assert Displays(cfg, s2, events[2..]) == 1 by {
      assert events[2..][1..] == events[3..];
    }
    assert Displays(cfg, s1, events[1..]) == 1 by {
      assert events[1..][1..] == events[2..];
    }
  }

  /** A second show right after a first one, with any content at any time,
      has no effect at all. */
  lemma ShowTwiceIsIdempotent(cfg: Config, s: Session, p: Payload, q: Payload, now: int, later: int)
    ensures var once := Show(cfg, s, p, now);
      Show(cfg, once, q, later) == once
  {
  }

  /** Visibility ends only by the removal callback, and begins only by a
      show. */
  lemma VisibilityChanges(cfg: Config, s: Session, e: Event)
    ensures s.visible && !Step(cfg, s, e).visible ==> e.RemovalElapsed?
    ensures !s.visible && Step(cfg, s, e).visible ==> e.ShowCalled? || e.InitialDelayElapsed?
  {
  }

  /** Between `hide` and its removal the notification is still visible: a
      show is refused, and leaving it with the mouse re-arms a full
      auto-close timer. */
  lemma DismissalWindow(cfg: Config, s: Session, p: Payload, now: int, later: int)
    requires s.visible && s.element.Some?
    ensures var h := Hide(s);
      && h.visible && h.autoCloseDue.None? && h.pendingRemovals > 0
      && Show(cfg, h, p, now) == h
      && (cfg.pauseOnHover && cfg.autoClose ==> MouseLeave(cfg, h, later).autoCloseDue == Some(later + cfg.autoCloseTimeout))
  {
  }

  /** `hide` then `destroy`: the count is back to zero and no auto-close
      timer is tracked, but the notification is still up, timers whose
      handle was already lost survive, and two removals are pending, since
      the `hide` inside `destroy` finds the notification still visible. */
  lemma HideThenDestroy(s: Session)
    requires s.visible && s.element.Some?
    ensures var r := Destroy(Hide(s));
      && r.shown == 0 && r.autoCloseDue.None? && r.strayTimers == s.strayTimers
      && r.visible && r.element == s.element
      && r.pendingRemovals == s.pendingRemovals + 2
  {
  }

  /** After `hide` and `destroy`, the first removal clears the way for a new
      display (the counter was reset), and the second removal then takes the
      new notification down with its auto-close timer still armed. Times
      are in ms: `hide` at 0 and `destroy` at 100 put the removals at 300 and
      400, and the new show at 305 falls between them. */
  lemma DestroyedRemovalTakesNextNotification(st: Storage, p: Payload, q: Payload)
    ensures var cfg := Merge(NoOptions);
      var s1 := Step(cfg, Initial(st), ShowCalled(p, 0));
      var s2 := Step(cfg, Step(cfg, s1, HideCalled), DestroyCalled);
      var s3 := Step(cfg, s2, RemovalElapsed);
      var s4 := Step(cfg, s3, ShowCalled(q, 305));
      var s5 := Step(cfg, s4, RemovalElapsed);
      && s2.pendingRemovals == 2 && s2.visible
      && s4.visible && s4.element == Some(q) && s4.shown == 1
      && !s5.visible && s5.element.None? && s5.autoCloseDue == Some(305 + 8000)
  {
  }

  /** A display stamps the store, so an immediate `init` schedules nothing
      when the interval is positive, and `init` schedules again once
      `minTimeBetween` hours have passed. */
  lemma ThrottleAfterShow(cfg: Config, s: Session, p: Payload, now: int)
    requires Admits(cfg, s) && cfg.saveToStorage && cfg.minTimeBetween > 0
    requires s.storage.readable && s.storage.writable
    ensures var r := Show(cfg, s, p, now);
      && Init(cfg, r, now) == r
      && Init(cfg, r, now + cfg.minTimeBetween * MsPerHour).pendingShows == r.pendingShows + 1
  {
    GateAfterMark(cfg, s.storage, now);
  }

  /** With the default configuration and an empty, working store: `init`
      schedules a show; after that show an immediate `init` schedules
      nothing; nine hours later it schedules again. The show runs the
      default initial delay of 10000 ms after `init`. */
  lemma NineHourScenario(p: Payload, t0: int)
    ensures var cfg := Merge(NoOptions);
      var s0 := Initial(Storage(None, true, true));
      var s1 := Step(cfg, s0, InitCalled(t0));
      var s2 := Step(cfg, s1, InitialDelayElapsed(p, t0 + 10000));
      && s1.pendingShows == 1
      && s2.visible && s2.shown == 1 && s2.pendingShows == 0
      && Step(cfg, s2, InitCalled(t0 + 10000)) == s2
      && Step(cfg, s2, InitCalled(t0 + 10000 + 9 * MsPerHour - 1)) == s2
      && Step(cfg, s2, InitCalled(t0 + 10000 + 9 * MsPerHour)).pendingShows == 1
  {
    var cfg := Merge(NoOptions);
    var s2 := Step(cfg, Step(cfg, Initial(Storage(None, true, true)), InitCalled(t0)), InitialDelayElapsed(p, t0 + 10000));
    assert s2.storage.record == Some(Stamp(t0 + 10000));
  }

  /** A timer armed by `mouseleave` during the dismissal window outlives the
      notification it was meant to close. When a later notification arms
      its own timer the old handle is lost, and the stray timer then starts
      dismissing the new notification before its own timeout. The mouse
      enters the notification, clicks its close button (which calls `hide`)
      and leaves again. Times are in ms: the removal runs 300 ms after
      `hide`. */
  lemma StaleTimerClosesNextNotification(st: Storage, p: Payload, q: Payload)
    ensures var cfg := Merge(NoOptions).(pauseOnHover := true, maxNotifications := 2);
      var s1 := Step(cfg, Initial(st), ShowCalled(p, 0));
      var s2 := Step(cfg, Step(cfg, s1, MouseEntered), HideCalled);
      var s3 := Step(cfg, s2, MouseLeft(100));
      var s4 := Step(cfg, s3, RemovalElapsed);
      var s5 := Step(cfg, s4, ShowCalled(q, 400));
      var s6 := Step(cfg, s5, StrayTimerElapsed);
      && !s4.visible && s4.element.None? && s4.autoCloseDue == Some(8100)
      && s5.visible && s5.autoCloseDue == Some(8400) && s5.strayTimers == 1
      && s6.visible && s6.autoCloseDue.None? && s6.pendingRemovals == 1
  {
  }

  /** Calling `hide` twice schedules two removals; if a new notification is
      shown between them, the second removal takes the new one down. Times
      are in ms: the hides come at 0 and 50, so the removals run at 300 and
      350, and the new show at 310 falls between them. */
  lemma SecondRemovalTakesNewNotification(st: Storage, p: Payload, q: Payload)
    ensures var cfg := Merge(NoOptions).(maxNotifications := 2);
      var s1 := Step(cfg, Initial(st), ShowCalled(p, 0));
      var s2 := Step(cfg, Step(cfg, s1, HideCalled), HideCalled);
      var s3 := Step(cfg, s2, RemovalElapsed);
      var s4 := Step(cfg, s3, ShowCalled(q, 310));
      var s5 := Step(cfg, s4, RemovalElapsed);
      && s2.pendingRemovals == 2
      && s4.visible && s4.element == Some(q)
      && !s5.visible && s5.element.None? && s5.autoCloseDue == Some(310 + 8000)
  {
  }
}
