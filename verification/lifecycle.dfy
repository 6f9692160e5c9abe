/** The panel life-cycle state machine: the state and the transient flags of one
    panel, and what each system operation (`SystemShowAsync`, `SystemHideAsync`,
    `SystemCloseAsync`, the end of their animations) and each panel operation
    (`ShowAsync`, `HideAsync`, `CloseAsync` and the end of their animations) does
    to them. */
module Lifecycle {
  import opened UITypes

  /** What the life cycle reads and writes of a panel: `_state`, `_isShowing`,
      `_isHiding` and `gameObject.activeSelf`. */
  datatype Flags = Flags(state: StateEnum, showing: bool, hiding: bool, active: bool)

  /** A new panel: Hidden, inactive, no transition running. */
  const Initial: Flags := Flags(Hidden, false, false, false)

  /** `IsVisible`: shown, or hidden with a show animation running. */
  predicate Visible(f: Flags)
  {
    f.state == Shown || (f.state == Hidden && f.showing)
  }

  /** The state `SetState(t)` leaves behind: Closed is terminal, so a request to
      leave it is ignored. */
  function Commit(s: StateEnum, t: StateEnum): StateEnum
  {
    if s == Closed then Closed else t
  }

  /** `SetState(t)` as written: it moves to any state, Closed included. */
  function CommitAsWritten(s: StateEnum, t: StateEnum): StateEnum
  {
    t
  }

  /** The state changes a run of `SetState` calls reports, as (previous, current)
      pairs: a call to the current state reports nothing. */
  function Notifications(s: StateEnum, targets: seq<StateEnum>): seq<(StateEnum, StateEnum)>
    decreases |targets|
  {
    if |targets| == 0 then []
    else
      var t := Commit(s, targets[0]);
      (if t != s then [(s, t)] else []) + Notifications(t, targets[1..])
  }

  /** The state after a run of `SetState` calls. */
  function CommitAll(s: StateEnum, targets: seq<StateEnum>): StateEnum
    decreases |targets|
  {
    if |targets| == 0 then s else CommitAll(Commit(s, targets[0]), targets[1..])
  }

  /** Closing commits Hidden then Closed: from Shown that reports Shown to Hidden
      and Hidden to Closed, from Hidden only Hidden to Closed (the repeated Hidden
      is silent), and from Closed nothing. */
  lemma CloseNotifications(s: StateEnum)
    ensures s == Shown ==> Notifications(s, [Hidden, Closed]) == [(Shown, Hidden), (Hidden, Closed)]
    ensures s == Hidden ==> Notifications(s, [Hidden, Closed]) == [(Hidden, Closed)]
    ensures s == Closed ==> Notifications(s, [Hidden, Closed]) == []
    ensures CommitAll(s, [Hidden, Closed]) == Closed
  {
    assert [Hidden, Closed][1..] == [Closed];
  }

  /** Every reported change is a real change, each report starts where the previous
      one ended, and nothing is reported once the panel is Closed. */
  lemma {:induction false} NotificationsAreChanges(s: StateEnum, targets: seq<StateEnum>)
    ensures forall i | 0 <= i < |Notifications(s, targets)| ::
      Notifications(s, targets)[i].0 != Notifications(s, targets)[i].1
      && Notifications(s, targets)[i].0 != Closed
    ensures |Notifications(s, targets)| > 0 ==> Notifications(s, targets)[0].0 == s
    ensures forall i | 0 < i < |Notifications(s, targets)| ::
      Notifications(s, targets)[i].0 == Notifications(s, targets)[i - 1].1
    ensures s == Closed ==> Notifications(s, targets) == [] && CommitAll(s, targets) == Closed
    decreases |targets|
  {
    if |targets| > 0 {
      var t := Commit(s, targets[0]);
      NotificationsAreChanges(t, targets[1..]);
      var rest := Notifications(t, targets[1..]);
      if t != s {
        assert Notifications(s, targets) == [(s, t)] + rest;
        assert |rest| > 0 ==> rest[0].0 == t;
      }
    }
  }

  /** What an operation leaves: the new flags, and whether it now waits for an
      animation to finish. */
  datatype Outcome = Outcome(flags: Flags, waits: bool)

  /** The animation a panel operation waits for. */
  datatype Kind = ShowKind | HideKind | CloseKind

  /** `SystemShowAsync`: only a Hidden panel is shown. It becomes active and is
      marked showing; without animation, or without an animation component to
      play, it commits Shown and clears the mark at once; otherwise it waits. */
  function SystemShow(f: Flags, useAnimation: bool, hasAnimation: bool): Outcome
  {
    if f.state != Hidden then Outcome(f, false)
    else if useAnimation && hasAnimation then Outcome(Flags(f.state, true, f.hiding, true), true)
    else Outcome(Flags(Commit(f.state, Shown), false, f.hiding, true), false)
  }

  /** `SystemHideAsync`: a Closed panel, or a Hidden one that is not visible, is
      left alone. Otherwise the panel is marked hiding; without animation (or
      component) it is deactivated, commits Hidden and the mark is cleared;
      otherwise it waits. */
  function SystemHide(f: Flags, useAnimation: bool, hasAnimation: bool): Outcome
  {
    if f.state == Closed || (f.state == Hidden && !Visible(f)) then Outcome(f, false)
    else if useAnimation && hasAnimation then Outcome(Flags(f.state, f.showing, true, f.active), true)
    else Outcome(Flags(Commit(f.state, Hidden), f.showing, false, false), false)
  }

  /** `SystemCloseAsync`: a Closed panel is left alone. Otherwise the panel is
      marked hiding; without animation (or component) it is deactivated, commits
      Hidden then Closed and the mark is cleared; otherwise it waits. */
  function SystemClose(f: Flags, useAnimation: bool, hasAnimation: bool): Outcome
  {
    if f.state == Closed then Outcome(f, false)
    else if useAnimation && hasAnimation then Outcome(Flags(f.state, f.showing, true, f.active), true)
    else Outcome(Flags(Commit(Commit(f.state, Hidden), Closed), f.showing, false, false), false)
  }

  /** The end of a system animation started with a token: when the token was
      cancelled (`current` is false) only the transient mark is cleared; otherwise
      the operation commits its state. */
  function SystemFinish(f: Flags, k: Kind, current: bool): Flags
  {
    match k
    case ShowKind =>
      if current then Flags(Commit(f.state, Shown), false, f.hiding, f.active)
      else Flags(f.state, false, f.hiding, f.active)
    case HideKind =>
      if current then Flags(Commit(f.state, Hidden), f.showing, false, false)
      else Flags(f.state, f.showing, false, f.active)
    case CloseKind =>
      if current then Flags(Commit(Commit(f.state, Hidden), Closed), f.showing, false, false)
      else Flags(f.state, f.showing, false, f.active)
  }

  /** `Panel.ShowAsync`: only from Hidden. The panel is marked showing and
      activated; without animation (or component) it commits Shown and clears the
      mark; otherwise it waits. */
  function PanelShow(f: Flags, useAnimation: bool, hasAnimation: bool): Outcome
  {
    if f.state != Hidden then Outcome(f, false)
    else if useAnimation && hasAnimation then Outcome(Flags(f.state, true, f.hiding, true), true)
    else Outcome(Flags(Commit(f.state, Shown), false, f.hiding, true), false)
  }

  /** `Panel.HideAsync`: only from Shown. The panel is marked hiding; without
      animation (or component) it is deactivated, commits Hidden and clears the
      mark; otherwise it waits (still active). */
  function PanelHide(f: Flags, useAnimation: bool, hasAnimation: bool): Outcome
  {
    if f.state != Shown then Outcome(f, false)
    else if useAnimation && hasAnimation then Outcome(Flags(f.state, f.showing, true, f.active), true)
    else Outcome(Flags(Commit(f.state, Hidden), f.showing, false, false), false)
  }

  /** `Panel.CloseAsync`: not from Closed. The panel is marked hiding; without
      animation (or component) it is deactivated, commits Hidden then Closed and
      clears the mark; otherwise it waits. */
  function PanelClose(f: Flags, useAnimation: bool, hasAnimation: bool): Outcome
  {
    if f.state == Closed then Outcome(f, false)
    else if useAnimation && hasAnimation then Outcome(Flags(f.state, f.showing, true, f.active), true)
    else Outcome(Flags(Commit(Commit(f.state, Hidden), Closed), f.showing, false, false), false)
  }

  /** The end of a panel's own animation. Nothing cancels it: the operation
      commits its state whatever happened meanwhile. */
  function PanelFinish(f: Flags, k: Kind): Flags
  {
    match k
    case ShowKind => Flags(Commit(f.state, Shown), false, f.hiding, f.active)
    case HideKind => Flags(Commit(f.state, Hidden), f.showing, false, false)
    case CloseKind => Flags(Commit(Commit(f.state, Hidden), Closed), f.showing, false, false)
  }

  /** `PanelFinish` with `SetState` as written. */
  function PanelFinishAsWritten(f: Flags, k: Kind): Flags
  {
    match k
    case ShowKind => Flags(CommitAsWritten(f.state, Shown), false, f.hiding, f.active)
    case HideKind => Flags(CommitAsWritten(f.state, Hidden), f.showing, false, false)
    case CloseKind => Flags(CommitAsWritten(CommitAsWritten(f.state, Hidden), Closed), f.showing, false, false)
  }

  /** Closed is terminal: no system or panel operation, and no end of an
      animation, leaves it. */
  lemma ClosedIsTerminal(f: Flags, a: bool, h: bool, k: Kind, current: bool)
    requires f.state == Closed
    ensures SystemShow(f, a, h) == Outcome(f, false)
    ensures SystemHide(f, a, h) == Outcome(f, false)
    ensures SystemClose(f, a, h) == Outcome(f, false)
    ensures PanelShow(f, a, h) == Outcome(f, false) && PanelHide(f, a, h) == Outcome(f, false)
    ensures PanelClose(f, a, h) == Outcome(f, false)
    ensures SystemFinish(f, k, current).state == Closed && PanelFinish(f, k).state == Closed
  {
  }

  /** The system show acts on Hidden panels only; without animation it ends Shown
      and active with the showing mark cleared, and it waits exactly when it
      animates a panel that has an animation component. */
  lemma SystemShowSpec(f: Flags, a: bool, h: bool)
    ensures f.state != Hidden ==> SystemShow(f, a, h) == Outcome(f, false)
    ensures f.state == Hidden && !(a && h) ==>
      var g := SystemShow(f, a, h).flags; g.state == Shown && !g.showing && g.active && Visible(g)
    ensures SystemShow(f, a, h).waits <==> f.state == Hidden && a && h
    ensures SystemShow(f, a, h).waits ==> Visible(SystemShow(f, a, h).flags) && SystemShow(f, a, h).flags.state == Hidden
  {
  }

  /** Hiding is idempotent: a second hide without animation changes nothing, and a
      hide leaves Closed panels and invisible Hidden panels alone. */
  lemma SystemHideIdempotent(f: Flags, h: bool, h2: bool)
    ensures f.state == Closed || (f.state == Hidden && !Visible(f)) ==> SystemHide(f, false, h) == Outcome(f, false)
    ensures var g := SystemHide(f, false, h).flags;
      !g.showing ==> SystemHide(g, false, h2) == Outcome(g, false)
    ensures var g := SystemHide(f, false, h).flags;
      g.state != Shown && (g.state == Closed || !g.active || g == f)
  {
  }

  /** Closing ends in Closed with the panel deactivated and the hiding mark
      cleared, at once without animation and at the end of an animation that was
      not cancelled; a Closed panel is left alone. */
  lemma SystemCloseSpec(f: Flags, a: bool, h: bool)
    ensures f.state == Closed ==> SystemClose(f, a, h) == Outcome(f, false)
    ensures f.state != Closed && !(a && h) ==>
      var g := SystemClose(f, a, h).flags; g.state == Closed && !g.hiding && !g.active
    ensures SystemClose(f, a, h).waits ==>
      var g := SystemFinish(SystemClose(f, a, h).flags, CloseKind, true); g.state == Closed && !g.hiding && !g.active
  {
  }

  /** A superseded animation (its token cancelled) commits nothing: the state and
      the activity stay, only its own transient mark is cleared. */
  lemma SupersededFinishCommitsNothing(f: Flags, k: Kind)
    ensures var g := SystemFinish(f, k, false);
      g.state == f.state && g.active == f.active
      && (k == ShowKind ==> !g.showing && g.hiding == f.hiding)
      && (k != ShowKind ==> !g.hiding && g.showing == f.showing)
  {
  }

  /** The panel's own show and hide act only from Hidden and from Shown, and
      without animation they finish with the transient mark cleared. */
  lemma PanelOperationsSpec(f: Flags, a: bool, h: bool)
    ensures f.state != Hidden ==> PanelShow(f, a, h) == Outcome(f, false)
    ensures f.state != Shown ==> PanelHide(f, a, h) == Outcome(f, false)
    ensures f.state == Hidden && !(a && h) ==> PanelShow(f, a, h).flags.state == Shown && !PanelShow(f, a, h).flags.showing
    ensures f.state == Shown && !(a && h) ==> PanelHide(f, a, h).flags.state == Hidden && !PanelHide(f, a, h).flags.hiding
    ensures f.state != Closed && !(a && h) ==> PanelClose(f, a, h).flags.state == Closed
  {
  }

  /** With `SetState` as written, a panel closed while its own show animation runs
      is shown again when the animation ends. */
  lemma ClosedPanelReopensAsWritten()
    ensures var showing := PanelShow(Initial, true, true).flags;
      var closed := SystemClose(showing, false, true).flags;
      && PanelShow(Initial, true, true).waits
      && closed.state == Closed
      && PanelFinishAsWritten(closed, ShowKind).state == Shown
  {
  }

  /** With Closed terminal, the same run keeps the panel Closed. */
  lemma ClosedPanelStaysClosed(f: Flags, k: Kind)
    requires f.state == Closed
    ensures PanelFinish(f, k).state == Closed
    ensures var showing := PanelShow(Initial, true, true).flags;
      PanelFinish(SystemClose(showing, false, true).flags, ShowKind).state == Closed
    ensures var shown := SystemShow(Initial, true, true).flags;
      var closed := PanelClose(shown, false, true).flags;
      closed.state == Closed && SystemFinish(closed, ShowKind, true).state == Closed
  {
  }
  /** What `AutoCloseInternal` without animation does for the panel's answer to an
      auto-close reason: nothing, a hide or a close. */
  function AutoCloseFlags(f: Flags, b: AutoCloseBehavior): Flags
  {
    match b
    case AutoNone => f
    case AutoHide => SystemHide(f, false, false).flags
    case AutoClose => SystemClose(f, false, false).flags
  }

  /** What `AutoCloseAllNonMainUI` does to one live panel: a main screen is left
      alone, a persistent panel is hidden only when Shown, and any other panel
      follows its answer to `MainUISwitch`. */
  function MainSwitch(f: Flags, isMain: bool, persistent: bool, b: AutoCloseBehavior): Flags
  {
    if isMain then f
    else if persistent then (if f.state == Shown then SystemHide(f, false, false).flags else f)
    else AutoCloseFlags(f, b)
  }

  /** After a main-screen switch no panel that has to make way is still Shown: a
      persistent panel ends Hidden (it is never closed), a panel answering Close
      ends Closed, one answering Hide is not Shown; main screens and panels
      answering None are untouched. Switching a second time changes nothing. */
  lemma MainSwitchSpec(f: Flags, isMain: bool, persistent: bool, b: AutoCloseBehavior)
    ensures var g := MainSwitch(f, isMain, persistent, b);
      && (isMain || (!persistent && b == AutoNone) ==> g == f)
      && (!isMain && persistent ==> g.state == (if f.state == Shown then Hidden else f.state))
      && (!isMain && !persistent && b == AutoClose ==> g.state == Closed)
      && (!isMain && !persistent && b == AutoHide ==> g.state != Shown)
      && MainSwitch(g, isMain, persistent, b) == g
  {
  }

  /** A panel that is not visible stays invisible through an automatic close: it
      ends Hidden (and not showing) or Closed. */
  lemma AutoCloseKeepsInvisible(f: Flags, isMain: bool, persistent: bool, b: AutoCloseBehavior)
    requires !Visible(f)
    ensures var g := MainSwitch(f, isMain, persistent, b);
      !Visible(g) && (g.state == Hidden || g.state == Closed) && (g.state == Hidden ==> g == f)
    ensures var g := AutoCloseFlags(f, b);
      !Visible(g) && (g.state == Hidden || g.state == Closed) && (g.state == Hidden ==> g == f)
  {
  }

  /** `ExecuteToggleAsync` on a panel it found: a Hidden panel is shown, a Shown
      one hidden, a Closed one left alone. */
  function Toggle(f: Flags, useAnimation: bool, hasAnimation: bool): Outcome
  {
    if f.state == Hidden then SystemShow(f, useAnimation, hasAnimation)
    else if f.state == Shown then SystemHide(f, useAnimation, hasAnimation)
    else Outcome(f, false)
  }

  /** Toggling without animation flips between Shown and Hidden, and toggling
      twice returns to the state it started from; Closed stays Closed. */
  lemma ToggleTwice(f: Flags, h: bool)
    ensures f.state == Hidden ==> Toggle(f, false, h).flags.state == Shown
    ensures f.state == Shown ==> Toggle(f, false, h).flags.state == Hidden
    ensures Toggle(Toggle(f, false, h).flags, false, h).flags.state == f.state
    ensures f.state == Closed ==> Toggle(f, false, h) == Outcome(f, false)
  {
  }

  /** What `ExecuteDestroyAsync` and `ExecuteDestroyAllAsync` do to a panel before
      destroying it: a Shown panel is hidden without animation first. */
  function DestroyFlags(f: Flags): Flags
  {
    if f.state == Shown then SystemHide(f, false, false).flags else f
  }

  /** No panel is destroyed Shown: a Shown one is Hidden and inactive first, any
      other keeps its flags; hiding first again changes nothing. */
  lemma DestroyFlagsSpec(f: Flags)
    ensures var g := DestroyFlags(f);
      && g.state != Shown
      && (f.state == Shown ==> g == Flags(Hidden, f.showing, false, false))
      && (f.state != Shown ==> g == f)
      && DestroyFlags(g) == g
  {
  }
}
