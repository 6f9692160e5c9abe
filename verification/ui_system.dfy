/** The stateful core of EzUI: panels, operation handles, and the panel system
    (`UISystem`) that queues operations, drives the panel state machine, keeps the
    registry of live panels and resolves the mask and the focus. */
module EzUI {
  import opened UITypes
  import Resolver
  import InputSchemes
  import PathResolution
  import PopUIPolicy
  import Lifecycle

  /** What a `PopUI` subclass adds to a panel class: its mask-click operation and
      its answer to "close the top pop-up". */
  datatype PopConfig = PopConfig(maskClickOperation: MaskClickOperation, autoCloseTopType: AutoCloseTopType)

  /** A panel prefab: the panel class and the members of it the core reads
      (`layer`, `useMask`, `maskColor`, `mainUIChangeBehavior`, `GetAutoCloseType`,
      the capabilities `IMainUI`, `IMainUILoadable` and `IUIFocus`, whether it is a
      `PopUI`, and whether it carries an animation component). */
  datatype Template = Template(
    panelType: PathResolution.PanelType,
    layer: int,
    useMask: bool,
    maskColor: Option<Color>,
    changeBehavior: MainUIChangeBehavior,
    autoClose: AutoClosePolicy,
    isMain: bool,
    loadable: bool,
    focus: bool,
    pop: Option<PopConfig>,
    hasAnimation: bool)
  {
    /** `PopUI` derives from `FocusUI`, so every pop-up can hold the focus. */
    predicate IsFocus()
    {
      focus || pop.Some?
    }
  }

  /** What loading a resource path yields: a game object without a `Panel`
      component, or a panel prefab. */
  datatype Asset = NonPanelAsset | PanelAsset(template: Template)

  /** A running system animation: the panel, the operation it ends, and the
      token (`StartAnimationToken`) it was started with. */
  datatype Animation = Animation(panel: Panel, kind: Lifecycle.Kind, token: nat)

  /** The queue drain, suspended in the middle of `handle` while `anim` plays. */
  datatype Suspension = Suspension(handle: OperationHandle, anim: Animation)

  /** How an operation of the queue ends: done, with the panel it returns, or
      waiting for an animation, after which it returns the animated panel. */
  datatype Progress = Done(result: Option<Panel>) | Waits(anim: Animation)

  /** How the installed `IUILoadingHandler` behaves: whether `ShowLoading` throws,
      and whether it yields a controller. */
  datatype LoadingHandler = LoadingHandler(showThrows: bool, givesController: bool)

  /** Panel life-cycle callbacks (`OnCreate`, `InvokeOnShow`, `InvokeOnHide`,
      `InvokeOnClose`, `InvokeOnClosed`, and the `OnStateChanged` callback of a
      new state). */
  datatype Hook = CreateHook | ShowHook | HideHook | CloseHook | ClosedHook | StateHook(state: StateEnum)

  /** Everything the system dispatches, logs or calls back, in order. */
  datatype UIEvent =
    | PanelCreated(panel: Panel, path: string)
    | PanelDestroyed(panel: Panel, path: string)
    | PanelStateChanged(panel: Panel, previous: StateEnum, current: StateEnum)
    | PanelShown(panel: Panel, path: string)
    | PanelHidden(panel: Panel, path: string)
    | PanelClose(panel: Panel, path: string)
    | FocusChanged(previousFocus: Option<Panel>, currentFocus: Option<Panel>)
    | MaskStateChanged(active: bool, target: Option<Panel>)
    | InputSchemeChanged(previousScheme: string, currentScheme: string, count: nat, source: Panel)
    | AnimationStateChanged(panel: Panel, isPlaying: bool)
    | Callback(panel: Panel, hook: Hook)
    | Warning(path: string)
    | LoadingShown
    | LoadingProgressed
    | LoadingHidden

  /** What `AutoCloseAllNonMainUI` leaves of a panel of the list whose flags were
      `f` and which was persistent when `persistence0` says so; a destroyed panel
      is skipped. */
  function SwitchedAway(p: Panel, f: Lifecycle.Flags, persistence0: set<Panel>, destroyed: set<Panel>): Lifecycle.Flags
  {
    if p in destroyed then f
    else Lifecycle.MainSwitch(f, p.template.isMain, p in persistence0, p.template.autoClose.Get(MainUISwitch))
  }

  /** The sequence has no repeated element. */
  predicate Distinct<T(==)>(s: seq<T>)
  {
    forall i, j | 0 <= i < j < |s| :: s[i] != s[j]
  }

  /** `List.Remove`: drops the first occurrence of `x`. */
  function Without<T(==)>(s: seq<T>, x: T): (r: seq<T>)
    ensures forall y | y in r :: y in s
    ensures forall y | y in s && y != x :: y in r
  {
    if |s| == 0 then []
    else if s[0] == x then s[1..]
    else [s[0]] + Without(s[1..], x)
  }

  /** Removing the first occurrence from a list without repetitions removes the
      element altogether and keeps the list free of repetitions. */
  lemma {:induction false} WithoutDistinct<T>(s: seq<T>, x: T)
    requires Distinct(s)
    ensures Distinct(Without(s, x)) && x !in Without(s, x)
  {
    if |s| > 0 {
      assert s[0] !in s[1..];
      if s[0] != x {
        WithoutDistinct(s[1..], x);
        assert s[0] !in Without(s[1..], x);
      }
    }
  }

  /** Unity's `obj != null` (and `!!obj`): the reference is not null and the object
      is not among the destroyed ones. */
  predicate IsLive(p: Option<Panel>, destroyed: set<Panel>)
  {
    p.Some? && p.value !in destroyed
  }

  /** Unity's overloaded `==` on panels: two "null" references (null or destroyed)
      are equal, otherwise it is reference equality. */
  predicate UnityEq(a: Option<Panel>, b: Option<Panel>, destroyed: set<Panel>)
  {
    if IsLive(a, destroyed) && IsLive(b, destroyed) then a == b
    else !IsLive(a, destroyed) && !IsLive(b, destroyed)
  }

  /** `RemoveAll(ui => !ui)`: the live panels, in order. */
  function LiveOnly(s: seq<Panel>, destroyed: set<Panel>): (r: seq<Panel>)
    ensures forall p | p in r :: p in s && p !in destroyed
    ensures forall p | p in s && p !in destroyed :: p in r
    ensures Distinct(s) ==> Distinct(r)
  {
    if |s| == 0 then []
    else (if s[0] !in destroyed then [s[0]] else []) + LiveOnly(s[1..], destroyed)
  }

  /** The events `NotifyPanelStateChanged` dispatches: the generic state change,
      then the one event of the new state. */
  function StateEvents(p: Panel, path: string, previous: StateEnum, current: StateEnum): seq<UIEvent>
  {
    [PanelStateChanged(p, previous, current)]
    + match current
      case Shown => [PanelShown(p, path)]
      case Hidden => [PanelHidden(p, path)]
      case Closed => [PanelClose(p, path)]
  }

  /** Every state change announces itself and exactly one of Shown, Hidden and
      Close, the one of the new state. */
  lemma StateEventsSpec(p: Panel, path: string, previous: StateEnum, current: StateEnum)
    ensures var e := StateEvents(p, path, previous, current);
      && |e| == 2 && e[0] == PanelStateChanged(p, previous, current)
      && (e[1].PanelShown? <==> current == Shown)
      && (e[1].PanelHidden? <==> current == Hidden)
      && (e[1].PanelClose? <==> current == Closed)
  {
  }

  /** `ui.maskColor ?? Settings?.maskColor ?? new Color(0, 0, 0, 0.95)`. */
  function MaskColorOf(panelColor: Option<Color>, settings: Option<Settings>): Color
  {
    if panelColor.Some? then panelColor.value
    else if settings.Some? then settings.value.maskColor
    else DefaultMaskColor
  }

  /** The panel's own colour wins; without one the configured colour is used, and
      without settings the mask is black at 95% opacity. */
  lemma MaskColorFallback(panelColor: Option<Color>, settings: Option<Settings>)
    ensures panelColor.Some? ==> MaskColorOf(panelColor, settings) == panelColor.value
    ensures panelColor.None? && settings.Some? ==> MaskColorOf(panelColor, settings) == settings.value.maskColor
    ensures panelColor.None? && settings.None? ==> MaskColorOf(panelColor, settings) == Color(0.0, 0.0, 0.0, 0.95)
  {
  }

  /** The focus event `RefreshUI` dispatches: only when the holder changed. */
  function FocusEvents(previous: Option<Panel>, current: Option<Panel>): seq<UIEvent>
  {
    if previous != current then [FocusChanged(previous, current)] else []
  }

  /** The mask event `RefreshUI` dispatches: only when the mask was switched on or
      off or its target changed (by Unity's comparison). */
  function MaskEvents(prevActive: bool, prevTarget: Option<Panel>, active: bool, target: Option<Panel>,
                      destroyed: set<Panel>): seq<UIEvent>
  {
    if prevActive != active || !UnityEq(prevTarget, target, destroyed) then [MaskStateChanged(active, target)] else []
  }

  /** The registry invariant: every panel the system's lists refer to was made by
      the system `sys`, and the live list has no repetitions. */
  ghost predicate RegistryHolds(sys: UISystem, panels: set<Panel>, list: seq<Panel>, persistence: set<Panel>)
  {
    && (forall p | p in panels :: p.sys == sys)
    && (forall i | 0 <= i < |list| :: list[i] in panels)
    && Distinct(list)
    && persistence <= panels
  }

  /** The operation types that await an animation, and the kind they await:
      Show a show, Hide a hide, Close a close, Toggle a show or a hide. */
  predicate Awaits(op: OperationType, kind: Lifecycle.Kind)
  {
    match op
    case ShowOp => kind == Lifecycle.ShowKind
    case HideOp => kind == Lifecycle.HideKind
    case CloseOp => kind == Lifecycle.CloseKind
    case ToggleOp => kind != Lifecycle.CloseKind
    case _ => false
  }

  /** A system with no panels, no handles and an empty queue meets every
      invariant. */
  lemma EmptySystemHolds(sys: UISystem, default: string)
    ensures RegistryHolds(sys, {}, [], {}) && PointersHold({}, None, None, None)
    ensures SchemesHold({}, [], default, default) && HandlesHold({}, [], None)
  {
  }

  /** The mask target, the focus and the current main screen are known panels. */
  ghost predicate PointersHold(panels: set<Panel>, maskTarget: Option<Panel>, focus: Option<Panel>, main: Option<Panel>)
  {
    && (maskTarget.Some? ==> maskTarget.value in panels)
    && (focus.Some? ==> focus.value in panels)
    && (main.Some? ==> main.value in panels)
  }

  /** The input-scheme invariant: one entry per owner, owners are known panels,
      and the current scheme is the effective one. */
  ghost predicate SchemesHold(panels: set<Panel>, schemes: seq<(Panel, string)>, current: string, default: string)
  {
    && (forall i | 0 <= i < |schemes| :: schemes[i].0 in panels)
    && InputSchemes.UniqueOwners(schemes)
    && current == InputSchemes.Effective(schemes, default)
  }

  /** The handle invariant: the panels the handles and the awaited animation
      refer to are known panels. */
  ghost predicate HandlesHold(panels: set<Panel>, enqueued: seq<OperationHandle>, suspended: Option<Suspension>)
  {
    && (forall i | 0 <= i < |enqueued| :: enqueued[i].target.Some? ==> enqueued[i].target.value in panels)
    && (suspended.Some? ==> suspended.value.anim.panel in panels)
  }

  /** The outcome of a refresh on the sorted list `list` with views `vs`: the mask
      belongs to the first view that wants it, in that panel's colour (else the
      settings', else the default), and is off (keeping its colour) when none
      does; the focus belongs to the first visible focus holder, and stays where
      it was when there is none. */
  ghost predicate Resolved(list: seq<Panel>, vs: seq<Resolver.PanelView>, settings: Option<Settings>,
                           prevColor: Color, prevFocus: Option<Panel>,
                           maskActive: bool, maskTarget: Option<Panel>, maskColor: Color, focus: Option<Panel>)
    requires |vs| == |list|
  {
    var m := Resolver.FirstIndex(vs, Resolver.MaskTarget);
    var f := Resolver.FirstIndex(vs, Resolver.FocusHolder);
    && maskActive == m.Some?
    && maskTarget == (if m.Some? then Some(list[m.value]) else None)
    && maskColor == (if m.Some? then MaskColorOf(list[m.value].template.maskColor, settings) else prevColor)
    && focus == (if f.Some? then Some(list[f.value]) else prevFocus)
  }

  /** A panel instance (`Panel`, a `MonoBehaviour`). */
  class Panel {
    /** The injected `UISystem` (`InjectPanel`): panels are only made by
        `UISystem.Instantiate`, which injects it before anything else runs. */
    const sys: UISystem
    /** The prefab the panel was built from. */
    const template: Template
    /** The layer container the panel was built under (none without a UI root). */
    const parent: Option<nat>
    /** The resource path (`Initialize` records it once, before the panel can be
        seen by anyone). */
    const path: string
    var state: StateEnum
    var isShowing: bool
    var isHiding: bool
    var isAnimationPlaying: bool
    var userData: Option<UserData>
    /** `gameObject.activeSelf`. */
    var active: bool
    /** `transform.GetSiblingIndex()`, as a position on the system's sibling clock. */
    var sibling: int
    /** `FocusUI.isFocused`. */
    var isFocused: bool
    /** The animation generation: `StartAnimationToken` and `CancelAnimation` move
        it on, which cancels every token handed out before. */
    var generation: nat
    /** The panel's own suspended `ShowAsync`/`HideAsync`/`CloseAsync` calls. */
    var tasks: seq<Lifecycle.Kind>
    /** Number of registered views (`_views`). */
    var views: nat
    /** `Object.Destroy` was called; Unity destroys the object at the end of the
        frame. */
    var destroyRequested: bool

    /** `PrefabBuilder...Build()`: an inactive copy of the prefab, in the Hidden
        state. */
    constructor(sys: UISystem, template: Template, parent: Option<nat>, sibling: int, path: string)
      ensures this.sys == sys && this.template == template && this.parent == parent && this.sibling == sibling
      ensures this.path == path
      ensures state == Hidden && !isShowing && !isHiding && !isAnimationPlaying && !active
      ensures !destroyRequested && generation == 0 && tasks == [] && views == 0
      ensures userData.None? && !isFocused
    {
      this.sys := sys;
      this.template := template;
      this.parent := parent;
      this.sibling := sibling;
      this.path := path;
      state := Hidden;
      isShowing, isHiding, isAnimationPlaying := false, false, false;
      userData := None;
      active := false;
      isFocused := false;
      generation := 0;
      tasks := [];
      views := 0;
      destroyRequested := false;
    }

    /** `IsVisible`: shown, or hidden with a show animation running. */
    predicate IsVisible()
      reads this`state, this`isShowing
    {
      state == Shown || (state == Hidden && isShowing)
    }

    /** The life-cycle flags of the panel. */
    function Flags(): Lifecycle.Flags
      reads this`state, this`isShowing, this`isHiding, this`active
    {
      Lifecycle.Flags(state, isShowing, isHiding, active)
    }

    /** What the sorter and the mask/focus scan read of the panel. */
    function View(): Resolver.PanelView
      reads this`state, this`isShowing, this`sibling
    {
      Resolver.PanelView(state == Shown, IsVisible(), template.layer, sibling, template.useMask, template.IsFocus())
    }

    /** `SetState` (also `SetStateInternal`), with Closed made terminal: a request
        to leave Closed is ignored. A real change runs the state callback and
        notifies the system once; setting the current state does nothing. */
    method SetState(s: StateEnum)
      requires sys.Inv() && this in sys.panels
      modifies this`state, sys`events, sys`currentMainUI
      ensures sys.Inv()
      ensures state == Lifecycle.Commit(old(state), s)
      ensures old(state) == Closed || old(state) == s ==>
        sys.events == old(sys.events) && sys.currentMainUI == old(sys.currentMainUI)
      ensures old(state) != Closed && old(state) != s ==>
        && sys.events == old(sys.events) + [Callback(this, StateHook(s))] + StateEvents(this, path, old(state), s)
        && sys.currentMainUI == if s == Closed && UnityEq(Some(this), old(sys.currentMainUI), sys.destroyed) then None else old(sys.currentMainUI)
    {
      if state == s || state == Closed {
        return;
      }
      var last := state;
      state := s;
      sys.events := sys.events + [Callback(this, StateHook(s))];
      sys.NotifyPanelStateChanged(this, last, s);
    }

    /** `SetState` as written: nothing stops it from leaving Closed. */
    method SetStateAsWritten(s: StateEnum)
      requires sys.Inv() && this in sys.panels
      modifies this`state, sys`events, sys`currentMainUI
      ensures sys.Inv()
      ensures state == Lifecycle.CommitAsWritten(old(state), s)
      ensures old(state) == s ==>
        sys.events == old(sys.events) && sys.currentMainUI == old(sys.currentMainUI)
      ensures old(state) != s ==>
        && sys.events == old(sys.events) + [Callback(this, StateHook(s))] + StateEvents(this, path, old(state), s)
        && sys.currentMainUI == if s == Closed && UnityEq(Some(this), old(sys.currentMainUI), sys.destroyed) then None else old(sys.currentMainUI)
    {
      if state == s {
        return;
      }
      var last := state;
      state := s;
      sys.events := sys.events + [Callback(this, StateHook(s))];
      sys.NotifyPanelStateChanged(this, last, s);
    }

    /** `Initialize`: runs the creation callbacks (the path is already set). */
    method Initialize()
      modifies sys`events
      ensures sys.events == old(sys.events) + [Callback(this, CreateHook)]
    {
      sys.events := sys.events + [Callback(this, CreateHook)];
    }

    /** `InvokeOnShow`, `InvokeOnHide`, `InvokeOnClose`, `InvokeOnClosed`: the hook
        runs, and an exception it throws is logged and swallowed. */
    method Invoke(h: Hook)
      modifies sys`events
      ensures sys.events == old(sys.events) + [Callback(this, h)]
    {
      sys.events := sys.events + [Callback(this, h)];
    }

    /** `CancelAnimation`: moves the generation on, which cancels every token
        handed out before. */
    method CancelAnimation()
      modifies this`generation
      ensures generation == old(generation) + 1
    {
      generation := generation + 1;
    }

    /** `StartAnimationToken`: cancels the running token and hands out a new one,
        the only current token. */
    method StartAnimationToken() returns (token: nat)
      modifies this`generation
      ensures generation == old(generation) + 1 && token == generation
    {
      generation := generation + 1;
      token := generation;
    }

    /** `ShowAsync` (and `Show`, which repeats its guard and does not wait): only
        a Hidden panel is shown. It is marked showing and activated; without
        animation Shown is committed before the refresh, with animation after it,
        at once when the panel has no animation component to play and otherwise
        when the suspended call ends (`FinishTask`). Activating a destroyed panel
        throws, leaving it marked showing. */
    method ShowAsync(useAnimation: bool) returns (ex: Option<Exception>)
      requires sys.Inv() && this in sys.panels
      modifies this`state, this`isShowing, this`active, this`isAnimationPlaying, this`tasks,
               sys`currentMainUI, sys`events, sys`instanceUIs, sys`maskActive, sys`maskTarget, sys`maskColor,
               sys`currentFocus, sys`refreshes, sys.panels`isFocused
      ensures sys.Inv()
      ensures ex.Some? <==> old(state) == Hidden && this in sys.destroyed
      ensures ex.Some? ==> ex.value == MissingReference && Flags() == old(Flags()).(showing := true) && tasks == old(tasks)
      ensures var o := Lifecycle.PanelShow(old(Flags()), useAnimation, template.hasAnimation);
        ex.None? ==>
          && Flags() == o.flags
          && tasks == old(tasks) + (if o.waits then [Lifecycle.ShowKind] else [])
          && isAnimationPlaying == (o.waits || old(isAnimationPlaying))
      ensures old(sys.events) <= sys.events
    {
      if state != Hidden {
        return None;
      }
      isShowing := true;
      if this in sys.destroyed {
        return Some(MissingReference);
      }
      active := true;
      if !useAnimation {
        SetState(Shown);
        sys.Refresh();
        isShowing := false;
        return None;
      }
      sys.Refresh();
      if template.hasAnimation {
        BeginAnimation(Lifecycle.ShowKind);
        return None;
      }
      SetState(Shown);
      isShowing := false;
      return None;
    }

    /** `ShowAnimationAsync`/`HideAnimationAsync` with an animation component: the
        animation starts (`isAnimationPlaying`, announced) and the call is
        suspended until it ends. */
    method BeginAnimation(k: Lifecycle.Kind)
      modifies this`isAnimationPlaying, this`tasks, sys`events
      ensures isAnimationPlaying && tasks == old(tasks) + [k]
      ensures sys.events == old(sys.events) + [AnimationStateChanged(this, true)]
    {
      isAnimationPlaying := true;
      sys.events := sys.events + [AnimationStateChanged(this, true)];
      tasks := tasks + [k];
    }

    /** `HideAsync` (and `Hide`, which repeats its guard and does not wait): only a
        Shown panel is hidden. It is marked hiding; without animation it is
        deactivated, Hidden is committed and the list refreshed; with animation
        the list is refreshed first and the panel deactivated and Hidden committed
        once the animation has played (at once without an animation component).
        A destroyed panel throws, leaving it marked hiding: without animation at
        its deactivation, with animation right after the refresh, where
        `EnsureAnimationComponent` looks its component up on the destroyed object. */
    method HideAsync(useAnimation: bool) returns (ex: Option<Exception>)
      requires sys.Inv() && this in sys.panels
      modifies this`state, this`isHiding, this`active, this`isAnimationPlaying, this`tasks,
               sys`currentMainUI, sys`events, sys`instanceUIs, sys`maskActive, sys`maskTarget, sys`maskColor,
               sys`currentFocus, sys`refreshes, sys.panels`isFocused
      ensures sys.Inv()
      ensures var o := Lifecycle.PanelHide(old(Flags()), useAnimation, template.hasAnimation);
        && (ex.Some? <==> old(state) == Shown && this in sys.destroyed)
        && (ex.Some? ==> ex.value == MissingReference && Flags() == old(Flags()).(hiding := true) && tasks == old(tasks))
        && (ex.None? ==>
              && Flags() == o.flags
              && tasks == old(tasks) + (if o.waits then [Lifecycle.HideKind] else [])
              && isAnimationPlaying == (o.waits || old(isAnimationPlaying)))
      ensures old(sys.events) <= sys.events
    {
      if state != Shown {
        return None;
      }
      isHiding := true;
      if !useAnimation {
        if this in sys.destroyed {
          return Some(MissingReference);
        }
        active := false;
        SetState(Hidden);
        sys.Refresh();
        isHiding := false;
        return None;
      }
      sys.Refresh();
      if this in sys.destroyed {
        return Some(MissingReference);
      }
      if template.hasAnimation {
        BeginAnimation(Lifecycle.HideKind);
        return None;
      }
      active := false;
      SetState(Hidden);
      isHiding := false;
      return None;
    }

    /** The close itself: the panel is deactivated and commits Hidden, then
        Closed; from Hidden the first commit changes nothing. */
    method CommitClose()
      requires sys.Inv() && this in sys.panels
      modifies this`state, this`active, sys`events, sys`currentMainUI
      ensures sys.Inv()
      ensures Flags() == Lifecycle.Flags(Lifecycle.Commit(Lifecycle.Commit(old(state), Hidden), Closed),
                                         old(isShowing), old(isHiding), false)
      ensures old(sys.events) <= sys.events
    {
      active := false;
      SetState(Hidden);
      SetState(Closed);
    }

    /** `CloseAsync` up to the queued destruction (see `CloseAsync`): whether the
        call is now suspended on the animation, and the exception a destroyed
        panel throws: without animation at its deactivation, with animation right
        after the refresh, where `EnsureAnimationComponent` looks its component up
        on the destroyed object. Without animation the panel is still marked
        hiding at the end. */
    method CloseSteps(useAnimation: bool) returns (waits: bool, ex: Option<Exception>)
      requires sys.Inv() && this in sys.panels && state != Closed
      modifies this`state, this`isHiding, this`active, this`isAnimationPlaying, this`tasks,
               sys`currentMainUI, sys`events, sys`instanceUIs, sys`maskActive, sys`maskTarget, sys`maskColor,
               sys`currentFocus, sys`refreshes, sys.panels`isFocused
      ensures sys.Inv()
      ensures var o := Lifecycle.PanelClose(old(Flags()), useAnimation, template.hasAnimation);
        && (waits <==> o.waits && this !in sys.destroyed)
        && (ex.Some? <==> this in sys.destroyed)
        && (ex.Some? ==> ex.value == MissingReference && Flags() == old(Flags()).(hiding := true) && tasks == old(tasks))
        && (ex.None? ==> tasks == old(tasks) + (if o.waits then [Lifecycle.CloseKind] else []))
        && (ex.None? && useAnimation ==> Flags() == o.flags)
        && (ex.None? && !useAnimation ==> Flags() == o.flags.(hiding := true))
      ensures old(sys.events) <= sys.events
    {
      isHiding := true;
      if !useAnimation {
        if this in sys.destroyed {
          return false, Some(MissingReference);
        }
        CommitClose();
        sys.Refresh();
        return false, None;
      }
      sys.Refresh();
      if this in sys.destroyed {
        return false, Some(MissingReference);
      }
      if template.hasAnimation {
        BeginAnimation(Lifecycle.CloseKind);
        return true, None;
      }
      CommitClose();
      isHiding := false;
      return false, None;
    }

    /** `CloseAsync` (and `Close`, which does not wait): a Closed panel is left
        alone. Otherwise the panel is marked hiding; without animation it is
        closed (`CommitClose`), the list refreshed, and its destruction queued
        (`UISystem.Destroy(this)`) before the mark is cleared; with animation the
        list is refreshed first, and the close, the clearing of the mark and the
        queued destruction follow once the animation has played (at once without
        an animation component). A destroyed panel throws, as in `CloseSteps`,
        leaving it marked hiding. */
    method CloseAsync(useAnimation: bool) returns (ex: Option<Exception>, h: Option<OperationHandle>)
      requires sys.Valid() && this in sys.panels
      modifies this`isAnimationPlaying, this`tasks,
               sys.panels`state, sys.panels`isShowing, sys.panels`isHiding, sys.panels`active, sys.panels`generation, sys.panels`destroyRequested,
               sys.panels`sibling, sys.panels`userData, sys.panels`isFocused,
               sys`currentMainUI, sys`instanceUIs, sys`maskActive, sys`maskTarget, sys`maskColor, sys`currentFocus,
               sys`events, sys`refreshes, sys`persistence, sys`inputSchemes, sys`currentInputScheme,
               sys`suppressRefreshCount, sys`loadedUI, sys`cacheAlive, sys`layers, sys`containers, sys`panels,
               sys`siblingClock, sys`operationQueue, sys`dequeued, sys`suspended, sys`isProcessingQueue,
               sys`operationId, sys`enqueued, sys`handles
      ensures sys.Valid()
      ensures var o := Lifecycle.PanelClose(old(Flags()), useAnimation, template.hasAnimation);
        && (ex.Some? <==> old(state) != Closed && this in sys.destroyed)
        && (ex.Some? ==> ex.value == MissingReference && Flags() == old(Flags()).(hiding := true))
        && (h.Some? <==> old(state) != Closed && this !in sys.destroyed && !o.waits)
        && (h.Some? ==>
              && sys.enqueued == old(sys.enqueued) + [h.value]
              && h.value.Holds(DestroyOp, Some(path), false, None, Some(this), false))
        && (h.None? ==> sys.enqueued == old(sys.enqueued))
        && (ex.None? && h.None? ==>
              && Flags() == o.flags
              && tasks == old(tasks) + (if o.waits then [Lifecycle.CloseKind] else []))
    {
      ex, h := None, None;
      if state != Closed {
        var waits;
        waits, ex := CloseSteps(useAnimation);
        if !waits && ex.None? {
          h := sys.Destroy(Some(this), false);
          if !useAnimation {
            isHiding := false;
          }
        }
      }
    }

    /** The end of the animation of the `i`-th suspended call, up to the queued
        destruction of a close: the animation stops (announced) and the call goes
        on as `PanelFinish` says; nothing cancels it. A hide or close first
        deactivates the panel, which throws when it was destroyed meanwhile. */
    method EndTask(i: nat) returns (k: Lifecycle.Kind, ex: Option<Exception>)
      requires sys.Inv() && this in sys.panels && i < |tasks|
      modifies this`state, this`isShowing, this`isHiding, this`active, this`isAnimationPlaying, this`tasks,
               sys`currentMainUI, sys`events
      ensures sys.Inv()
      ensures k == old(tasks[i]) && tasks == old(tasks[..i] + tasks[i + 1..]) && !isAnimationPlaying
      ensures ex.Some? <==> k != Lifecycle.ShowKind && this in sys.destroyed
      ensures ex.Some? ==> ex.value == MissingReference && Flags() == old(Flags())
      ensures ex.None? ==> Flags() == Lifecycle.PanelFinish(old(Flags()), k)
      ensures old(sys.events) <= sys.events
    {
      k := tasks[i];
      tasks := tasks[..i] + tasks[i + 1..];
      isAnimationPlaying := false;
      sys.events := sys.events + [AnimationStateChanged(this, false)];
      if k != Lifecycle.ShowKind && this in sys.destroyed {
        return k, Some(MissingReference);
      }
      ex := None;
      match k
      case ShowKind =>
        SetState(Shown);
        isShowing := false;
      case HideKind =>
        active := false;
        SetState(Hidden);
        isHiding := false;
      case CloseKind =>
        CommitClose();
        isHiding := false;
    }

    /** The end of the animation of the `i`-th suspended call (`EndTask`); a close
        then queues the panel's destruction. */
    method FinishTask(i: nat) returns (ex: Option<Exception>, h: Option<OperationHandle>)
      requires sys.Valid() && this in sys.panels && i < |tasks|
      modifies this`isAnimationPlaying, this`tasks,
               sys.panels`state, sys.panels`isShowing, sys.panels`isHiding, sys.panels`active, sys.panels`generation, sys.panels`destroyRequested,
               sys.panels`sibling, sys.panels`userData, sys.panels`isFocused,
               sys`currentMainUI, sys`instanceUIs, sys`maskActive, sys`maskTarget, sys`maskColor, sys`currentFocus,
               sys`events, sys`refreshes, sys`persistence, sys`inputSchemes, sys`currentInputScheme,
               sys`suppressRefreshCount, sys`loadedUI, sys`cacheAlive, sys`layers, sys`containers, sys`panels,
               sys`siblingClock, sys`operationQueue, sys`dequeued, sys`suspended, sys`isProcessingQueue,
               sys`operationId, sys`enqueued, sys`handles
      ensures sys.Valid()
      ensures tasks == old(tasks[..i] + tasks[i + 1..])
      ensures var k := old(tasks[i]);
        && (ex.Some? <==> k != Lifecycle.ShowKind && this in sys.destroyed)
        && (ex.Some? ==> ex.value == MissingReference && Flags() == old(Flags()) && !isAnimationPlaying)
        && (h.Some? <==> k == Lifecycle.CloseKind && this !in sys.destroyed)
        && (h.Some? ==>
              && sys.enqueued == old(sys.enqueued) + [h.value]
              && h.value.Holds(DestroyOp, Some(path), false, None, Some(this), false))
        && (h.None? ==> sys.enqueued == old(sys.enqueued))
        && (ex.None? && h.None? ==> Flags() == Lifecycle.PanelFinish(old(Flags()), k) && !isAnimationPlaying)
    {
      var k;
      k, ex := EndTask(i);
      if k != Lifecycle.CloseKind || ex.Some? {
        return ex, None;
      }
      h := sys.Destroy(Some(this), false);
    }

    /** `OnAutoClose`: the panel's `mainUIChangeBehavior` decides, whatever the
        reason: None does nothing, Hide hides a Shown panel, Close closes a panel
        that is not Closed. */
    method OnAutoClose(reason: AutoCloseReason, useAnimation: bool) returns (ex: Option<Exception>, h: Option<OperationHandle>)
      requires sys.Valid() && this in sys.panels
      modifies this`isAnimationPlaying, this`tasks,
               sys.panels`state, sys.panels`isShowing, sys.panels`isHiding, sys.panels`active, sys.panels`generation, sys.panels`destroyRequested,
               sys.panels`sibling, sys.panels`userData, sys.panels`isFocused,
               sys`currentMainUI, sys`instanceUIs, sys`maskActive, sys`maskTarget, sys`maskColor, sys`currentFocus,
               sys`events, sys`refreshes, sys`persistence, sys`inputSchemes, sys`currentInputScheme,
               sys`suppressRefreshCount, sys`loadedUI, sys`cacheAlive, sys`layers, sys`containers, sys`panels,
               sys`siblingClock, sys`operationQueue, sys`dequeued, sys`suspended, sys`isProcessingQueue,
               sys`operationId, sys`enqueued, sys`handles
      ensures sys.Valid()
      ensures var b := template.changeBehavior;
        && (b == ChangeNone || (b == ChangeHide && old(state) != Shown) || (b == ChangeClose && old(state) == Closed) ==>
              ex.None? && h.None? && Flags() == old(Flags()) && sys.enqueued == old(sys.enqueued))
        && (b == ChangeHide && this !in sys.destroyed ==>
              h.None? && Flags() == Lifecycle.PanelHide(old(Flags()), useAnimation, template.hasAnimation).flags)
        && (b == ChangeClose && old(state) != Closed && this !in sys.destroyed ==>
              (h.Some? <==> !(useAnimation && template.hasAnimation)))
    {
      ex, h := None, None;
      match template.changeBehavior
      case ChangeNone =>
      case ChangeHide =>
        if state == Shown {
          ex := HideAsync(useAnimation);
        }
      case ChangeClose =>
        if state != Closed {
          ex, h := CloseAsync(useAnimation);
        }
    }

    /** `PopUI.OnMaskClick`: the pop-up's mask-click operation picks nothing, a
        hide or a close, with or without animation (`PopUIPolicy.OnMaskClick`);
        an operation outside the enum throws. `Hide` acts only on a Shown panel. */
    method PopMaskClick() returns (thrown: Option<Exception>, ex: Option<Exception>, h: Option<OperationHandle>)
      requires sys.Valid() && this in sys.panels && template.pop.Some?
      modifies this`isAnimationPlaying, this`tasks,
               sys.panels`state, sys.panels`isShowing, sys.panels`isHiding, sys.panels`active, sys.panels`generation, sys.panels`destroyRequested,
               sys.panels`sibling, sys.panels`userData, sys.panels`isFocused,
               sys`currentMainUI, sys`instanceUIs, sys`maskActive, sys`maskTarget, sys`maskColor, sys`currentFocus,
               sys`events, sys`refreshes, sys`persistence, sys`inputSchemes, sys`currentInputScheme,
               sys`suppressRefreshCount, sys`loadedUI, sys`cacheAlive, sys`layers, sys`containers, sys`panels,
               sys`siblingClock, sys`operationQueue, sys`dequeued, sys`suspended, sys`isProcessingQueue,
               sys`operationId, sys`enqueued, sys`handles
      ensures sys.Valid()
      ensures var act := PopUIPolicy.OnMaskClick(template.pop.value.maskClickOperation);
        && (thrown.Some? <==> act.Err?)
        && (thrown.Some? ==> thrown.value == ArgumentOutOfRange)
        && (act.Err? || act.value == PopUIPolicy.NoAction ==>
              ex.None? && h.None? && Flags() == old(Flags()) && sys.enqueued == old(sys.enqueued))
        && (act.Ok? && act.value.HideAction? && this !in sys.destroyed ==>
              h.None? && Flags() == Lifecycle.PanelHide(old(Flags()), act.value.useAnimation, template.hasAnimation).flags)
        && (act.Ok? && act.value.CloseAction? && this !in sys.destroyed ==>
              (h.Some? <==> old(state) != Closed && !(act.value.useAnimation && template.hasAnimation)))
    {
      match PopUIPolicy.OnMaskClick(template.pop.value.maskClickOperation)
      case Err(e) =>
        return Some(e), None, None;
      case Ok(act) =>
        match act
        case NoAction =>
          return None, None, None;
        case HideAction(animate) =>
          ex := None;
          if state == Shown {
            ex := HideAsync(animate);
          }
          return None, ex, None;
        case CloseAction(animate) =>
          ex, h := CloseAsync(animate);
          return None, ex, h;
    }

    /** `RegisterView`. */
    method RegisterView()
      modifies this`views
      ensures views == old(views) + 1
    {
      views := views + 1;
    }
  }

  /** `UIOperationHandle`: one queued operation and its outcome. */
  class OperationHandle {
    const id: int
    const opType: OperationType
    const path: Option<string>
    const useAnimation: bool
    const userData: Option<UserData>
    const target: Option<Panel>
    const force: bool
    var panel: Option<Panel>
    var state: OperationState
    var exception: Option<Exception>

    /** A new handle is Pending; the request fields are set once, here. */
    constructor(id: int, opType: OperationType, path: Option<string>, useAnimation: bool,
                userData: Option<UserData>, target: Option<Panel>, force: bool)
      ensures this.id == id && this.opType == opType && this.path == path
      ensures this.useAnimation == useAnimation && this.userData == userData
      ensures this.target == target && this.force == force
      ensures state == Pending && panel.None? && exception.None?
    {
      this.id := id;
      this.opType := opType;
      this.path := path;
      this.useAnimation := useAnimation;
      this.userData := userData;
      this.target := target;
      this.force := force;
      panel := None;
      state := Pending;
      exception := None;
    }

    /** The handle was made for this request. */
    predicate Holds(opType: OperationType, path: Option<string>, useAnimation: bool, userData: Option<UserData>,
                    target: Option<Panel>, force: bool)
    {
      && this.opType == opType && this.path == path && this.useAnimation == useAnimation
      && this.userData == userData && this.target == target && this.force == force
    }

    /** `IsCompleted`: the operation has run to an end, so it is neither waiting
        in the queue nor running. */
    predicate IsCompleted()
      reads this
      ensures IsCompleted() <==> state != Pending && state != Running
    {
      state == Completed || state == Failed || state == Canceled
    }

    /** `TryGetPanel()`: the result panel once Completed, null before and on
        failure. */
    function TryGetPanel(): (r: Option<Panel>)
      reads this
      ensures state == Completed ==> r == panel
      ensures state != Completed ==> r.None?
    {
      if state == Completed then panel else None
    }

    /** `TryGetPanel(out result)`: `result` is the panel once Completed and null
        otherwise; the answer is Unity's `result != null`, so a destroyed result
        panel gives false while `result` still refers to it. */
    function TryGetPanelOut(destroyed: set<Panel>): (r: (bool, Option<Panel>))
      reads this
      ensures r.1 == TryGetPanel()
      ensures r.0 <==> state == Completed && IsLive(panel, destroyed)
      ensures r.0 ==> r.1 == panel && r.1.Some?
      ensures state != Completed ==> !r.0 && r.1.None?
    {
      var result := if state == Completed then panel else None;
      (IsLive(result, destroyed), result)
    }
  }

  /** `UISystem`: the panel system. */
  class UISystem {
    /** `EzUISettings.Instance` (may be missing). */
    const settings: Option<Settings>
    /** `DefaultGameInputScheme`. */
    const defaultScheme: string
    /** `_uiRoot != null`. */
    var hasRoot: bool
    /** `_mask != null`. */
    var hasMask: bool
    /** The mask button calls `OnMaskClick`. */
    var maskListening: bool
    /** The mask button is enabled. */
    var maskButtonEnabled: bool
    var maskActive: bool
    var maskTarget: Option<Panel>
    /** The mask image colour. */
    var maskColor: Color
    /** `_instanceUIs`: the live panel list. */
    var instanceUIs: seq<Panel>
    /** `_persistenceUI`. */
    var persistence: set<Panel>
    /** `_loadedUI`: the template cache, path to prefab. */
    var loadedUI: map<string, Template>
    /** Paths whose cached prefab has not been unloaded. */
    var cacheAlive: set<string>
    /** `_layers`: layer number to container. */
    var layers: map<int, nat>
    /** Number of layer containers made so far (the next container's handle). */
    var containers: nat
    /** Last sibling position handed out under a layer container. */
    var siblingClock: int
    /** `_currentUIFocus`. */
    var currentFocus: Option<Panel>
    /** `_currentMainUI`. */
    var currentMainUI: Option<Panel>
    /** `_inputSchemes`. */
    var inputSchemes: seq<(Panel, string)>
    /** `CurrentInputScheme`. */
    var currentInputScheme: string
    /** `_operationQueue`. */
    var operationQueue: seq<OperationHandle>
    /** `_isProcessingQueue`. */
    var isProcessingQueue: bool
    /** `_operationId`. */
    var operationId: int
    /** Where the drain waits, if it waits for an animation. */
    var suspended: Option<Suspension>
    /** `_suppressRefreshCount`. */
    var suppressRefreshCount: nat
    /** `_loadingHandler`. */
    var loadingHandler: Option<LoadingHandler>
    /** The panels Unity has destroyed: `!panel` holds for them. */
    var destroyed: set<Panel>
    /** Dispatched events, log lines and callbacks, in order. */
    var events: seq<UIEvent>
    /** The resources `path.LoadAsset<GameObject>()` finds. */
    var assets: map<string, Asset>
    /** Paths for which `PrefabBuilder.Build()` returns null. */
    var unbuildable: set<string>
    /** Every panel this system made. */
    ghost var panels: set<Panel>
    /** The number of refreshes that did their work (`RefreshUI` calls that were
        not switched off). */
    ghost var refreshes: nat
    /** Every handle this system queued. */
    ghost var handles: set<OperationHandle>
    /** Every handle ever queued, in queue order. */
    ghost var enqueued: seq<OperationHandle>
    /** The handles taken off the queue, in order. */
    ghost var dequeued: seq<OperationHandle>

    /** The registry invariant (`RegistryHolds` of the fields). */
    ghost predicate RegistryInv()
      reads this`panels, this`instanceUIs, this`persistence
    {
      RegistryHolds(this, panels, instanceUIs, persistence)
    }

    /** The pointer invariant (`PointersHold` of the fields). */
    ghost predicate PointerInv()
      reads this`panels, this`maskTarget, this`currentFocus, this`currentMainUI
    {
      PointersHold(panels, maskTarget, currentFocus, currentMainUI)
    }

    /** The input-scheme invariant (`SchemesHold` of the fields). */
    ghost predicate SchemeInv()
      reads this`panels, this`inputSchemes, this`currentInputScheme
    {
      SchemesHold(panels, inputSchemes, currentInputScheme, defaultScheme)
    }

    /** The handle invariant (`HandlesHold` of the fields). */
    ghost predicate HandleInv()
      reads this`panels, this`enqueued, this`suspended
    {
      HandlesHold(panels, enqueued, suspended)
    }

    /** The panel invariant: the registry, the pointers and the input schemes. */
    ghost predicate Inv()
      reads this`panels, this`instanceUIs, this`persistence, this`maskTarget, this`currentFocus, this`currentMainUI,
            this`inputSchemes, this`currentInputScheme
    {
      RegistryInv() && PointerInv() && SchemeInv()
    }

    /** The queue invariant: first in, first out (what was queued is what was
        taken followed by what waits); queued handles are Pending; taken handles
        are Completed or Failed, except the last one while the drain is `busy`
        with it, which is Running; the drain awaits the last handle taken; ids
        increase in queue order and none exceeds the last id given out. */
    ghost predicate QueueInv(busy: bool)
      reads this`handles, this`enqueued, this`dequeued, this`operationQueue, this`suspended, this`operationId, handles
    {
      && enqueued == dequeued + operationQueue
      && (forall i | 0 <= i < |enqueued| :: enqueued[i] in handles)
      && (forall i | |dequeued| <= i < |enqueued| :: enqueued[i].state == Pending)
      && (forall i | 0 <= i < |dequeued| ::
            enqueued[i].state == Completed || enqueued[i].state == Failed
            || (busy && i == |dequeued| - 1 && enqueued[i].state == Running))
      && (forall i, j | 0 <= i < j < |enqueued| :: enqueued[i].id < enqueued[j].id)
      && (forall i | 0 <= i < |enqueued| :: enqueued[i].id <= operationId)
      && (suspended.Some? ==> |dequeued| > 0 && dequeued[|dequeued| - 1] == suspended.value.handle)
    }

    /** The system at rest: between two calls, at most one drain exists, and it
        exists exactly while it awaits an animation; nothing suppresses
        refreshes. */
    ghost predicate Valid()
      reads this`panels, this`instanceUIs, this`persistence, this`maskTarget, this`currentFocus, this`currentMainUI,
            this`inputSchemes, this`currentInputScheme,
            this`handles, this`enqueued, this`dequeued, this`operationQueue, this`suspended, this`suppressRefreshCount,
            this`operationId, this`isProcessingQueue, handles
    {
      && Inv()
      && HandleInv()
      && QueueInv(suspended.Some?)
      && suppressRefreshCount == 0
      && (isProcessingQueue <==> suspended.Some?)
      && (!isProcessingQueue ==> operationQueue == [])
    }

    /** The live list lost no live panel and gained none. */
    twostate predicate ListKept()
      reads this
    {
      && (forall p | p in instanceUIs :: p in old(instanceUIs))
      && (forall p | p in old(instanceUIs) && p !in destroyed :: p in instanceUIs)
    }

    /** `OnInitializeAsync` in automatic mode: the input scheme starts at the
        default, the root is created (or not) and `InitMask` runs. */
    constructor(settings: Option<Settings>, defaultScheme: string, hasRoot: bool,
                assets: map<string, Asset>, unbuildable: set<string>)
      ensures Valid()
      ensures this.settings == settings && this.defaultScheme == defaultScheme && this.hasRoot == hasRoot
      ensures this.assets == assets && this.unbuildable == unbuildable
      ensures currentInputScheme == defaultScheme && inputSchemes == []
      ensures instanceUIs == [] && persistence == {} && panels == {} && handles == {}
      ensures operationQueue == [] && !isProcessingQueue && operationId == 0 && suspended.None?
      ensures hasMask == hasRoot && !maskActive && maskTarget.None? && currentFocus.None? && currentMainUI.None?
      ensures hasRoot ==> maskColor == MaskColorOf(None, settings) && maskListening == (settings.None? || settings.value.maskClickable)
      ensures loadedUI == map[] && layers == map[] && loadingHandler.None? && events == []
    {
      this.settings := settings;
      this.defaultScheme := defaultScheme;
      this.hasRoot := hasRoot;
      this.assets := assets;
      this.unbuildable := unbuildable;
      hasMask := false;
      maskListening := false;
      maskButtonEnabled := true;
      maskActive := false;
      maskTarget := None;
      maskColor := DefaultMaskColor;
      instanceUIs := [];
      persistence := {};
      loadedUI := map[];
      cacheAlive := {};
      layers := map[];
      containers := 0;
      siblingClock := 0;
      currentFocus := None;
      currentMainUI := None;
      inputSchemes := [];
      currentInputScheme := defaultScheme;
      operationQueue := [];
      isProcessingQueue := false;
      operationId := 0;
      suspended := None;
      suppressRefreshCount := 0;
      loadingHandler := None;
      events := [];
      destroyed := {};
      panels := {};
      handles := {};
      enqueued := [];
      dequeued := [];
      refreshes := 0;
      new;
      EmptySystemHolds(this, defaultScheme);
      InitMask();
    }

    /** `InitMask`: without a root nothing happens; otherwise the mask is made,
        inactive, in the settings colour, and its button calls `OnMaskClick` when
        the settings allow mask clicks and is disabled otherwise. */
    method InitMask()
      modifies this`hasMask, this`maskColor, this`maskListening, this`maskButtonEnabled, this`maskActive
      ensures !hasRoot ==> unchanged(this`hasMask, this`maskColor, this`maskListening, this`maskButtonEnabled, this`maskActive)
      ensures hasRoot ==> hasMask && !maskActive && maskColor == MaskColorOf(None, settings)
      ensures hasRoot ==> var clickable := settings.None? || settings.value.maskClickable;
        maskListening == clickable && maskButtonEnabled == clickable
    {
      if !hasRoot {
        return;
      }
      maskColor := MaskColorOf(None, settings);
      var clickable := settings.None? || settings.value.maskClickable;
      maskListening := clickable;
      maskButtonEnabled := clickable;
      hasMask := true;
      maskActive := false;
    }

    /** `SetLoadingHandler`. */
    method SetLoadingHandler(handler: Option<LoadingHandler>)
      modifies this`loadingHandler
      ensures loadingHandler == handler
    {
      loadingHandler := handler;
    }

    /** `NotifyPanelStateChanged`: the generic event, the event of the new state,
        and, when a panel reaches Closed while it is the current main screen (by
        Unity's comparison), the current main screen is cleared. */
    method NotifyPanelStateChanged(panel: Panel, previous: StateEnum, current: StateEnum)
      requires Inv() && panel in panels
      modifies this`events, this`currentMainUI
      ensures Inv()
      ensures events == old(events) + StateEvents(panel, panel.path, previous, current)
      ensures currentMainUI == if current == Closed && UnityEq(Some(panel), old(currentMainUI), destroyed) then None else old(currentMainUI)
    {
      events := events + StateEvents(panel, panel.path, previous, current);
      if current == Closed && UnityEq(Some(panel), currentMainUI, destroyed) {
        currentMainUI := None;
      }
    }

    /** The index of the first live panel of `s` whose path is `path`. */
    static function FindIndex(s: seq<Panel>, path: Option<string>, destroyed: set<Panel>): (r: Option<nat>)
      ensures r.Some? ==> r.value < |s| && s[r.value] !in destroyed && Some(s[r.value].path) == path
      ensures r.Some? ==> forall j | 0 <= j < r.value :: !(s[j] !in destroyed && Some(s[j].path) == path)
      ensures r.None? ==> forall j | 0 <= j < |s| :: !(s[j] !in destroyed && Some(s[j].path) == path)
    {
      if |s| == 0 then None
      else if s[0] !in destroyed && Some(s[0].path) == path then Some(0)
      else
        match FindIndex(s[1..], path, destroyed)
        case None => None
        case Some(k) => Some(k + 1)
    }

    /** `FindUI(path)`: the first live panel of the list with that path, or null. */
    function FindUI(path: Option<string>): (r: Option<Panel>)
      reads this`instanceUIs, this`destroyed
      ensures r.Some? ==> r.value in instanceUIs && r.value !in destroyed && Some(r.value.path) == path
      ensures r.None? <==> forall p | p in instanceUIs :: !(p !in destroyed && Some(p.path) == path)
    {
      var k := FindIndex(instanceUIs, path, destroyed);
      if k.Some? then Some(instanceUIs[k.value]) else None
    }

    /** Refreshing is switched on: nothing suppresses it and the root and the mask
        exist. */
    predicate RefreshEnabled()
      reads this`suppressRefreshCount, this`hasRoot, this`hasMask
    {
      suppressRefreshCount <= 0 && hasRoot && hasMask
    }

    /** The views of a list of panels. */
    static function ViewsOf(s: seq<Panel>): (vs: seq<Resolver.PanelView>)
      reads s`state, s`isShowing, s`sibling
      ensures |vs| == |s|
    {
      if |s| == 0 then [] else [s[0].View()] + ViewsOf(s[1..])
    }

    /** The `i`-th view is the view of the `i`-th panel. */
    static lemma {:induction false} ViewsOfAt(s: seq<Panel>, i: nat)
      requires i < |s|
      ensures ViewsOf(s)[i] == s[i].View()
    {
      if i > 0 {
        ViewsOfAt(s[1..], i - 1);
      }
    }

    /** The views of `s` are what they were when no panel of `s` changed what its
        view reads. */
    static twostate lemma {:induction false} SameViews(s: seq<Panel>)
      requires forall i | 0 <= i < |s| ::
        s[i].state == old(s[i].state) && s[i].isShowing == old(s[i].isShowing) && s[i].sibling == old(s[i].sibling)
      ensures ViewsOf(s) == old(ViewsOf(s))
    {
      if |s| > 0 {
        SameViews(s[1..]);
      }
    }

    /** `SortUI`: sorts the live list by the comparator; a permutation of it. */
    method SortUI()
      requires Inv()
      modifies this`instanceUIs
      ensures Inv()
      ensures multiset(instanceUIs) == multiset(old(instanceUIs))
      ensures Resolver.Sorted(ViewsOf(instanceUIs))
    {
      var view := map p | p in instanceUIs :: p.View();
      var sorted := Resolver.SortByView(instanceUIs, view);
      ghost var vs := ViewsOf(sorted);
      forall i | 0 <= i < |sorted|
        ensures vs[i] == view[sorted[i]]
      {
        ViewsOfAt(sorted, i);
        assert sorted[i] in multiset(sorted);
      }
      Resolver.SortedByGivesSorted(sorted, view, vs);
      PermutationKeepsDistinct(instanceUIs, sorted);
      forall i | 0 <= i < |sorted|
        ensures sorted[i] in panels
      {
        assert sorted[i] in multiset(instanceUIs);
      }
      instanceUIs := sorted;
    }

    /** `RefreshUI`. Switched off it does nothing. Otherwise it drops destroyed
        panels, sorts the list, gives the mask to the first visible panel using the
        mask (in that panel's colour, else the settings', else the default) or
        hides it, moves the focus to the first visible focus holder (keeping the
        old holder when there is none), and dispatches the focus and mask events
        only on change. */
    method RefreshUI()
      requires Inv()
      modifies this`instanceUIs, this`maskActive, this`maskTarget, this`maskColor, this`currentFocus, this`events,
               this`refreshes, panels`isFocused
      ensures Inv()
      ensures !old(RefreshEnabled()) ==> unchanged(this) && unchanged(panels)
      ensures old(RefreshEnabled()) ==>
        && refreshes == old(refreshes) + 1
        && multiset(instanceUIs) == multiset(LiveOnly(old(instanceUIs), destroyed))
        && Resolver.Sorted(ViewsOf(instanceUIs))
        && Resolved(instanceUIs, ViewsOf(instanceUIs), settings, old(maskColor), old(currentFocus),
                    maskActive, maskTarget, maskColor, currentFocus)
        && events == old(events) + FocusEvents(old(currentFocus), currentFocus)
                     + MaskEvents(old(maskActive), old(maskTarget), maskActive, maskTarget, destroyed)
    {
      if suppressRefreshCount > 0 || !hasRoot || !hasMask {
        return;
      }
      // `_currentMainUI != null && !_currentMainUI` uses Unity's comparison on both
      // sides, so it never holds and the pointer is never cleared here.
      refreshes := refreshes + 1;
      PruneAndSort();
      ResolveMaskAndFocus();
    }

    /** `RefreshUI` as the operations see it: the invariant, the refresh count
        and the event log growing. */
    method Refresh()
      requires Inv()
      modifies this`instanceUIs, this`maskActive, this`maskTarget, this`maskColor, this`currentFocus, this`events,
               this`refreshes, panels`isFocused
      ensures Inv()
      ensures refreshes == old(refreshes) + (if RefreshEnabled() then 1 else 0)
      ensures !RefreshEnabled() ==> unchanged(this)
      ensures ListKept()
      ensures old(events) <= events
    {
      ghost var before := instanceUIs;
      RefreshUI();
      if RefreshEnabled() {
        LiveMembers(before, instanceUIs, destroyed);
      }
    }

    /** The focus part of `RefreshUI`: when the holder is not the current focus,
        the old focus loses it and the holder gains it. */
    method MoveFocus(holder: Panel)
      requires Inv() && holder in panels
      modifies this`currentFocus, panels`isFocused
      ensures Inv()
      ensures currentFocus == Some(holder)
      ensures old(currentFocus) != Some(holder) ==>
        holder.isFocused && (old(currentFocus).Some? ==> !old(currentFocus).value.isFocused)
      ensures forall p | p in panels && p != holder && Some(p) != old(currentFocus) :: p.isFocused == old(p.isFocused)
      ensures old(currentFocus) == Some(holder) ==> forall p | p in panels :: p.isFocused == old(p.isFocused)
    {
      if currentFocus != Some(holder) {
        if currentFocus.Some? {
          currentFocus.value.isFocused := false;
        }
        currentFocus := Some(holder);
        holder.isFocused := true;
      }
    }

    /** The first half of `RefreshUI`: destroyed panels are dropped and the rest
        sorted by the comparator. */
    method PruneAndSort()
      requires Inv()
      modifies this`instanceUIs
      ensures Inv()
      ensures multiset(instanceUIs) == multiset(LiveOnly(old(instanceUIs), destroyed))
      ensures Resolver.Sorted(ViewsOf(instanceUIs))
    {
      var live := LiveOnly(instanceUIs, destroyed);
      forall i | 0 <= i < |live|
        ensures live[i] in panels
      {
        assert live[i] in instanceUIs;
      }
      instanceUIs := live;
      SortUI();
    }

    /** The second half of `RefreshUI`: one scan of the sorted list finds the mask
        target and the focus holder; the mask follows the target (or goes off),
        the focus moves to the holder (or stays), and the events report changes. */
    method ResolveMaskAndFocus()
      requires Inv()
      modifies this`maskActive, this`maskTarget, this`maskColor, this`currentFocus, this`events, panels`isFocused
      ensures Inv()
      ensures ViewsOf(instanceUIs) == old(ViewsOf(instanceUIs))
      ensures Resolved(instanceUIs, ViewsOf(instanceUIs), settings, old(maskColor), old(currentFocus),
                       maskActive, maskTarget, maskColor, currentFocus)
      ensures events == old(events) + FocusEvents(old(currentFocus), currentFocus)
                        + MaskEvents(old(maskActive), old(maskTarget), maskActive, maskTarget, destroyed)
    {
      var prevFocus, prevMaskActive, prevMaskTarget := currentFocus, maskActive, maskTarget;
      var vs := ViewsOf(instanceUIs);
      var m, f := Resolver.ScanMaskAndFocus(vs);
      ApplyMask(if m.Some? then Some(instanceUIs[m.value]) else None);
      if f.Some? {
        MoveFocus(instanceUIs[f.value]);
      }
      events := events + FocusEvents(prevFocus, currentFocus) + MaskEvents(prevMaskActive, prevMaskTarget, maskActive, maskTarget, destroyed);
      SameViews(instanceUIs);
    }

    /** The mask part of `RefreshUI`: the mask goes to the target, in the target's
        colour (else the settings', else the default), or is switched off and
        keeps its colour. */
    method ApplyMask(target: Option<Panel>)
      requires Inv() && (target.Some? ==> target.value in panels)
      modifies this`maskTarget, this`maskColor, this`maskActive
      ensures Inv()
      ensures maskTarget == target && maskActive == target.Some?
      ensures maskColor == if target.Some? then MaskColorOf(target.value.template.maskColor, settings) else old(maskColor)
    {
      maskTarget := None;
      if target.Some? {
        maskTarget := target;
        maskColor := MaskColorOf(target.value.template.maskColor, settings);
      }
      maskActive := target.Some?;
    }

    /** `SetInputScheme`: ignores a null (or destroyed) owner; otherwise removes the
        owner's entries, pushes a scheme that is not blank, and dispatches
        `UIInputSchemeChanged` only when the effective scheme changes. */
    method SetInputScheme(owner: Option<Panel>, scheme: Option<string>)
      requires Inv() && (owner.Some? ==> owner.value in panels)
      modifies this`inputSchemes, this`currentInputScheme, this`events
      ensures Inv()
      ensures !IsLive(owner, destroyed) ==> unchanged(this)
      ensures IsLive(owner, destroyed) ==> inputSchemes == InputSchemes.Upsert(old(inputSchemes), owner.value, scheme)
      ensures IsLive(owner, destroyed) ==>
        events == old(events) +
          if currentInputScheme != old(currentInputScheme)
          then [InputSchemeChanged(old(currentInputScheme), currentInputScheme, |inputSchemes|, owner.value)]
          else []
    {
      if !IsLive(owner, destroyed) {
        return;
      }
      var o := owner.value;
      InputSchemes.UpsertSpec(inputSchemes, o, scheme, defaultScheme);
      var list := InputSchemes.RemoveOwnerBackwards(inputSchemes, o);
      if !IsBlank(scheme) {
        list := list + [(o, scheme.value)];
      }
      inputSchemes := list;
      assert inputSchemes == InputSchemes.Upsert(old(inputSchemes), o, scheme);
      forall i | 0 <= i < |inputSchemes|
        ensures inputSchemes[i].0 in panels
      {
        if inputSchemes[i].0 != o {
          assert inputSchemes[i] in InputSchemes.RemoveOwner(old(inputSchemes), o);
        }
      }
      var next := InputSchemes.Effective(inputSchemes, defaultScheme);
      if next == currentInputScheme {
        return;
      }
      var prev := currentInputScheme;
      currentInputScheme := next;
      events := events + [InputSchemeChanged(prev, next, |inputSchemes|, o)];
    }

    /** `SetPersistenceUI`: adds a live panel to the persistent set; null and
        members change nothing. */
    method SetPersistenceUI(panel: Option<Panel>)
      requires Inv() && (panel.Some? ==> panel.value in panels)
      modifies this`persistence
      ensures Inv()
      ensures persistence == if IsLive(panel, destroyed) then old(persistence) + {panel.value} else old(persistence)
    {
      if !IsLive(panel, destroyed) {
        return;
      }
      if panel.value in persistence {
        return;
      }
      persistence := persistence + {panel.value};
    }

    /** `CancelPersistenceUI`: removes a live panel from the persistent set; null and
        non-members change nothing. */
    method CancelPersistenceUI(panel: Option<Panel>)
      requires Inv()
      modifies this`persistence
      ensures Inv()
      ensures persistence == if IsLive(panel, destroyed) then old(persistence) - {panel.value} else old(persistence)
    {
      if !IsLive(panel, destroyed) {
        return;
      }
      if panel.value !in persistence {
        return;
      }
      persistence := persistence - {panel.value};
    }

    /** `LoadUI` finds a template for `path` (from the cache or the assets). */
    predicate Loads(path: string)
      reads this`loadedUI, this`cacheAlive, this`assets
    {
      (path in loadedUI && path in cacheAlive) || (path in assets && assets[path].PanelAsset?)
    }

    /** The template `LoadUI` returns for `path`. */
    function TemplateFor(path: string): Template
      requires Loads(path)
      reads this`loadedUI, this`cacheAlive, this`assets
    {
      if path in loadedUI && path in cacheAlive then loadedUI[path] else assets[path].template
    }

    /** `LoadUI`: a cached prefab that is still alive is returned; a dead entry is
        dropped before loading again. A missing asset logs a warning and yields
        null; an asset without a `Panel` yields null; a loaded prefab is cached
        under its path. */
    method LoadUI(path: string) returns (t: Option<Template>)
      modifies this`loadedUI, this`cacheAlive, this`events
      ensures t.Some? <==> old(Loads(path))
      ensures t.Some? ==> t.value == old(TemplateFor(path)) && path in loadedUI && path in cacheAlive && loadedUI[path] == t.value
      ensures old(path in loadedUI && path in cacheAlive) ==>
        loadedUI == old(loadedUI) && cacheAlive == old(cacheAlive) && events == old(events)
      ensures !old(path in loadedUI && path in cacheAlive) ==>
        && (old(path !in assets) ==> events == old(events) + [Warning(path)] && loadedUI == old(loadedUI) - {path})
        && (old(path in assets) ==> events == old(events))
        && (old(path in assets && assets[path].NonPanelAsset?) ==> loadedUI == old(loadedUI) - {path})
        && (t.Some? ==> loadedUI == old(loadedUI)[path := t.value] && cacheAlive == old(cacheAlive) + {path})
    {
      if path in loadedUI {
        if path in cacheAlive {
          return Some(loadedUI[path]);
        }
        loadedUI := loadedUI - {path};
      }
      if path !in assets {
        events := events + [Warning(path)];
        return None;
      }
      if assets[path].NonPanelAsset? {
        return None;
      }
      var template := assets[path].template;
      loadedUI := loadedUI[path := template];
      cacheAlive := cacheAlive + {path};
      return Some(template);
    }

    /** `GetLayer`: the cached container of layer `n`, or a new one made and
        recorded by `CreateLayer`. */
    method GetLayer(n: int) returns (c: Option<nat>)
      modifies this`layers, this`containers
      ensures n in old(layers) ==> c == Some(old(layers)[n]) && layers == old(layers) && containers == old(containers)
      ensures n !in old(layers) && !hasRoot ==> c.None? && layers == old(layers) && containers == old(containers)
      ensures n !in old(layers) && hasRoot ==>
        c == Some(old(containers)) && layers == old(layers)[n := old(containers)] && containers == old(containers) + 1
      ensures c.Some? ==> n in layers && layers[n] == c.value
    {
      if n in layers {
        return Some(layers[n]);
      }
      c := CreateLayer(n);
    }

    /** `CreateLayer`: without a UI root nothing is made or recorded; otherwise a
        new container is recorded under `n`. */
    method CreateLayer(n: int) returns (c: Option<nat>)
      modifies this`layers, this`containers
      ensures !hasRoot ==> c.None? && layers == old(layers) && containers == old(containers)
      ensures hasRoot ==> c == Some(old(containers)) && layers == old(layers)[n := old(containers)] && containers == old(containers) + 1
    {
      if !hasRoot {
        return None;
      }
      c := Some(containers);
      layers := layers[n := containers];
      containers := containers + 1;
    }

    /** Appends a panel made by this system to the live list. */
    method Register(p: Panel)
      requires Inv() && p.sys == this && p !in panels
      modifies this`instanceUIs, this`panels
      ensures Inv()
      ensures instanceUIs == old(instanceUIs) + [p] && panels == old(panels) + {p}
    {
      DistinctAppend(instanceUIs, p);
      instanceUIs := instanceUIs + [p];
      panels := panels + {p};
    }

    /** `Instantiate`: builds a panel from the template of `path` under its layer
        container, appends it to the live list, injects the system, initialises it
        with `path` and dispatches `UIPanelCreated`. Without a template, or when
        the build fails, it yields null and the list is unchanged. */
    method Instantiate(path: string) returns (ui: Option<Panel>)
      requires Inv()
      modifies this`loadedUI, this`cacheAlive, this`events, this`layers, this`containers,
               this`instanceUIs, this`panels, this`siblingClock
      ensures Inv()
      ensures ui.Some? <==> old(Loads(path)) && path !in unbuildable
      ensures old(Loads(path)) ==> path in loadedUI && path in cacheAlive
      ensures ui.None? ==> instanceUIs == old(instanceUIs) && panels == old(panels)
      ensures ui.Some? ==>
        && fresh(ui.value)
        && instanceUIs == old(instanceUIs) + [ui.value]
        && panels == old(panels) + {ui.value}
        && ui.value.template == old(TemplateFor(path))
        && ui.value.path == path && ui.value.sys == this
        && ui.value.state == Hidden && !ui.value.isShowing && !ui.value.isHiding && !ui.value.active
        && ui.value !in destroyed && !ui.value.destroyRequested && ui.value.generation == 0
        && ui.value.userData.None? && !ui.value.isFocused
        && |events| > 0 && events[|events| - 1] == PanelCreated(ui.value, path)
      ensures old(events) <= events
    {
      var t := LoadUI(path);
      if t.None? {
        return None;
      }
      var layer := GetLayer(t.value.layer);
      if path in unbuildable {
        return None;
      }
      var p := Build(t.value, layer, path);
      return Some(p);
    }

    /** The successful end of `Instantiate`: a new inactive Hidden panel under the
        container, last in its layer, registered, initialised and announced. */
    method Build(t: Template, layer: Option<nat>, path: string) returns (p: Panel)
      requires Inv()
      modifies this`events, this`instanceUIs, this`panels, this`siblingClock
      ensures Inv()
      ensures fresh(p)
      ensures instanceUIs == old(instanceUIs) + [p] && panels == old(panels) + {p}
      ensures p.template == t && p.path == path && p.sys == this && p.parent == layer
      ensures p.state == Hidden && !p.isShowing && !p.isHiding && !p.active
      ensures p !in destroyed && !p.destroyRequested && p.generation == 0 && p.tasks == []
      ensures p.userData.None? && !p.isFocused
      ensures events == old(events) + [Callback(p, CreateHook), PanelCreated(p, path)]
    {
      siblingClock := siblingClock + 1;
      p := new Panel(this, t, layer, siblingClock, path);
      Register(p);
      p.Initialize();
      events := events + [PanelCreated(p, path)];
    }
    /** `SystemShowAsync` (and `SystemShow`, which repeats its guards). A destroyed
        panel, or one that is not Hidden, is left alone. Without animation the
        show happens at once (`ShowNow`). With animation it starts
        (`BeginShowAnimation`) and then waits when the panel has an animation
        component; without one the animation ends at once, nothing can have
        cancelled the token in between, and Shown is committed. */
    method SystemShowAsync(ui: Panel, useAnimation: bool) returns (w: Option<Animation>)
      requires Inv() && ui in panels
      modifies ui`state, ui`isShowing, ui`active, ui`generation, this`currentMainUI,
               this`instanceUIs, this`maskActive, this`maskTarget, this`maskColor, this`currentFocus, this`events,
               this`refreshes, panels`isFocused
      ensures Inv()
      ensures var o := Lifecycle.SystemShow(old(ui.Flags()), useAnimation, ui.template.hasAnimation);
        && ui.Flags() == (if ui in destroyed then old(ui.Flags()) else o.flags)
        && (w.Some? <==> ui !in destroyed && o.waits)
      ensures w.Some? ==> w.value == Animation(ui, Lifecycle.ShowKind, ui.generation)
      ensures var acts := ui !in destroyed && old(ui.state) == Hidden;
        && ui.generation == old(ui.generation) + (if acts then 1 else 0)
        && refreshes == old(refreshes) + (if acts && RefreshEnabled() then 1 else 0)
        && (!acts ==> unchanged(this))
      ensures old(events) <= events
    {
      if ui in destroyed || ui.state != Hidden {
        return None;
      }
      if !useAnimation {
        ShowNow(ui);
        return None;
      }
      var token := BeginShowAnimation(ui);
      if ui.template.hasAnimation {
        return Some(Animation(ui, Lifecycle.ShowKind, token));
      }
      CommitShown(ui);
      return None;
    }

    /** The show without animation: the token is cancelled, the panel activated
        and marked showing, `OnShow` run, Shown committed, the list refreshed, and
        the mark cleared. */
    method ShowNow(ui: Panel)
      requires Inv() && ui in panels && ui.state == Hidden
      modifies ui`state, ui`isShowing, ui`active, ui`generation, this`currentMainUI,
               this`instanceUIs, this`maskActive, this`maskTarget, this`maskColor, this`currentFocus, this`events,
               this`refreshes, panels`isFocused
      ensures Inv()
      ensures ui.Flags() == Lifecycle.Flags(Shown, false, old(ui.isHiding), true)
      ensures ui.generation == old(ui.generation) + 1
      ensures refreshes == old(refreshes) + (if RefreshEnabled() then 1 else 0)
      ensures old(events) <= events
    {
      ui.CancelAnimation();
      ui.isShowing := true;
      ui.active := true;
      ui.Invoke(ShowHook);
      ui.SetState(Shown);
      Refresh();
      ui.isShowing := false;
    }

    /** The start of an animated show: the panel is marked showing and activated,
        `OnShow` runs, the list is refreshed and a new token started. */
    method BeginShowAnimation(ui: Panel) returns (token: nat)
      requires Inv() && ui in panels && ui.state == Hidden
      modifies ui`isShowing, ui`active, ui`generation, this`instanceUIs, this`maskActive, this`maskTarget, this`maskColor, this`currentFocus, this`events,
               this`refreshes, panels`isFocused
      ensures Inv()
      ensures ui.Flags() == Lifecycle.Flags(Hidden, true, old(ui.isHiding), true)
      ensures ui.generation == old(ui.generation) + 1 && token == ui.generation
      ensures refreshes == old(refreshes) + (if RefreshEnabled() then 1 else 0)
      ensures old(events) <= events
    {
      ui.isShowing := true;
      ui.active := true;
      ui.Invoke(ShowHook);
      Refresh();
      token := ui.StartAnimationToken();
    }

    /** The end of a show whose token is current: Shown is committed and the
        showing mark cleared. */
    method CommitShown(ui: Panel)
      requires Inv() && ui in panels
      modifies ui`state, ui`isShowing, this`events, this`currentMainUI
      ensures Inv()
      ensures ui.Flags() == Lifecycle.Flags(Lifecycle.Commit(old(ui.state), Shown), false, old(ui.isHiding), old(ui.active))
      ensures old(events) <= events
    {
      ui.SetState(Shown);
      ui.isShowing := false;
    }

    /** `SystemHideAsync` (and `SystemHide`, which repeats its guards). A destroyed
        or Closed panel, or a Hidden one that is not visible, is left alone.
        Otherwise (the panel is visible) without animation the hide happens at
        once (`HideNow`); with animation it starts (`BeginHideAnimation`) and then
        waits when the panel has an animation component, and commits Hidden at
        once when it has none. */
    method SystemHideAsync(ui: Panel, useAnimation: bool) returns (w: Option<Animation>)
      requires Inv() && ui in panels
      modifies ui`state, ui`isHiding, ui`active, ui`generation, this`currentMainUI,
               this`instanceUIs, this`maskActive, this`maskTarget, this`maskColor, this`currentFocus, this`events,
               this`refreshes, panels`isFocused
      ensures Inv()
      ensures var o := Lifecycle.SystemHide(old(ui.Flags()), useAnimation, ui.template.hasAnimation);
        && ui.Flags() == (if ui in destroyed then old(ui.Flags()) else o.flags)
        && (w.Some? <==> ui !in destroyed && o.waits)
      ensures w.Some? ==> w.value == Animation(ui, Lifecycle.HideKind, ui.generation)
      ensures var acts := ui !in destroyed && old(ui.IsVisible());
        && ui.generation == old(ui.generation) + (if acts then 1 else 0)
        && refreshes == old(refreshes) + (if acts && RefreshEnabled() then 1 else 0)
        && (!acts ==> unchanged(this))
      ensures ListKept()
      ensures old(events) <= events
    {
      if ui in destroyed || ui.state == Closed {
        return None;
      }
      var wasVisible := ui.IsVisible();
      if ui.state == Hidden && !wasVisible {
        return None;
      }
      if !useAnimation {
        HideNow(ui, wasVisible);
        return None;
      }
      var token := BeginHideAnimation(ui, wasVisible, false);
      if ui.template.hasAnimation {
        return Some(Animation(ui, Lifecycle.HideKind, token));
      }
      CommitHidden(ui);
      return None;
    }

    /** The hide without animation: the token is cancelled, the panel marked
        hiding, `OnHide` run if it was visible, the panel deactivated, Hidden
        committed, the list refreshed and the mark cleared. */
    method HideNow(ui: Panel, wasVisible: bool)
      requires Inv() && ui in panels && ui.state != Closed
      modifies ui`state, ui`isHiding, ui`active, ui`generation, this`currentMainUI,
               this`instanceUIs, this`maskActive, this`maskTarget, this`maskColor, this`currentFocus, this`events,
               this`refreshes, panels`isFocused
      ensures Inv()
      ensures ui.Flags() == Lifecycle.Flags(Hidden, old(ui.isShowing), false, false)
      ensures ui.generation == old(ui.generation) + 1
      ensures refreshes == old(refreshes) + (if RefreshEnabled() then 1 else 0)
      ensures ListKept()
      ensures old(events) <= events
    {
      ui.CancelAnimation();
      ui.isHiding := true;
      if wasVisible {
        ui.Invoke(HideHook);
      }
      ui.active := false;
      ui.SetState(Hidden);
      Refresh();
      ui.isHiding := false;
    }

    /** The start of an animated hide or close: the panel is marked hiding,
        `OnHide` runs if it was visible, `OnClose` runs for a close, the list is
        refreshed and a new token started. */
    method BeginHideAnimation(ui: Panel, wasVisible: bool, closing: bool) returns (token: nat)
      requires Inv() && ui in panels
      modifies ui`isHiding, ui`generation, this`instanceUIs, this`maskActive, this`maskTarget, this`maskColor, this`currentFocus, this`events,
               this`refreshes, panels`isFocused
      ensures Inv()
      ensures ui.Flags() == Lifecycle.Flags(old(ui.state), old(ui.isShowing), true, old(ui.active))
      ensures ui.generation == old(ui.generation) + 1 && token == ui.generation
      ensures refreshes == old(refreshes) + (if RefreshEnabled() then 1 else 0)
      ensures ListKept()
      ensures old(events) <= events
    {
      ui.isHiding := true;
      if wasVisible {
        ui.Invoke(HideHook);
      }
      if closing {
        ui.Invoke(CloseHook);
      }
      Refresh();
      token := ui.StartAnimationToken();
    }

    /** The end of a hide whose token is current: the panel is deactivated, Hidden
        committed and the hiding mark cleared. */
    method CommitHidden(ui: Panel)
      requires Inv() && ui in panels
      modifies ui`state, ui`isHiding, ui`active, this`events, this`currentMainUI
      ensures Inv()
      ensures ui.Flags() == Lifecycle.Flags(Lifecycle.Commit(old(ui.state), Hidden), old(ui.isShowing), false, false)
      ensures old(events) <= events
    {
      ui.active := false;
      ui.SetState(Hidden);
      ui.isHiding := false;
    }

    /** `SystemCloseAsync` (and `SystemClose`). A destroyed or Closed panel is left
        alone. Without animation the close happens at once (`CloseNow`); with
        animation it starts (`BeginHideAnimation`, with `OnClose`) and then waits
        when the panel has an animation component, and finishes at once
        (`CommitClosed`) when it has none. */
    method SystemCloseAsync(ui: Panel, useAnimation: bool) returns (w: Option<Animation>)
      requires Inv() && ui in panels
      modifies ui`state, ui`isHiding, ui`active, ui`generation, ui`destroyRequested, this`currentMainUI,
               this`instanceUIs, this`maskActive, this`maskTarget, this`maskColor, this`currentFocus, this`events,
               this`refreshes, panels`isFocused, this`persistence, this`inputSchemes, this`currentInputScheme
      ensures Inv()
      ensures var o := Lifecycle.SystemClose(old(ui.Flags()), useAnimation, ui.template.hasAnimation);
        && ui.Flags() == (if ui in destroyed then old(ui.Flags()) else o.flags)
        && (w.Some? <==> ui !in destroyed && o.waits)
      ensures w.Some? ==> w.value == Animation(ui, Lifecycle.CloseKind, ui.generation)
      ensures var acts := ui !in destroyed && old(ui.state) != Closed;
        && refreshes == old(refreshes) + (if acts && RefreshEnabled() then 1 else 0)
        && (!acts ==> unchanged(this) && ui.generation == old(ui.generation))
        && (acts && w.Some? ==>
              ui.generation == old(ui.generation) + 1 && persistence == old(persistence)
              && ui.destroyRequested == old(ui.destroyRequested))
        && (acts && w.None? ==> TornDown(ui, old(persistence), old(inputSchemes), false))
      ensures old(events) <= events
    {
      if ui in destroyed || ui.state == Closed {
        return None;
      }
      var wasVisible := ui.IsVisible();
      if !useAnimation {
        CloseNow(ui, wasVisible);
        return None;
      }
      var token := BeginHideAnimation(ui, wasVisible, true);
      if ui.template.hasAnimation {
        return Some(Animation(ui, Lifecycle.CloseKind, token));
      }
      CommitClosed(ui);
      return None;
    }

    /** The close without animation: the token is cancelled, the panel marked
        hiding, `OnHide` run if it was visible and `OnClose` run, the panel
        deactivated, Hidden then Closed committed, the list refreshed, the mark
        cleared and the panel torn down. */
    method CloseNow(ui: Panel, wasVisible: bool)
      requires Inv() && ui in panels && ui !in destroyed && ui.state != Closed
      modifies ui`state, ui`isHiding, ui`active, ui`generation, ui`destroyRequested, this`currentMainUI,
               this`instanceUIs, this`maskActive, this`maskTarget, this`maskColor, this`currentFocus, this`events,
               this`refreshes, panels`isFocused, this`persistence, this`inputSchemes, this`currentInputScheme
      ensures Inv()
      ensures ui.Flags() == Lifecycle.Flags(Closed, old(ui.isShowing), false, false)
      ensures TornDown(ui, old(persistence), old(inputSchemes), false)
      ensures refreshes == old(refreshes) + (if RefreshEnabled() then 1 else 0)
      ensures old(events) <= events
    {
      CloseStateNow(ui, wasVisible);
      var _ := DestroyInternal(ui, false, false);
    }

    /** `CloseNow` up to the teardown. */
    method CloseStateNow(ui: Panel, wasVisible: bool)
      requires Inv() && ui in panels && ui.state != Closed
      modifies ui`state, ui`isHiding, ui`active, ui`generation, this`currentMainUI,
               this`instanceUIs, this`maskActive, this`maskTarget, this`maskColor, this`currentFocus, this`events,
               this`refreshes, panels`isFocused
      ensures Inv()
      ensures ui.Flags() == Lifecycle.Flags(Closed, old(ui.isShowing), false, false)
      ensures ui.generation == old(ui.generation) + 1
      ensures refreshes == old(refreshes) + (if RefreshEnabled() then 1 else 0)
      ensures old(events) <= events
    {
      ui.CancelAnimation();
      ui.isHiding := true;
      CloseHooks(ui, wasVisible);
      ui.active := false;
      CommitClose(ui);
      Refresh();
      ui.isHiding := false;
    }

    /** The callbacks a close runs first: `OnHide` if the panel was visible, then
        `OnClose`. */
    method CloseHooks(ui: Panel, wasVisible: bool)
      requires ui.sys == this
      modifies this`events
      ensures events == old(events) + (if wasVisible then [Callback(ui, HideHook)] else []) + [Callback(ui, CloseHook)]
    {
      if wasVisible {
        ui.Invoke(HideHook);
      }
      ui.Invoke(CloseHook);
    }

    /** `SetStateInternal(Hidden)` then `SetStateInternal(Closed)`: whatever the
        state was, the panel ends Closed. */
    method CommitClose(ui: Panel)
      requires Inv() && ui in panels
      modifies ui`state, this`events, this`currentMainUI
      ensures Inv()
      ensures ui.state == Lifecycle.Commit(Lifecycle.Commit(old(ui.state), Hidden), Closed) == Closed
      ensures old(events) <= events
    {
      ui.SetState(Hidden);
      ui.SetState(Closed);
    }

    /** The end of a close whose token is current: the panel is deactivated,
        Hidden then Closed committed, the hiding mark cleared and the panel torn
        down. */
    method CommitClosed(ui: Panel)
      requires Inv() && ui in panels && ui !in destroyed
      modifies ui`state, ui`isHiding, ui`active, ui`generation, ui`destroyRequested, this`currentMainUI,
               this`instanceUIs, this`maskActive, this`maskTarget, this`maskColor, this`currentFocus, this`events,
               this`refreshes, panels`isFocused, this`persistence, this`inputSchemes, this`currentInputScheme
      ensures Inv()
      ensures ui.Flags() == Lifecycle.Flags(Closed, old(ui.isShowing), false, false)
      ensures TornDown(ui, old(persistence), old(inputSchemes), false)
      ensures refreshes == old(refreshes)
      ensures old(events) <= events
    {
      ui.active := false;
      CommitClose(ui);
      ui.isHiding := false;
      var _ := DestroyInternal(ui, false, false);
    }

    /** What a close leaves behind after `DestroyInternal(ui, force, _)`: a
        persistent panel is kept (unless forced) with its registrations; any
        other panel is gone from the live list, the persistent set and the input
        schemes, and its destruction is requested. */
    twostate predicate TornDown(ui: Panel, persistence0: set<Panel>, schemes0: seq<(Panel, string)>, force: bool)
      reads this, ui
    {
      if ui in persistence0 && !force then
        persistence == persistence0 && ui.destroyRequested == old(ui.destroyRequested)
      else
        && ui !in instanceUIs
        && persistence == persistence0 - {ui}
        && inputSchemes == InputSchemes.Upsert(schemes0, ui, None)
        && ui.destroyRequested
    }

    /** `DestroyInternal`. A destroyed panel, or a persistent one when not forced,
        is kept and nothing happens. Otherwise the panel is unregistered
        (`Unregister`) and the list refreshed when asked. */
    method DestroyInternal(ui: Panel, force: bool, refresh: bool) returns (r: bool)
      requires Inv() && ui in panels
      modifies this`instanceUIs, this`persistence, this`inputSchemes, this`currentInputScheme, this`events,
               ui`generation, ui`destroyRequested,
               this`maskActive, this`maskTarget, this`maskColor, this`currentFocus, this`refreshes, panels`isFocused
      ensures Inv()
      ensures r <==> ui !in destroyed && (ui !in old(persistence) || force)
      ensures !r ==> unchanged(this) && ui.generation == old(ui.generation) && ui.destroyRequested == old(ui.destroyRequested)
      ensures r ==>
        && ui !in instanceUIs && (forall p | p in instanceUIs :: p in old(instanceUIs))
        && (forall p | p in old(instanceUIs) && p != ui && p !in destroyed :: p in instanceUIs)
        && persistence == old(persistence) - {ui}
        && inputSchemes == InputSchemes.Upsert(old(inputSchemes), ui, None)
        && ui.destroyRequested && ui.generation == old(ui.generation) + 1
        && refreshes == old(refreshes) + (if refresh && RefreshEnabled() then 1 else 0)
        && (!refresh ==> instanceUIs == Without(old(instanceUIs), ui))
      ensures old(events) <= events
    {
      if ui in destroyed {
        return false;
      }
      if ui in persistence && !force {
        return false;
      }
      Unregister(ui);
      if refresh {
        Refresh();
      }
      return true;
    }

    /** `_instanceUIs.Remove(ui)`. */
    method RemoveFromList(ui: Panel)
      requires Inv()
      modifies this`instanceUIs
      ensures Inv()
      ensures instanceUIs == Without(old(instanceUIs), ui) && ui !in instanceUIs
    {
      WithoutDistinct(instanceUIs, ui);
      var rest := Without(instanceUIs, ui);
      forall i | 0 <= i < |rest|
        ensures rest[i] in panels
      {
        assert rest[i] in instanceUIs;
      }
      instanceUIs := rest;
    }

    /** The body of `DestroyInternal` before the refresh: the panel leaves the live
        list and the persistent set, its input scheme is withdrawn,
        `UIPanelDestroyed` is dispatched, its animation cancelled, its destruction
        requested (Unity destroys it at the end of the frame) and `OnClosed` run. */
    method Unregister(ui: Panel)
      requires Inv() && ui in panels
      modifies this`instanceUIs, this`persistence, this`inputSchemes, this`currentInputScheme, this`events,
               ui`generation, ui`destroyRequested
      ensures Inv()
      ensures instanceUIs == Without(old(instanceUIs), ui) && ui !in instanceUIs
      ensures persistence == old(persistence) - {ui}
      ensures ui !in destroyed ==> inputSchemes == InputSchemes.Upsert(old(inputSchemes), ui, None)
      ensures ui.destroyRequested && ui.generation == old(ui.generation) + 1
      ensures old(events) <= events
    {
      RemoveFromList(ui);
      persistence := persistence - {ui};
      SetInputScheme(Some(ui), None);
      AnnounceDestroyed(ui);
    }

    /** The end of `DestroyInternal`'s unregistering: `UIPanelDestroyed` is
        dispatched, the animation cancelled, `Object.Destroy` requested and
        `OnClosed` run. */
    method AnnounceDestroyed(ui: Panel)
      requires ui.sys == this
      modifies this`events, ui`generation, ui`destroyRequested
      ensures events == old(events) + [PanelDestroyed(ui, ui.path), Callback(ui, ClosedHook)]
      ensures ui.destroyRequested && ui.generation == old(ui.generation) + 1
    {
      events := events + [PanelDestroyed(ui, ui.path)];
      ui.CancelAnimation();
      ui.destroyRequested := true;
      ui.Invoke(ClosedHook);
    }

    /** The end of a system animation (the continuation of `SystemShowAsync`,
        `SystemHideAsync` or `SystemCloseAsync` after `RunShowAnimationAsync` or
        `RunHideAnimationAsync`). A cancelled token only clears the transient
        mark. Otherwise a show commits Shown; a hide or close first deactivates
        the panel, which throws `MissingReferenceException` when Unity has
        destroyed it meanwhile, then commits Hidden (and Closed, and tears the
        panel down). */
    method FinishAnimation(a: Animation) returns (ex: Option<Exception>)
      requires Inv() && a.panel in panels
      modifies a.panel`state, a.panel`isShowing, a.panel`isHiding, a.panel`active, a.panel`generation,
               a.panel`destroyRequested, this`currentMainUI,
               this`instanceUIs, this`maskActive, this`maskTarget, this`maskColor, this`currentFocus, this`events,
               this`refreshes, this`persistence, this`inputSchemes, this`currentInputScheme, panels`isFocused
      ensures Inv()
      ensures var current := old(a.panel.generation) == a.token;
        var throws := current && a.kind != Lifecycle.ShowKind && a.panel in destroyed;
        && (ex.Some? <==> throws)
        && (ex.Some? ==> ex.value == MissingReference && a.panel.Flags() == old(a.panel.Flags()))
        && (ex.None? ==> a.panel.Flags() == Lifecycle.SystemFinish(old(a.panel.Flags()), a.kind, current))
        && (ex.None? && current && a.kind == Lifecycle.CloseKind ==>
              TornDown(a.panel, old(persistence), old(inputSchemes), false))
        && (!(current && a.kind == Lifecycle.CloseKind) ==> persistence == old(persistence))
      ensures old(events) <= events
    {
      var ui := a.panel;
      var current := ui.generation == a.token;
      if !current {
        if a.kind == Lifecycle.ShowKind {
          ui.isShowing := false;
        } else {
          ui.isHiding := false;
        }
        return None;
      }
      match a.kind
      case ShowKind =>
        ui.SetState(Shown);
        ui.isShowing := false;
        return None;
      case HideKind =>
        if ui in destroyed {
          return Some(MissingReference);
        }
        ui.active := false;
        ui.SetState(Hidden);
        ui.isHiding := false;
        return None;
      case CloseKind =>
        if ui in destroyed {
          return Some(MissingReference);
        }
        ui.active := false;
        CommitClose(ui);
        ui.isHiding := false;
        var _ := DestroyInternal(ui, false, false);
        return None;
    }

    /** `AutoCloseInternal` as the queue runs it, without animation: a destroyed
        panel is left alone; otherwise the panel's answer to `reason` chooses
        between nothing, `SystemHide` and `SystemClose`. A close never drops a
        panel from the persistent set. */
    method AutoCloseInternal(panel: Panel, reason: AutoCloseReason)
      requires Inv() && panel in panels
      modifies panel`state, panel`isHiding, panel`active, panel`generation, panel`destroyRequested, this`currentMainUI,
               this`instanceUIs, this`maskActive, this`maskTarget, this`maskColor, this`currentFocus, this`events,
               this`refreshes, panels`isFocused, this`persistence, this`inputSchemes, this`currentInputScheme
      ensures Inv()
      ensures panel.Flags() == if panel in destroyed then old(panel.Flags())
                               else Lifecycle.AutoCloseFlags(old(panel.Flags()), panel.template.autoClose.Get(reason))
      ensures persistence == old(persistence)
      ensures !RefreshEnabled() ==> refreshes == old(refreshes)
      ensures old(events) <= events
    {
      if panel in destroyed {
        return;
      }
      match panel.template.autoClose.Get(reason)
      case AutoNone =>
      case AutoHide =>
        var _ := SystemHideAsync(panel, false);
      case AutoClose =>
        var _ := SystemCloseAsync(panel, false);
    }

    /** One step of `AutoCloseAllNonMainUI`: a destroyed panel and a main screen
        are skipped, a persistent panel is hidden when Shown, any other panel is
        auto-closed for `MainUISwitch`. */
    method SwitchAway(ui: Panel)
      requires Inv() && ui in panels
      modifies ui`state, ui`isHiding, ui`active, ui`generation, ui`destroyRequested, this`currentMainUI,
               this`instanceUIs, this`maskActive, this`maskTarget, this`maskColor, this`currentFocus, this`events,
               this`refreshes, panels`isFocused, this`persistence, this`inputSchemes, this`currentInputScheme
      ensures Inv()
      ensures ui.Flags() == SwitchedAway(ui, old(ui.Flags()), old(persistence), destroyed)
      ensures forall p | p in panels && p != ui :: p.Flags() == old(p.Flags())
      ensures persistence == old(persistence)
      ensures !RefreshEnabled() ==> refreshes == old(refreshes)
      ensures old(events) <= events
    {
      if ui in destroyed || ui.template.isMain {
        return;
      }
      if ui in persistence {
        if ui.state == Shown {
          var _ := SystemHideAsync(ui, false);
        }
        return;
      }
      AutoCloseInternal(ui, MainUISwitch);
    }

    /** `AutoCloseAllNonMainUI`: walks a copy of the live list once and applies
        `SwitchAway` to each panel. Every panel of the list ends as `SwitchedAway`
        says, whatever the other steps did; no other panel changes. */
    method AutoCloseAllNonMainUI()
      requires Inv()
      modifies panels`state, panels`isHiding, panels`active, panels`generation, panels`destroyRequested,
               this`currentMainUI, this`instanceUIs, this`maskActive, this`maskTarget, this`maskColor, this`currentFocus,
               this`events, this`refreshes, panels`isFocused, this`persistence, this`inputSchemes, this`currentInputScheme
      ensures Inv()
      ensures forall p | p in old(instanceUIs) :: p.Flags() == SwitchedAway(p, old(p.Flags()), old(persistence), destroyed)
      ensures forall p | p in old(panels) && p !in old(instanceUIs) :: p.Flags() == old(p.Flags())
      ensures persistence == old(persistence)
      ensures !RefreshEnabled() ==> refreshes == old(refreshes)
      ensures old(events) <= events
    {
      var list := instanceUIs;
      var i := 0;
      while i < |list|
        invariant 0 <= i <= |list|
        invariant Inv() && panels == old(panels) && persistence == old(persistence)
        invariant forall j | 0 <= j < |list| :: list[j] in panels
        invariant Distinct(list)
        invariant forall j | 0 <= j < i :: list[j].Flags() == SwitchedAway(list[j], old(list[j].Flags()), old(persistence), destroyed)
        invariant forall j | i <= j < |list| :: list[j].Flags() == old(list[j].Flags())
        invariant forall p | p in panels && p !in list :: p.Flags() == old(p.Flags())
        invariant !RefreshEnabled() ==> refreshes == old(refreshes)
        invariant old(events) <= events
      {
        SwitchAway(list[i]);
        i := i + 1;
      }
      forall p | p in old(instanceUIs)
        ensures p.Flags() == SwitchedAway(p, old(p.Flags()), old(persistence), destroyed)
      {
        var j :| 0 <= j < |list| && list[j] == p;
      }
    }

    /** `ShowMainUIFlowAsync`, with the main-screen switch done without animation.
        The loading screen is shown first when asked for (a throwing handler is
        logged and yields no controller). With refreshes suppressed, every
        non-main panel is switched away (`AutoCloseAllNonMainUI`), the old main
        screen is auto-closed, and the new one (`ui`, or a fresh instance when
        `ui` was destroyed or ended Closed) is moved last, given `userData`,
        shown and made current. When no instance can be made the current main
        screen is cleared and the loading screen is left up. One refresh
        follows; then, with a controller, the loadable panel runs its loading
        step and the loading screen is hidden. */
    method ShowMainUIFlow(path: string, ui: Panel, oldMain: Option<Panel>, userData: Option<UserData>, needLoading: bool)
      requires Inv() && ui in panels && (oldMain.Some? ==> oldMain.value in panels)
      requires needLoading ==> loadingHandler.Some?
      requires !ui.IsVisible() && ui.path == path
      modifies panels`state, panels`isShowing, panels`isHiding, panels`active, panels`generation, panels`destroyRequested,
               panels`sibling, panels`userData, panels`isFocused,
               this`currentMainUI, this`instanceUIs, this`maskActive, this`maskTarget, this`maskColor, this`currentFocus,
               this`events, this`refreshes, this`persistence, this`inputSchemes, this`currentInputScheme,
               this`suppressRefreshCount, this`loadedUI, this`cacheAlive, this`layers, this`containers, this`panels,
               this`siblingClock
      ensures Inv()
      ensures old(panels) <= panels && fresh(panels - old(panels))
      ensures suppressRefreshCount == old(suppressRefreshCount)
      ensures refreshes == old(refreshes) + (if RefreshEnabled() then 1 else 0)
      ensures currentMainUI.Some? ==>
        var m := currentMainUI.value;
        && m.path == path && m !in destroyed && m.state == Shown && m.active
        && m.userData == userData && m.sibling == siblingClock
      ensures currentMainUI.None? ==> !old(Loads(path)) || path in unbuildable
      ensures forall p | p in old(instanceUIs) && !p.template.isMain && Some(p) != oldMain && p != ui ::
        p.Flags() == SwitchedAway(p, old(p.Flags()), old(persistence), destroyed)
      ensures persistence == old(persistence)
      ensures old(events) <= events
      ensures needLoading && !loadingHandler.value.showThrows ==>
        |events| > |old(events)| && events[|old(events)|] == LoadingShown
      ensures needLoading && !loadingHandler.value.showThrows && loadingHandler.value.givesController && currentMainUI.Some? ==>
        |events| >= 2 && events[|events| - 2..] == [LoadingProgressed, LoadingHidden]
    {
      var controller := false;
      if needLoading && !loadingHandler.value.showThrows {
        events := events + [LoadingShown];
        controller := loadingHandler.value.givesController;
      }
      ghost var start := events;
      var shown := SwitchMain(path, ui, oldMain, userData);
      assert start <= events;
      if shown && controller {
        events := events + [LoadingProgressed, LoadingHidden];
      }
    }

    /** The `try`/`finally` block of the flow: the switch with refreshes
        suppressed, then one refresh. */
    method SwitchMain(path: string, ui: Panel, oldMain: Option<Panel>, userData: Option<UserData>) returns (shown: bool)
      requires Inv() && ui in panels && (oldMain.Some? ==> oldMain.value in panels)
      requires !ui.IsVisible() && ui.path == path
      modifies panels`state, panels`isShowing, panels`isHiding, panels`active, panels`generation, panels`destroyRequested,
               panels`sibling, panels`userData, panels`isFocused,
               this`currentMainUI, this`instanceUIs, this`maskActive, this`maskTarget, this`maskColor, this`currentFocus,
               this`events, this`refreshes, this`persistence, this`inputSchemes, this`currentInputScheme,
               this`suppressRefreshCount, this`loadedUI, this`cacheAlive, this`layers, this`containers, this`panels,
               this`siblingClock
      ensures Inv()
      ensures old(panels) <= panels && fresh(panels - old(panels))
      ensures suppressRefreshCount == old(suppressRefreshCount)
      ensures shown <==> currentMainUI.Some?
      ensures refreshes == old(refreshes) + (if RefreshEnabled() then 1 else 0)
      ensures currentMainUI.Some? ==>
        var m := currentMainUI.value;
        && m.path == path && m !in destroyed && m.state == Shown && m.active
        && m.userData == userData && m.sibling == siblingClock
      ensures currentMainUI.None? ==> !old(Loads(path)) || path in unbuildable
      ensures forall p | p in old(instanceUIs) && !p.template.isMain && Some(p) != oldMain && p != ui ::
        p.Flags() == SwitchedAway(p, old(p.Flags()), old(persistence), destroyed)
      ensures persistence == old(persistence)
      ensures old(events) <= events
    {
      suppressRefreshCount := suppressRefreshCount + 1;
      SwitchFrom(ui, oldMain);
      shown := PlaceMain(path, ui, userData);
      EndSuppression();
    }

    /** The `finally` of the switch: the suppression taken is given back and the
        list refreshed. */
    method EndSuppression()
      requires Inv() && suppressRefreshCount > 0
      modifies this`suppressRefreshCount, this`instanceUIs, this`maskActive, this`maskTarget, this`maskColor,
               this`currentFocus, this`events, this`refreshes, panels`isFocused
      ensures Inv()
      ensures suppressRefreshCount == old(suppressRefreshCount) - 1
      ensures refreshes == old(refreshes) + (if RefreshEnabled() then 1 else 0)
      ensures ListKept()
      ensures old(events) <= events
    {
      suppressRefreshCount := suppressRefreshCount - 1;
      Refresh();
    }

    /** The first half of the switch: every non-main panel is switched away and
        the old main screen (when live) auto-closed for `MainUISwitch`. The
        incoming screen, invisible before, is Hidden and invisible or Closed
        after. */
    method SwitchFrom(ui: Panel, oldMain: Option<Panel>)
      requires Inv() && ui in panels && (oldMain.Some? ==> oldMain.value in panels)
      requires !ui.IsVisible()
      modifies panels`state, panels`isHiding, panels`active, panels`generation, panels`destroyRequested,
               this`currentMainUI, this`instanceUIs, this`maskActive, this`maskTarget, this`maskColor, this`currentFocus,
               this`events, this`refreshes, panels`isFocused, this`persistence, this`inputSchemes, this`currentInputScheme
      ensures Inv()
      ensures !ui.IsVisible() && (ui.state == Hidden || ui.state == Closed)
      ensures forall p | p in old(instanceUIs) && !p.template.isMain && Some(p) != oldMain && p != ui ::
        p.Flags() == SwitchedAway(p, old(p.Flags()), old(persistence), destroyed)
      ensures persistence == old(persistence)
      ensures !RefreshEnabled() ==> refreshes == old(refreshes)
      ensures old(events) <= events
    {
      ghost var f0 := ui.Flags();
      AutoCloseAllNonMainUI();
      Lifecycle.AutoCloseKeepsInvisible(f0, ui.template.isMain, ui in old(persistence), ui.template.autoClose.Get(MainUISwitch));
      if IsLive(oldMain, destroyed) {
        ghost var f1 := ui.Flags();
        AutoCloseInternal(oldMain.value, MainUISwitch);
        Lifecycle.AutoCloseKeepsInvisible(f1, false, false, ui.template.autoClose.Get(MainUISwitch));
      }
    }

    /** The second half of the switch: the incoming screen, or a fresh instance
        of `path` when it was destroyed or is Closed, is shown as the current
        main screen; when no instance can be made the current main screen is
        cleared. */
    method PlaceMain(path: string, ui: Panel, userData: Option<UserData>) returns (shown: bool)
      requires Inv() && ui in panels && ui.path == path
      requires ui.state == Hidden || ui.state == Closed
      modifies ui`state, ui`isShowing, ui`active, ui`generation, ui`sibling, ui`userData,
               this`currentMainUI, this`instanceUIs, this`maskActive, this`maskTarget, this`maskColor, this`currentFocus,
               this`events, this`refreshes, panels`isFocused, this`loadedUI, this`cacheAlive, this`layers,
               this`containers, this`panels, this`siblingClock
      ensures Inv()
      ensures old(panels) <= panels && fresh(panels - old(panels))
      ensures shown <==> currentMainUI.Some?
      ensures currentMainUI.Some? ==>
        var m := currentMainUI.value;
        && m.path == path && m !in destroyed && m.state == Shown && m.active
        && m.userData == userData && m.sibling == siblingClock
      ensures currentMainUI.None? ==> !old(Loads(path)) || path in unbuildable
      ensures refreshes == old(refreshes) + (if shown && RefreshEnabled() then 1 else 0)
      ensures forall p | p in panels :: p in old(panels) || fresh(p)
      ensures old(events) <= events
    {
      var m: Option<Panel> := Some(ui);
      if ui in destroyed || ui.state == Closed {
        m := Instantiate(path);
      }
      if m.None? {
        currentMainUI := None;
        return false;
      }
      ShowAsMain(m.value, userData);
      return true;
    }

    /** The end of the switch: the new main screen is shown last without
        animation and made current. */
    method ShowAsMain(m: Panel, userData: Option<UserData>)
      requires Inv() && m in panels && m !in destroyed && m.state == Hidden
      modifies m`state, m`isShowing, m`active, m`generation, m`sibling, m`userData, this`currentMainUI,
               this`instanceUIs, this`maskActive, this`maskTarget, this`maskColor, this`currentFocus, this`events,
               this`refreshes, panels`isFocused, this`siblingClock
      ensures Inv()
      ensures currentMainUI == Some(m)
      ensures m.state == Shown && m.active && m.userData == userData && m.sibling == siblingClock
      ensures refreshes == old(refreshes) + (if RefreshEnabled() then 1 else 0)
      ensures old(events) <= events
    {
      var _ := ShowLast(m, false, userData);
      currentMainUI := Some(m);
    }

    /** `ui.transform.SetAsLastSibling()`, `ui.userData = userData`, then
        `SystemShowAsync(ui, useAnimation)`. */
    method ShowLast(ui: Panel, useAnimation: bool, userData: Option<UserData>) returns (w: Option<Animation>)
      requires Inv() && ui in panels && ui !in destroyed
      modifies ui`state, ui`isShowing, ui`active, ui`generation, ui`sibling, ui`userData, this`currentMainUI,
               this`instanceUIs, this`maskActive, this`maskTarget, this`maskColor, this`currentFocus, this`events,
               this`refreshes, panels`isFocused, this`siblingClock
      ensures Inv()
      ensures ui.userData == userData && ui.sibling == siblingClock && siblingClock == old(siblingClock) + 1
      ensures var o := Lifecycle.SystemShow(old(ui.Flags()), useAnimation, ui.template.hasAnimation);
        ui.Flags() == o.flags && (w.Some? <==> o.waits)
      ensures w.Some? ==> w.value == Animation(ui, Lifecycle.ShowKind, ui.generation)
      ensures refreshes == old(refreshes) + (if old(ui.state) == Hidden && RefreshEnabled() then 1 else 0)
      ensures old(events) <= events
    {
      siblingClock := siblingClock + 1;
      ui.sibling := siblingClock;
      ui.userData := userData;
      w := SystemShowAsync(ui, useAnimation);
    }

    /** Whether `ExecuteShowAsync` takes the main-screen branch for `path`: the
        live panel found under the path, or else the prefab loaded for it, is a
        main screen (`IMainUI`). */
    ghost predicate ShowsMain(path: string)
      reads this`instanceUIs, this`destroyed, this`loadedUI, this`cacheAlive, this`assets
    {
      var f := FindUI(Some(path));
      if f.Some? then f.value.template.isMain else Loads(path) && TemplateFor(path).isMain
    }

    /** `ExecuteShowAsync`. A blank path does nothing. The panel found under the
        path, or else the loaded prefab, decides the branch; an unknown path
        yields null. A non-main panel is shown (`ShowOther`); a main screen goes
        through the main-screen switch (`ShowMain`). */
    method ExecuteShow(path: Option<string>, useAnimation: bool, userData: Option<UserData>) returns (r: Progress)
      requires Inv()
      modifies panels`state, panels`isShowing, panels`isHiding, panels`active, panels`generation, panels`destroyRequested,
               panels`sibling, panels`userData, panels`isFocused,
               this`currentMainUI, this`instanceUIs, this`maskActive, this`maskTarget, this`maskColor, this`currentFocus,
               this`events, this`refreshes, this`persistence, this`inputSchemes, this`currentInputScheme,
               this`suppressRefreshCount, this`loadedUI, this`cacheAlive, this`layers, this`containers, this`panels,
               this`siblingClock
      ensures Inv()
      ensures old(panels) <= panels && fresh(panels - old(panels))
      ensures suppressRefreshCount == old(suppressRefreshCount)
      ensures IsBlank(path) ==> r == Done(None) && unchanged(this)
      ensures r.Done? && r.result.Some? ==>
        var p := r.result.value;
        && Some(p.path) == path && p in panels && p !in destroyed && p.userData == userData
        && (p.state == Shown || (old(FindUI(path)) == Some(p) && old(p.state) == Closed && p.state == Closed))
      ensures r.Waits? ==>
        var a := r.anim;
        && Some(a.panel.path) == path && a.panel in panels && a.kind == Lifecycle.ShowKind && a.token == a.panel.generation
        && a.panel.state == Hidden && a.panel.isShowing && a.panel.userData == userData
      ensures r == Done(None) ==> IsBlank(path) || !old(Loads(path.value)) || path.value in unbuildable
      ensures !IsBlank(path) && old(ShowsMain(path.value)) ==>
        && r.Done? && r.result == currentMainUI
        && (r.result.Some? ==>
              forall p | p in old(instanceUIs) && !p.template.isMain && Some(p) != old(currentMainUI) && Some(p) != old(FindUI(path)) ::
                p.Flags() == SwitchedAway(p, old(p.Flags()), old(persistence), destroyed))
      ensures !IsBlank(path) && !old(ShowsMain(path.value)) ==>
        forall p | p in old(panels) && Some(p) != old(FindUI(path)) :: p.Flags() == old(p.Flags())
    {
      if IsBlank(path) {
        return Done(None);
      }
      ghost var main := ShowsMain(path.value);
      var found := FindUI(path);
      var prefab: Option<Template> := None;
      var isMain: bool;
      if found.Some? {
        isMain := found.value.template.isMain;
      } else {
        prefab := LoadUI(path.value);
        if prefab.None? {
          return Done(None);
        }
        assert forall p | p in panels :: p.Flags() == old(p.Flags());
        isMain := prefab.value.isMain;
      }
      assert isMain == main;
      if !isMain {
        r := ShowOther(path.value, found, useAnimation, userData);
      } else {
        r := ShowMain(path.value, found, prefab, userData);
      }
    }

    /** The non-main branch of `ExecuteShowAsync`. A visible panel found under the
        path is first auto-closed for `MainUISwitch`, and forgotten when that
        closed it; without a panel a new one is made (null when that fails). The
        panel is then moved last, given `userData` and shown. A panel found
        Closed (a persistent one that was closed) is returned as it is. */
    method ShowOther(path: string, found: Option<Panel>, useAnimation: bool, userData: Option<UserData>) returns (r: Progress)
      requires Inv()
      requires found.Some? ==> found.value in panels && found.value !in destroyed && found.value.path == path
      modifies panels`state, panels`isShowing, panels`isHiding, panels`active, panels`generation, panels`destroyRequested,
               panels`sibling, panels`userData, panels`isFocused,
               this`currentMainUI, this`instanceUIs, this`maskActive, this`maskTarget, this`maskColor, this`currentFocus,
               this`events, this`refreshes, this`persistence, this`inputSchemes, this`currentInputScheme,
               this`loadedUI, this`cacheAlive, this`layers, this`containers, this`panels, this`siblingClock
      ensures Inv()
      ensures old(panels) <= panels && fresh(panels - old(panels))
      ensures r.Done? && r.result.Some? ==>
        var p := r.result.value;
        && p.path == path && p in panels && p !in destroyed && p.userData == userData
        && (p.state == Shown || (found == Some(p) && old(p.state) == Closed && p.state == Closed))
      ensures r.Waits? ==>
        var a := r.anim;
        && a.panel.path == path && a.panel in panels && a.kind == Lifecycle.ShowKind && a.token == a.panel.generation
        && a.panel.state == Hidden && a.panel.isShowing && a.panel.userData == userData
      ensures r == Done(None) ==> !old(Loads(path)) || path in unbuildable
      ensures forall p | p in old(panels) && Some(p) != found :: p.Flags() == old(p.Flags())
    {
      var ui := Obtain(path, found);
      if ui.None? {
        return Done(None);
      }
      var w := ShowLast(ui.value, useAnimation, userData);
      r := if w.Some? then Waits(w.value) else Done(ui);
    }

    /** The panel the non-main branch shows: the one found, unless it was visible
        and its auto-close closed it; otherwise a new one, or null when none can
        be made. Only a panel found Closed can come out Closed. */
    method Obtain(path: string, found: Option<Panel>) returns (ui: Option<Panel>)
      requires Inv()
      requires found.Some? ==> found.value in panels && found.value !in destroyed && found.value.path == path
      modifies panels`state, panels`isHiding, panels`active, panels`generation, panels`destroyRequested, panels`isFocused,
               this`currentMainUI, this`instanceUIs, this`maskActive, this`maskTarget, this`maskColor, this`currentFocus,
               this`events, this`refreshes, this`persistence, this`inputSchemes, this`currentInputScheme,
               this`loadedUI, this`cacheAlive, this`layers, this`containers, this`panels, this`siblingClock
      ensures Inv()
      ensures old(panels) <= panels && fresh(panels - old(panels))
      ensures ui.Some? ==>
        && ui.value.path == path && ui.value in panels && ui.value !in destroyed
        && (ui.value.state != Closed || (ui == found && old(ui.value.state) == Closed))
        && (ui == found || fresh(ui.value))
      ensures ui.None? ==> !old(Loads(path)) || path in unbuildable
      ensures forall p | p in panels :: p in old(panels) || fresh(p)
      ensures forall p | p in old(panels) && Some(p) != found :: p.Flags() == old(p.Flags())
    {
      ui := found;
      if ui.Some? {
        var keep := Reuse(ui.value);
        if !keep {
          ui := None;
        }
      }
      if ui.None? {
        ui := Instantiate(path);
      }
    }

    /** Whether the non-main branch keeps the panel it found: a visible one is
        auto-closed for `MainUISwitch` first and dropped when that closed it; an
        invisible one is kept as it is, even Closed. */
    method Reuse(ui: Panel) returns (keep: bool)
      requires Inv() && ui in panels && ui !in destroyed
      modifies ui`state, ui`isHiding, ui`active, ui`generation, ui`destroyRequested, this`currentMainUI,
               this`instanceUIs, this`maskActive, this`maskTarget, this`maskColor, this`currentFocus, this`events,
               this`refreshes, panels`isFocused, this`persistence, this`inputSchemes, this`currentInputScheme
      ensures Inv()
      ensures !old(ui.IsVisible()) ==> keep && ui.Flags() == old(ui.Flags())
      ensures old(ui.IsVisible()) ==>
        && ui.Flags() == Lifecycle.AutoCloseFlags(old(ui.Flags()), ui.template.autoClose.Get(MainUISwitch))
        && (keep <==> ui.state != Closed)
    {
      if !ui.IsVisible() {
        return true;
      }
      AutoCloseInternal(ui, MainUISwitch);
      keep := ui.state != Closed;
    }

    /** The main-screen branch of `ExecuteShowAsync`. A main screen found visible
        is not reused: a new instance is made, so the switch runs in full. When
        no instance can be made the current main screen is cleared. Otherwise
        loading is needed when a loading handler is installed and the prefab (or
        else the panel) is loadable, and the switch runs; the result is the
        current main screen. */
    method ShowMain(path: string, found: Option<Panel>, prefab: Option<Template>, userData: Option<UserData>)
      returns (r: Progress)
      requires Inv()
      requires found.Some? ==> found.value in panels && found.value !in destroyed && found.value.path == path
      modifies panels`state, panels`isShowing, panels`isHiding, panels`active, panels`generation, panels`destroyRequested,
               panels`sibling, panels`userData, panels`isFocused,
               this`currentMainUI, this`instanceUIs, this`maskActive, this`maskTarget, this`maskColor, this`currentFocus,
               this`events, this`refreshes, this`persistence, this`inputSchemes, this`currentInputScheme,
               this`suppressRefreshCount, this`loadedUI, this`cacheAlive, this`layers, this`containers, this`panels,
               this`siblingClock
      ensures Inv()
      ensures old(panels) <= panels && fresh(panels - old(panels))
      ensures suppressRefreshCount == old(suppressRefreshCount)
      ensures r.Done? && r.result == currentMainUI
      ensures currentMainUI.Some? ==>
        var m := currentMainUI.value;
        && m.path == path && m !in destroyed && m.state == Shown && m.active && m.userData == userData
      ensures currentMainUI.None? ==> !old(Loads(path)) || path in unbuildable
      ensures currentMainUI.Some? ==>
        forall p | p in old(instanceUIs) && !p.template.isMain && Some(p) != old(currentMainUI) && Some(p) != found ::
          p.Flags() == SwitchedAway(p, old(p.Flags()), old(persistence), destroyed)
    {
      var oldMain := currentMainUI;
      var ui := found;
      if ui.Some? && ui.value.IsVisible() {
        ui := None;
      }
      if ui.None? {
        ui := Instantiate(path);
        if ui.None? {
          currentMainUI := None;
          return Done(None);
        }
      }
      var needLoading := loadingHandler.Some? && ((prefab.Some? && prefab.value.loadable) || ui.value.template.loadable);
      ShowMainUIFlow(path, ui.value, oldMain, userData, needLoading);
      return Done(currentMainUI);
    }

    /** `handle.target ?? FindUI(handle.path)`: the handle's own target, even a
        destroyed one, else the live panel found under its path. */
    function TargetOf(h: OperationHandle): Option<Panel>
      reads this`instanceUIs, this`destroyed
    {
      if h.target.Some? then h.target else FindUI(h.path)
    }

    /** `ExecuteHideAsync`: nothing for a missing or destroyed target; otherwise
        the target is hidden (`SystemHideAsync`) and returned when the hide is
        over. No other panel changes. */
    method ExecuteHide(h: OperationHandle) returns (r: Progress)
      requires Inv() && (h.target.Some? ==> h.target.value in panels)
      modifies panels`state, panels`isHiding, panels`active, panels`generation, this`currentMainUI,
               this`instanceUIs, this`maskActive, this`maskTarget, this`maskColor, this`currentFocus, this`events,
               this`refreshes, panels`isFocused
      ensures Inv()
      ensures r.Waits? ==> r.anim.panel in panels && r.anim.token == r.anim.panel.generation && r.anim.kind == Lifecycle.HideKind
      ensures var ui := old(TargetOf(h));
        && (!IsLive(ui, destroyed) ==> r == Done(None) && unchanged(this))
        && (IsLive(ui, destroyed) ==>
              var o := Lifecycle.SystemHide(old(ui.value.Flags()), h.useAnimation, ui.value.template.hasAnimation);
              && ui.value.Flags() == o.flags
              && r == if o.waits then Waits(Animation(ui.value, Lifecycle.HideKind, ui.value.generation)) else Done(ui))
      ensures forall p | p in old(panels) && Some(p) != old(TargetOf(h)) :: p.Flags() == old(p.Flags())
      ensures old(events) <= events
    {
      var ui := TargetOf(h);
      if !IsLive(ui, destroyed) {
        return Done(None);
      }
      var w := SystemHideAsync(ui.value, h.useAnimation);
      r := if w.Some? then Waits(w.value) else Done(ui);
    }

    /** `ExecuteCloseAsync`: nothing for a missing or destroyed target; otherwise
        the target is closed (`SystemCloseAsync`) and returned when the close is
        over, torn down unless it is persistent. No other panel changes. */
    method ExecuteClose(h: OperationHandle) returns (r: Progress)
      requires Inv() && (h.target.Some? ==> h.target.value in panels)
      modifies panels`state, panels`isHiding, panels`active, panels`generation, panels`destroyRequested, this`currentMainUI,
               this`instanceUIs, this`maskActive, this`maskTarget, this`maskColor, this`currentFocus, this`events,
               this`refreshes, panels`isFocused, this`persistence, this`inputSchemes, this`currentInputScheme
      ensures Inv()
      ensures r.Waits? ==> r.anim.panel in panels && r.anim.token == r.anim.panel.generation && r.anim.kind == Lifecycle.CloseKind
      ensures var ui := old(TargetOf(h));
        && (!IsLive(ui, destroyed) ==> r == Done(None) && unchanged(this))
        && (IsLive(ui, destroyed) ==>
              var o := Lifecycle.SystemClose(old(ui.value.Flags()), h.useAnimation, ui.value.template.hasAnimation);
              && ui.value.Flags() == o.flags
              && r == (if o.waits then Waits(Animation(ui.value, Lifecycle.CloseKind, ui.value.generation)) else Done(ui))
              && (old(ui.value.state) != Closed && !o.waits ==> TornDown(ui.value, old(persistence), old(inputSchemes), false)))
      ensures forall p | p in old(panels) && Some(p) != old(TargetOf(h)) :: p.Flags() == old(p.Flags())
      ensures old(events) <= events
    {
      var ui := TargetOf(h);
      if !IsLive(ui, destroyed) {
        return Done(None);
      }
      var w := SystemCloseAsync(ui.value, h.useAnimation);
      r := if w.Some? then Waits(w.value) else Done(ui);
    }

    /** `ExecuteToggleAsync`: a blank path does nothing. A live panel found under
        the path is shown when Hidden, hidden when Shown, returned as it is when
        Closed; without one the path is shown (`ExecuteShowAsync`), which yields
        a Shown panel or an unknown path. */
    method ExecuteToggle(h: OperationHandle) returns (r: Progress)
      requires Inv()
      modifies panels`state, panels`isShowing, panels`isHiding, panels`active, panels`generation, panels`destroyRequested,
               panels`sibling, panels`userData, panels`isFocused,
               this`currentMainUI, this`instanceUIs, this`maskActive, this`maskTarget, this`maskColor, this`currentFocus,
               this`events, this`refreshes, this`persistence, this`inputSchemes, this`currentInputScheme,
               this`suppressRefreshCount, this`loadedUI, this`cacheAlive, this`layers, this`containers, this`panels,
               this`siblingClock
      ensures Inv()
      ensures old(panels) <= panels && fresh(panels - old(panels))
      ensures r.Waits? ==> r.anim.panel in panels && r.anim.token == r.anim.panel.generation && r.anim.kind != Lifecycle.CloseKind
      ensures r.Done? && r.result.Some? ==> r.result.value in panels
      ensures suppressRefreshCount == old(suppressRefreshCount)
      ensures IsBlank(h.path) ==> r == Done(None) && unchanged(this)
      ensures !IsBlank(h.path) && old(FindUI(h.path)).Some? ==>
        var ui := old(FindUI(h.path)).value;
        var o := Lifecycle.Toggle(old(ui.Flags()), h.useAnimation, ui.template.hasAnimation);
        var kind := if old(ui.state) == Hidden then Lifecycle.ShowKind else Lifecycle.HideKind;
        && ui.Flags() == o.flags
        && r == (if o.waits then Waits(Animation(ui, kind, ui.generation)) else Done(Some(ui)))
        && forall p | p in old(panels) && p != ui :: p.Flags() == old(p.Flags())
      ensures !IsBlank(h.path) && old(FindUI(h.path)).None? ==>
        && (r.Done? && r.result.Some? ==> Some(r.result.value.path) == h.path && r.result.value.state == Shown)
        && (r.Waits? ==> Some(r.anim.panel.path) == h.path && r.anim.kind == Lifecycle.ShowKind)
        && (r == Done(None) ==> !old(Loads(h.path.value)) || h.path.value in unbuildable)
    {
      if IsBlank(h.path) {
        return Done(None);
      }
      var ui := FindUI(h.path);
      if ui.None? {
        r := ExecuteShow(h.path, h.useAnimation, h.userData);
        return;
      }
      var p := ui.value;
      if p.state == Hidden {
        var w := SystemShowAsync(p, h.useAnimation);
        return if w.Some? then Waits(w.value) else Done(ui);
      }
      if p.state == Shown {
        var w := SystemHideAsync(p, h.useAnimation);
        return if w.Some? then Waits(w.value) else Done(ui);
      }
      return Done(ui);
    }

    /** `ExecuteDestroyAsync`: nothing for a missing or destroyed target; a
        persistent target is returned untouched unless the handle forces it.
        Otherwise a Shown target is hidden without animation and then destroyed
        (`DestroyInternal` with the handle's `force`, refreshing). */
    method ExecuteDestroy(h: OperationHandle) returns (r: Progress)
      requires Inv() && (h.target.Some? ==> h.target.value in panels)
      modifies panels`state, panels`isHiding, panels`active, panels`generation, panels`destroyRequested, this`currentMainUI,
               this`instanceUIs, this`maskActive, this`maskTarget, this`maskColor, this`currentFocus, this`events,
               this`refreshes, panels`isFocused, this`persistence, this`inputSchemes, this`currentInputScheme
      ensures Inv()
      ensures var ui := old(TargetOf(h));
        && (!IsLive(ui, destroyed) ==> r == Done(None) && unchanged(this))
        && (IsLive(ui, destroyed) ==> r == Done(ui))
        && (IsLive(ui, destroyed) && ui.value in old(persistence) && !h.force ==>
              unchanged(this) && ui.value.Flags() == old(ui.value.Flags()))
        && (IsLive(ui, destroyed) && (ui.value !in old(persistence) || h.force) ==>
              && ui.value.Flags() == Lifecycle.DestroyFlags(old(ui.value.Flags()))
              && TornDown(ui.value, old(persistence), old(inputSchemes), true))
      ensures forall p | p in old(panels) && Some(p) != old(TargetOf(h)) :: p.Flags() == old(p.Flags())
      ensures old(events) <= events
    {
      var ui := TargetOf(h);
      if !IsLive(ui, destroyed) {
        return Done(None);
      }
      var p := ui.value;
      if p in persistence && !h.force {
        return Done(ui);
      }
      if p.state == Shown {
        var _ := SystemHideAsync(p, false);
      }
      var _ := DestroyInternal(p, h.force, true);
      return Done(ui);
    }

    /** The panels `ExecuteDestroyAllAsync` destroys: every destroyed entry of the
        list, and every live one that is not persistent. */
    predicate Doomed(p: Panel)
      reads this`persistence, this`destroyed
    {
      p in destroyed || p !in persistence
    }

    /** The list `ExecuteDestroyAllAsync` collects in one pass over the live list:
        the doomed panels, in list order, once each. */
    method CollectDoomed() returns (list: seq<Panel>)
      requires Inv()
      ensures Distinct(list)
      ensures forall p :: p in list <==> p in instanceUIs && Doomed(p)
      ensures forall j | 0 <= j < |list| :: list[j] in panels && Doomed(list[j])
    {
      list := [];
      var k := 0;
      while k < |instanceUIs|
        invariant 0 <= k <= |instanceUIs|
        invariant Distinct(list)
        invariant forall p :: p in list <==> p in instanceUIs[..k] && Doomed(p)
      {
        var ui := instanceUIs[k];
        assert instanceUIs[..k + 1] == instanceUIs[..k] + [ui];
        if Doomed(ui) {
          assert ui !in instanceUIs[..k];
          DistinctAppend(list, ui);
          list := list + [ui];
        }
        k := k + 1;
      }
      assert instanceUIs[..k] == instanceUIs;
      forall j | 0 <= j < |list|
        ensures list[j] in panels && Doomed(list[j])
      {
        assert list[j] in list;
        var m :| 0 <= m < |instanceUIs| && instanceUIs[m] == list[j];
      }
    }

    /** One step of `ExecuteDestroyAllAsync`, with refreshes suppressed: the panel
        leaves the list; a live one is hidden without animation when Shown and
        destroyed (`DestroyInternal`, forced, without refresh). */
    method DestroyOne(ui: Panel)
      requires Inv() && ui in panels && suppressRefreshCount > 0
      modifies ui`state, ui`isHiding, ui`active, ui`generation, ui`destroyRequested, this`currentMainUI,
               this`instanceUIs, this`maskActive, this`maskTarget, this`maskColor, this`currentFocus, this`events,
               this`refreshes, panels`isFocused, this`persistence, this`inputSchemes, this`currentInputScheme
      ensures Inv()
      ensures ui !in instanceUIs && (forall p | p in instanceUIs :: p in old(instanceUIs))
      ensures forall p | p in old(instanceUIs) && p != ui && p !in destroyed :: p in instanceUIs
      ensures ui !in destroyed ==> ui.destroyRequested && ui.Flags() == Lifecycle.DestroyFlags(old(ui.Flags()))
      ensures ui in destroyed ==> ui.Flags() == old(ui.Flags())
      ensures persistence == old(persistence) - (if ui in destroyed then {} else {ui})
      ensures refreshes == old(refreshes)
      ensures old(events) <= events
    {
      RemoveFromList(ui);
      if ui in destroyed {
        return;
      }
      if ui.state == Shown {
        var _ := SystemHideAsync(ui, false);
      }
      var _ := DestroyInternal(ui, true, false);
    }

    /** The loop of `ExecuteDestroyAllAsync` over the collected list, with
        refreshes suppressed: every listed panel leaves the live list and every
        live one is destroyed; the persistent set and every other panel are kept. */
    method DestroyListed(list: seq<Panel>)
      requires Inv() && suppressRefreshCount > 0 && Distinct(list)
      requires forall j | 0 <= j < |list| :: list[j] in panels
      requires forall j | 0 <= j < |list| :: Doomed(list[j])
      modifies panels`state, panels`isHiding, panels`active, panels`generation, panels`destroyRequested, this`currentMainUI,
               this`instanceUIs, this`maskActive, this`maskTarget, this`maskColor, this`currentFocus, this`events,
               this`refreshes, panels`isFocused, this`persistence, this`inputSchemes, this`currentInputScheme
      ensures Inv()
      ensures persistence == old(persistence) && refreshes == old(refreshes)
      ensures forall p | p in list :: p !in instanceUIs
      ensures forall p | p in list && p !in destroyed ::
        p.destroyRequested && p.Flags() == Lifecycle.DestroyFlags(old(p.Flags()))
      ensures forall p | p in old(panels) && p !in list :: p.Flags() == old(p.Flags())
      ensures forall p | p in instanceUIs :: p in old(instanceUIs)
      ensures forall p | p in old(instanceUIs) && p !in list && p !in destroyed :: p in instanceUIs
      ensures old(events) <= events
    {
      var i := 0;
      while i < |list|
        invariant 0 <= i <= |list|
        invariant Inv() && panels == old(panels)
        invariant persistence == old(persistence) && refreshes == old(refreshes)
        invariant forall j | 0 <= j < i :: list[j] !in instanceUIs
        invariant forall j | 0 <= j < i && list[j] !in destroyed ::
          list[j].destroyRequested && list[j].Flags() == Lifecycle.DestroyFlags(old(list[j].Flags()))
        invariant forall j | i <= j < |list| :: list[j].Flags() == old(list[j].Flags())
        invariant forall p | p in panels && p !in list :: p.Flags() == old(p.Flags())
        invariant forall p | p in instanceUIs :: p in old(instanceUIs)
        invariant forall p | p in old(instanceUIs) && p !in list && p !in destroyed :: p in instanceUIs
        invariant old(events) <= events
      {
        DestroyOne(list[i]);
        i := i + 1;
      }
      forall p | p in list
        ensures p !in instanceUIs
      {
        var j :| 0 <= j < |list| && list[j] == p;
      }
    }

    /** `ExecuteDestroyAllAsync`: a forcing handle clears the persistent set
        first. With refreshes suppressed every doomed panel of the list is
        destroyed (`DestroyOne`); one refresh follows. The persistent panels stay
        in the list untouched; nothing else changes. */
    method ExecuteDestroyAll(h: OperationHandle) returns (r: Progress)
      requires Inv()
      modifies panels`state, panels`isHiding, panels`active, panels`generation, panels`destroyRequested, this`currentMainUI,
               this`instanceUIs, this`maskActive, this`maskTarget, this`maskColor, this`currentFocus, this`events,
               this`refreshes, panels`isFocused, this`persistence, this`inputSchemes, this`currentInputScheme,
               this`suppressRefreshCount
      ensures Inv()
      ensures r == Done(None)
      ensures persistence == if h.force then {} else old(persistence)
      ensures suppressRefreshCount == old(suppressRefreshCount)
      ensures refreshes == old(refreshes) + (if RefreshEnabled() then 1 else 0)
      ensures forall p | p in old(instanceUIs) && (h.force || p !in old(persistence)) && p !in destroyed ::
        p !in instanceUIs && p.destroyRequested && p.Flags() == Lifecycle.DestroyFlags(old(p.Flags()))
      ensures forall p | p in old(instanceUIs) && !h.force && p in old(persistence) && p !in destroyed ::
        p in instanceUIs && p.Flags() == old(p.Flags())
      ensures forall p | p in instanceUIs :: p in old(instanceUIs)
      ensures forall p | p in old(panels) && p !in old(instanceUIs) :: p.Flags() == old(p.Flags())
      ensures old(events) <= events
    {
      if h.force {
        persistence := {};
      }
      var list := CollectDoomed();
      suppressRefreshCount := suppressRefreshCount + 1;
      DestroyListed(list);
      EndSuppression();
      forall p | p in old(instanceUIs) && (h.force || p !in old(persistence)) && p !in destroyed
        ensures p !in instanceUIs && p.destroyRequested && p.Flags() == Lifecycle.DestroyFlags(old(p.Flags()))
      {
        assert p in list;
      }
      return Done(None);
    }

    /** `ExecuteOperationAsync`: dispatches on the handle's type. A Hide, Close or
        Destroy returns its target, or null when the target is missing or
        destroyed; a DestroyAll returns null; an operation that awaits an
        animation awaits one of its own kind, on a known panel, with the current
        token. */
    method ExecuteOperation(h: OperationHandle) returns (r: Progress)
      requires Inv() && (h.target.Some? ==> h.target.value in panels)
      modifies panels`state, panels`isShowing, panels`isHiding, panels`active, panels`generation, panels`destroyRequested,
               panels`sibling, panels`userData, panels`isFocused,
               this`currentMainUI, this`instanceUIs, this`maskActive, this`maskTarget, this`maskColor, this`currentFocus,
               this`events, this`refreshes, this`persistence, this`inputSchemes, this`currentInputScheme,
               this`suppressRefreshCount, this`loadedUI, this`cacheAlive, this`layers, this`containers, this`panels,
               this`siblingClock
      ensures Inv()
      ensures old(panels) <= panels && fresh(panels - old(panels))
      ensures suppressRefreshCount == old(suppressRefreshCount)
      ensures r.Done? && r.result.Some? ==> r.result.value in panels
      ensures r.Waits? ==>
        && r.anim.panel in panels && r.anim.token == r.anim.panel.generation
        && Awaits(h.opType, r.anim.kind)
      ensures h.opType == DestroyAllOp ==> r == Done(None)
      ensures (h.opType == HideOp || h.opType == CloseOp || h.opType == DestroyOp) ==>
        var ui := old(TargetOf(h));
        && (r.Done? ==> r.result == if IsLive(ui, destroyed) then ui else None)
        && (r.Waits? ==> Some(r.anim.panel) == ui)
    {
      match h.opType
      case ShowOp =>
        r := ExecuteShow(h.path, h.useAnimation, h.userData);
      case HideOp =>
        r := ExecuteHide(h);
      case CloseOp =>
        r := ExecuteClose(h);
      case ToggleOp =>
        r := ExecuteToggle(h);
      case DestroyOp =>
        r := ExecuteDestroy(h);
      case DestroyAllOp =>
        r := ExecuteDestroyAll(h);
    }

    /** One turn of the drain loop of `ProcessOperationQueueAsync`: the next
        handle leaves the queue and is marked Running, and its operation runs. It
        is Completed with the operation's panel, unless the operation awaits an
        animation: then the drain is suspended on it. */
    method RunNext() returns (r: Progress)
      requires Inv() && HandleInv() && QueueInv(false) && suppressRefreshCount == 0
      requires isProcessingQueue && suspended.None? && operationQueue != []
      modifies panels`state, panels`isShowing, panels`isHiding, panels`active, panels`generation, panels`destroyRequested,
               panels`sibling, panels`userData, panels`isFocused,
               this`currentMainUI, this`instanceUIs, this`maskActive, this`maskTarget, this`maskColor, this`currentFocus,
               this`events, this`refreshes, this`persistence, this`inputSchemes, this`currentInputScheme,
               this`suppressRefreshCount, this`loadedUI, this`cacheAlive, this`layers, this`containers, this`panels,
               this`siblingClock, this`operationQueue, this`dequeued, this`suspended, operationQueue[0]
      ensures Inv() && HandleInv() && QueueInv(suspended.Some?) && suppressRefreshCount == 0 && isProcessingQueue
      ensures enqueued == old(enqueued) && dequeued == old(dequeued) + [old(operationQueue[0])]
      ensures old(panels) <= panels && fresh(panels - old(panels))
      ensures operationQueue == old(operationQueue[1..])
      ensures var h := old(operationQueue[0]);
        && (r.Done? ==> suspended.None? && h.state == Completed && h.panel == r.result)
        && (r.Waits? ==> suspended == Some(Suspension(h, r.anim)) && h.state == Running)
    {
      var h := TakeNext();
      r := ExecuteOperation(h);
      Settle(h, r);
    }

    /** The head of the loop body: `Dequeue` and `handle.state = Running`. */
    method TakeNext() returns (h: OperationHandle)
      requires HandleInv() && QueueInv(false) && suspended.None? && operationQueue != []
      modifies this`operationQueue, this`dequeued, operationQueue[0]
      ensures HandleInv() && QueueInv(true)
      ensures h == old(operationQueue[0]) && h.state == Running && (h.target.Some? ==> h.target.value in panels)
      ensures dequeued == old(dequeued) + [h] && operationQueue == old(operationQueue[1..])
    {
      h := operationQueue[0];
      assert h == enqueued[|dequeued|];
      operationQueue := operationQueue[1..];
      dequeued := dequeued + [h];
      h.state := Running;
    }

    /** The end of the loop body: the handle is Completed with the operation's
        panel, or, while the operation awaits an animation, the drain is
        suspended on it. */
    method Settle(h: OperationHandle, r: Progress)
      requires HandleInv() && QueueInv(true) && suspended.None?
      requires |dequeued| > 0 && dequeued[|dequeued| - 1] == h && h.state == Running
      requires r.Waits? ==> r.anim.panel in panels
      modifies this`suspended, h`panel, h`state
      ensures HandleInv() && QueueInv(suspended.Some?)
      ensures r.Done? ==> suspended.None? && h.state == Completed && h.panel == r.result
      ensures r.Waits? ==> suspended == Some(Suspension(h, r.anim)) && h.state == Running
    {
      if r.Waits? {
        suspended := Some(Suspension(h, r.anim));
      } else {
        h.panel := r.result;
        h.state := Completed;
      }
    }

    /** The loop of `ProcessOperationQueueAsync`, from a point where it awaits
        nothing: handles run in queue order until the queue is empty, when the
        drain ends (its `finally` finds the queue empty), or until one awaits an
        animation, when the drain stays suspended on that handle. Handles taken
        earlier keep their outcome. */
    method Drain()
      requires Inv() && HandleInv() && QueueInv(false) && suppressRefreshCount == 0
      requires isProcessingQueue && suspended.None?
      modifies panels`state, panels`isShowing, panels`isHiding, panels`active, panels`generation, panels`destroyRequested,
               panels`sibling, panels`userData, panels`isFocused,
               this`currentMainUI, this`instanceUIs, this`maskActive, this`maskTarget, this`maskColor, this`currentFocus,
               this`events, this`refreshes, this`persistence, this`inputSchemes, this`currentInputScheme,
               this`suppressRefreshCount, this`loadedUI, this`cacheAlive, this`layers, this`containers, this`panels,
               this`siblingClock, this`operationQueue, this`dequeued, this`suspended, this`isProcessingQueue,
               set h | h in operationQueue
      ensures Valid()
      ensures enqueued == old(enqueued) && old(dequeued) <= dequeued
      ensures operationId == old(operationId)
      ensures suspended.None? ==> dequeued == enqueued
      ensures suspended.Some? || old(operationQueue) != [] ==> |old(dequeued)| < |dequeued|
    {
      while operationQueue != []
        invariant Inv() && HandleInv() && QueueInv(false) && suppressRefreshCount == 0
        invariant isProcessingQueue && suspended.None?
        invariant enqueued == old(enqueued) && old(dequeued) <= dequeued
        invariant dequeued + operationQueue == old(dequeued) + old(operationQueue)
        invariant forall h | h in operationQueue :: h in old(operationQueue)
        invariant old(panels) <= panels && fresh(panels - old(panels))
        decreases |operationQueue|
      {
        var r := RunNext();
        if r.Waits? {
          return;
        }
      }
      isProcessingQueue := false;
    }

    /** The drain resumes when the animation it awaits ends: the animation
        finishes (`FinishAnimation`); the awaited handle is Failed with the
        exception that escaped the operation, or Completed with the animated
        panel; then the loop runs on. */
    method AnimationFinished()
      requires Valid() && suspended.Some?
      modifies panels`state, panels`isShowing, panels`isHiding, panels`active, panels`generation, panels`destroyRequested,
               panels`sibling, panels`userData, panels`isFocused,
               this`currentMainUI, this`instanceUIs, this`maskActive, this`maskTarget, this`maskColor, this`currentFocus,
               this`events, this`refreshes, this`persistence, this`inputSchemes, this`currentInputScheme,
               this`suppressRefreshCount, this`loadedUI, this`cacheAlive, this`layers, this`containers, this`panels,
               this`siblingClock, this`operationQueue, this`dequeued, this`suspended, this`isProcessingQueue,
               suspended.value.handle, set h | h in operationQueue
      ensures Valid()
      ensures enqueued == old(enqueued) && old(dequeued) <= dequeued
      ensures var s := old(suspended.value);
        var throws := old(s.anim.panel.generation) == s.anim.token && s.anim.kind != Lifecycle.ShowKind
                      && s.anim.panel in destroyed;
        && (throws ==> s.handle.state == Failed && s.handle.exception == Some(MissingReference))
        && (!throws ==> s.handle.state == Completed && s.handle.panel == Some(s.anim.panel))
    {
      Conclude();
      Drain();
    }

    /** The awaited animation finishes (`FinishAnimation`) and the `await`
        returns into the loop body (`Resume`); the queue is as it was. */
    method Conclude()
      requires Valid() && suspended.Some?
      modifies suspended.value.anim.panel`state, suspended.value.anim.panel`isShowing, suspended.value.anim.panel`isHiding,
               suspended.value.anim.panel`active, suspended.value.anim.panel`generation,
               suspended.value.anim.panel`destroyRequested, this`currentMainUI,
               this`instanceUIs, this`maskActive, this`maskTarget, this`maskColor, this`currentFocus, this`events,
               this`refreshes, this`persistence, this`inputSchemes, this`currentInputScheme, panels`isFocused,
               this`suspended, suspended.value.handle
      ensures Inv() && HandleInv() && QueueInv(false) && suppressRefreshCount == 0 && isProcessingQueue && suspended.None?
      ensures old(suspended.value.handle) !in operationQueue
      ensures var s := old(suspended.value);
        var throws := old(s.anim.panel.generation) == s.anim.token && s.anim.kind != Lifecycle.ShowKind
                      && s.anim.panel in destroyed;
        && (throws ==> s.handle.state == Failed && s.handle.exception == Some(MissingReference))
        && (!throws ==> s.handle.state == Completed && s.handle.panel == Some(s.anim.panel))
    {
      var s := suspended.value;
      var ex := FinishAnimation(s.anim);
      Resume(ex);
    }

    /** The `await` returns into the loop body: the awaited handle is Failed with
        the exception, if one escaped, and Completed with the animated panel
        otherwise; the drain no longer awaits anything. */
    method Resume(ex: Option<Exception>)
      requires HandleInv() && QueueInv(true) && suspended.Some?
      modifies this`suspended, suspended.value.handle
      ensures HandleInv() && QueueInv(false) && suspended.None?
      ensures old(suspended.value.handle) !in operationQueue
      ensures var s := old(suspended.value);
        && (ex.Some? ==> s.handle.state == Failed && s.handle.exception == ex)
        && (ex.None? ==> s.handle.state == Completed && s.handle.panel == Some(s.anim.panel))
    {
      var s := suspended.value;
      forall j | 0 <= j < |operationQueue|
        ensures operationQueue[j] != s.handle
      {
        assert operationQueue[j] == enqueued[|dequeued| + j];
        assert enqueued[|dequeued| - 1].id < enqueued[|dequeued| + j].id;
      }
      if ex.Some? {
        s.handle.exception := ex;
        s.handle.state := Failed;
      } else {
        s.handle.panel := Some(s.anim.panel);
        s.handle.state := Completed;
      }
      suspended := None;
    }

    /** `new UIOperationHandle(++_operationId, …)` and `EnqueueOperation`: the
        handle takes the next id and joins the queue. When no drain is running,
        one starts at once (`ProcessOperationQueueAsync().Forget()`): it takes
        the handle and runs it, and the handle ends Completed or Failed, or
        Running with the drain awaiting its animation. While a drain awaits, the
        handle only waits in the queue and nothing else changes. */
    method Enqueue(opType: OperationType, path: Option<string>, useAnimation: bool, userData: Option<UserData>,
                   target: Option<Panel>, force: bool) returns (h: OperationHandle)
      requires Valid() && (target.Some? ==> target.value in panels)
      modifies panels`state, panels`isShowing, panels`isHiding, panels`active, panels`generation, panels`destroyRequested,
               panels`sibling, panels`userData, panels`isFocused,
               this`currentMainUI, this`instanceUIs, this`maskActive, this`maskTarget, this`maskColor, this`currentFocus,
               this`events, this`refreshes, this`persistence, this`inputSchemes, this`currentInputScheme,
               this`suppressRefreshCount, this`loadedUI, this`cacheAlive, this`layers, this`containers, this`panels,
               this`siblingClock, this`operationQueue, this`dequeued, this`suspended, this`isProcessingQueue,
               this`operationId, this`enqueued, this`handles
      ensures Valid()
      ensures fresh(h) && h.id == operationId && operationId == old(operationId) + 1
      ensures h.opType == opType && h.path == path && h.useAnimation == useAnimation && h.userData == userData
      ensures h.target == target && h.force == force
      ensures enqueued == old(enqueued) + [h]
      ensures old(isProcessingQueue) ==>
        && operationQueue == old(operationQueue) + [h] && dequeued == old(dequeued) && h.state == Pending
        && suspended == old(suspended) && instanceUIs == old(instanceUIs) && events == old(events)
      ensures !old(isProcessingQueue) ==>
        && dequeued == old(dequeued) + [h] && operationQueue == []
        && (h.state == Completed || h.state == Failed || (h.state == Running && suspended.Some? && suspended.value.handle == h))
    {
      h := Push(opType, path, useAnimation, userData, target, force);
      if !isProcessingQueue {
        isProcessingQueue := true;
        Drain();
        LastTaken();
      }
    }

    /** `new UIOperationHandle(++_operationId, …)` and `_operationQueue.Enqueue`:
        a Pending handle with the next id joins the end of the queue. */
    method Push(opType: OperationType, path: Option<string>, useAnimation: bool, userData: Option<UserData>,
                target: Option<Panel>, force: bool) returns (h: OperationHandle)
      requires HandleInv() && QueueInv(suspended.Some?) && (target.Some? ==> target.value in panels)
      modifies this`operationId, this`enqueued, this`handles, this`operationQueue
      ensures HandleInv() && QueueInv(suspended.Some?)
      ensures fresh(h) && h.id == operationId && operationId == old(operationId) + 1 && h.state == Pending
      ensures h.opType == opType && h.path == path && h.useAnimation == useAnimation && h.userData == userData
      ensures h.target == target && h.force == force
      ensures enqueued == old(enqueued) + [h] && operationQueue == old(operationQueue) + [h]
    {
      h := new OperationHandle(operationId + 1, opType, path, useAnimation, userData, target, force);
      operationId := operationId + 1;
      handles := handles + {h};
      enqueued := enqueued + [h];
      operationQueue := operationQueue + [h];
    }

    /** The last handle taken has run: it is Completed or Failed, or Running with
        the drain awaiting it. */
    lemma LastTaken()
      requires QueueInv(suspended.Some?) && |dequeued| > 0
      ensures var h := dequeued[|dequeued| - 1];
        h.state == Completed || h.state == Failed || (h.state == Running && suspended.Some? && suspended.value.handle == h)
    {
      assert dequeued[|dequeued| - 1] == enqueued[|dequeued| - 1];
    }

    /** The path `GetPath` gives a panel class under the configured path format. */
    function PathOf(t: PathResolution.PanelType): string
    {
      PathResolution.GetPath(t, PathResolution.PathFormatOf(settings))
    }

    /** `Show(string path, …)` (and `ShowAsync(path, …)`, which awaits the handle):
        enqueues a Show of `path` under the next id. */
    method Show(path: Option<string>, useAnimation: bool, userData: Option<UserData>) returns (h: OperationHandle)
      requires Valid()
      modifies panels`state, panels`isShowing, panels`isHiding, panels`active, panels`generation, panels`destroyRequested,
               panels`sibling, panels`userData, panels`isFocused,
               this`currentMainUI, this`instanceUIs, this`maskActive, this`maskTarget, this`maskColor, this`currentFocus,
               this`events, this`refreshes, this`persistence, this`inputSchemes, this`currentInputScheme,
               this`suppressRefreshCount, this`loadedUI, this`cacheAlive, this`layers, this`containers, this`panels,
               this`siblingClock, this`operationQueue, this`dequeued, this`suspended, this`isProcessingQueue,
               this`operationId, this`enqueued, this`handles
      ensures Valid() && enqueued == old(enqueued) + [h] && h.id == old(operationId) + 1
      ensures h.Holds(ShowOp, path, useAnimation, userData, None, false)
    {
      h := Enqueue(ShowOp, path, useAnimation, userData, None, false);
    }

    /** `Show(Panel ui, object userData, …)`: a null or destroyed panel gives no
        handle and enqueues nothing; otherwise a Show of the path of the panel's
        class, carrying `userData`. `Show(Panel ui, …)` is this call with the
        panel's own `userData`. */
    method ShowPanel(ui: Option<Panel>, userData: Option<UserData>, useAnimation: bool) returns (h: Option<OperationHandle>)
      requires Valid()
      modifies panels`state, panels`isShowing, panels`isHiding, panels`active, panels`generation, panels`destroyRequested,
               panels`sibling, panels`userData, panels`isFocused,
               this`currentMainUI, this`instanceUIs, this`maskActive, this`maskTarget, this`maskColor, this`currentFocus,
               this`events, this`refreshes, this`persistence, this`inputSchemes, this`currentInputScheme,
               this`suppressRefreshCount, this`loadedUI, this`cacheAlive, this`layers, this`containers, this`panels,
               this`siblingClock, this`operationQueue, this`dequeued, this`suspended, this`isProcessingQueue,
               this`operationId, this`enqueued, this`handles
      ensures Valid()
      ensures h.None? <==> !IsLive(ui, destroyed)
      ensures h.None? ==> enqueued == old(enqueued)
      ensures h.Some? ==>
        && enqueued == old(enqueued) + [h.value] && h.value.id == old(operationId) + 1
        && h.value.Holds(ShowOp, Some(PathOf(ui.value.template.panelType)), useAnimation, userData, None, false)
    {
      if !IsLive(ui, destroyed) {
        return None;
      }
      var handle := Show(Some(PathOf(ui.value.template.panelType)), useAnimation, userData);
      return Some(handle);
    }

    /** `Show(Type ui, object userData, …)` (and `Show(Type ui, …)` with null
        `userData`): a null type gives no handle; otherwise a Show of the type's
        path. */
    method ShowType(t: Option<PathResolution.PanelType>, userData: Option<UserData>, useAnimation: bool)
      returns (h: Option<OperationHandle>)
      requires Valid()
      modifies panels`state, panels`isShowing, panels`isHiding, panels`active, panels`generation, panels`destroyRequested,
               panels`sibling, panels`userData, panels`isFocused,
               this`currentMainUI, this`instanceUIs, this`maskActive, this`maskTarget, this`maskColor, this`currentFocus,
               this`events, this`refreshes, this`persistence, this`inputSchemes, this`currentInputScheme,
               this`suppressRefreshCount, this`loadedUI, this`cacheAlive, this`layers, this`containers, this`panels,
               this`siblingClock, this`operationQueue, this`dequeued, this`suspended, this`isProcessingQueue,
               this`operationId, this`enqueued, this`handles
      ensures Valid()
      ensures h.None? <==> t.None?
      ensures h.None? ==> enqueued == old(enqueued)
      ensures h.Some? ==>
        && enqueued == old(enqueued) + [h.value] && h.value.id == old(operationId) + 1
        && h.value.Holds(ShowOp, Some(PathOf(t.value)), useAnimation, userData, None, false)
    {
      if t.None? {
        return None;
      }
      var handle := Show(Some(PathOf(t.value)), useAnimation, userData);
      return Some(handle);
    }

    /** `Hide(Panel ui, …)`: always enqueues a Hide aimed at `ui`; its path is the
        panel's path, or null when `ui` is null or destroyed (Unity's `!=`). */
    method Hide(ui: Option<Panel>, useAnimation: bool) returns (h: OperationHandle)
      requires Valid() && (ui.Some? ==> ui.value in panels)
      modifies panels`state, panels`isShowing, panels`isHiding, panels`active, panels`generation, panels`destroyRequested,
               panels`sibling, panels`userData, panels`isFocused,
               this`currentMainUI, this`instanceUIs, this`maskActive, this`maskTarget, this`maskColor, this`currentFocus,
               this`events, this`refreshes, this`persistence, this`inputSchemes, this`currentInputScheme,
               this`suppressRefreshCount, this`loadedUI, this`cacheAlive, this`layers, this`containers, this`panels,
               this`siblingClock, this`operationQueue, this`dequeued, this`suspended, this`isProcessingQueue,
               this`operationId, this`enqueued, this`handles
      ensures Valid() && enqueued == old(enqueued) + [h] && h.id == old(operationId) + 1
      ensures h.Holds(HideOp, if IsLive(ui, destroyed) then Some(ui.value.path) else None, useAnimation, None, ui, false)
    {
      var path := if IsLive(ui, destroyed) then Some(ui.value.path) else None;
      h := Enqueue(HideOp, path, useAnimation, None, ui, false);
    }

    /** `Hide(string path, …)` (and `Hide<T>`, with the path of `T`): enqueues a
        Hide of `path`. */
    method HidePath(path: Option<string>, useAnimation: bool) returns (h: OperationHandle)
      requires Valid()
      modifies panels`state, panels`isShowing, panels`isHiding, panels`active, panels`generation, panels`destroyRequested,
               panels`sibling, panels`userData, panels`isFocused,
               this`currentMainUI, this`instanceUIs, this`maskActive, this`maskTarget, this`maskColor, this`currentFocus,
               this`events, this`refreshes, this`persistence, this`inputSchemes, this`currentInputScheme,
               this`suppressRefreshCount, this`loadedUI, this`cacheAlive, this`layers, this`containers, this`panels,
               this`siblingClock, this`operationQueue, this`dequeued, this`suspended, this`isProcessingQueue,
               this`operationId, this`enqueued, this`handles
      ensures Valid() && enqueued == old(enqueued) + [h] && h.id == old(operationId) + 1
      ensures h.Holds(HideOp, path, useAnimation, None, None, false)
    {
      h := Enqueue(HideOp, path, useAnimation, None, None, false);
    }

    /** `Close(Panel ui, …)`: always enqueues a Close aimed at `ui`; its path is
        the panel's path, or null when `ui` is null or destroyed. */
    method Close(ui: Option<Panel>, useAnimation: bool) returns (h: OperationHandle)
      requires Valid() && (ui.Some? ==> ui.value in panels)
      modifies panels`state, panels`isShowing, panels`isHiding, panels`active, panels`generation, panels`destroyRequested,
               panels`sibling, panels`userData, panels`isFocused,
               this`currentMainUI, this`instanceUIs, this`maskActive, this`maskTarget, this`maskColor, this`currentFocus,
               this`events, this`refreshes, this`persistence, this`inputSchemes, this`currentInputScheme,
               this`suppressRefreshCount, this`loadedUI, this`cacheAlive, this`layers, this`containers, this`panels,
               this`siblingClock, this`operationQueue, this`dequeued, this`suspended, this`isProcessingQueue,
               this`operationId, this`enqueued, this`handles
      ensures Valid() && enqueued == old(enqueued) + [h] && h.id == old(operationId) + 1
      ensures h.Holds(CloseOp, if IsLive(ui, destroyed) then Some(ui.value.path) else None, useAnimation, None, ui, false)
    {
      var path := if IsLive(ui, destroyed) then Some(ui.value.path) else None;
      h := Enqueue(CloseOp, path, useAnimation, None, ui, false);
    }

    /** `Close(string path, …)` (and `Close<T>`, with the path of `T`): enqueues a
        Close of `path`. */
    method ClosePath(path: Option<string>, useAnimation: bool) returns (h: OperationHandle)
      requires Valid()
      modifies panels`state, panels`isShowing, panels`isHiding, panels`active, panels`generation, panels`destroyRequested,
               panels`sibling, panels`userData, panels`isFocused,
               this`currentMainUI, this`instanceUIs, this`maskActive, this`maskTarget, this`maskColor, this`currentFocus,
               this`events, this`refreshes, this`persistence, this`inputSchemes, this`currentInputScheme,
               this`suppressRefreshCount, this`loadedUI, this`cacheAlive, this`layers, this`containers, this`panels,
               this`siblingClock, this`operationQueue, this`dequeued, this`suspended, this`isProcessingQueue,
               this`operationId, this`enqueued, this`handles
      ensures Valid() && enqueued == old(enqueued) + [h] && h.id == old(operationId) + 1
      ensures h.Holds(CloseOp, path, useAnimation, None, None, false)
    {
      h := Enqueue(CloseOp, path, useAnimation, None, None, false);
    }

    /** `Close(Type type, …)`: a null type gives no handle; otherwise a Close of
        the type's path. */
    method CloseType(t: Option<PathResolution.PanelType>, useAnimation: bool) returns (h: Option<OperationHandle>)
      requires Valid()
      modifies panels`state, panels`isShowing, panels`isHiding, panels`active, panels`generation, panels`destroyRequested,
               panels`sibling, panels`userData, panels`isFocused,
               this`currentMainUI, this`instanceUIs, this`maskActive, this`maskTarget, this`maskColor, this`currentFocus,
               this`events, this`refreshes, this`persistence, this`inputSchemes, this`currentInputScheme,
               this`suppressRefreshCount, this`loadedUI, this`cacheAlive, this`layers, this`containers, this`panels,
               this`siblingClock, this`operationQueue, this`dequeued, this`suspended, this`isProcessingQueue,
               this`operationId, this`enqueued, this`handles
      ensures Valid()
      ensures h.None? <==> t.None?
      ensures h.None? ==> enqueued == old(enqueued)
      ensures h.Some? ==>
        && enqueued == old(enqueued) + [h.value] && h.value.id == old(operationId) + 1
        && h.value.Holds(CloseOp, Some(PathOf(t.value)), useAnimation, None, None, false)
    {
      if t.None? {
        return None;
      }
      var handle := ClosePath(Some(PathOf(t.value)), useAnimation);
      return Some(handle);
    }

    /** `Destroy(Panel ui, force)`: a null or destroyed panel gives no handle;
        otherwise a Destroy aimed at `ui`, with its path, without animation. */
    method Destroy(ui: Option<Panel>, force: bool) returns (h: Option<OperationHandle>)
      requires Valid() && (ui.Some? ==> ui.value in panels)
      modifies panels`state, panels`isShowing, panels`isHiding, panels`active, panels`generation, panels`destroyRequested,
               panels`sibling, panels`userData, panels`isFocused,
               this`currentMainUI, this`instanceUIs, this`maskActive, this`maskTarget, this`maskColor, this`currentFocus,
               this`events, this`refreshes, this`persistence, this`inputSchemes, this`currentInputScheme,
               this`suppressRefreshCount, this`loadedUI, this`cacheAlive, this`layers, this`containers, this`panels,
               this`siblingClock, this`operationQueue, this`dequeued, this`suspended, this`isProcessingQueue,
               this`operationId, this`enqueued, this`handles
      ensures Valid()
      ensures h.None? <==> !IsLive(ui, destroyed)
      ensures h.None? ==> enqueued == old(enqueued)
      ensures h.Some? ==>
        && enqueued == old(enqueued) + [h.value] && h.value.id == old(operationId) + 1
        && h.value.Holds(DestroyOp, Some(ui.value.path), false, None, ui, force)
    {
      if !IsLive(ui, destroyed) {
        return None;
      }
      var handle := Enqueue(DestroyOp, Some(ui.value.path), false, None, ui, force);
      return Some(handle);
    }

    /** `Destroy(string path)` (and `Destroy<T>`, with the path of `T`): enqueues
        an unforced Destroy of `path`. */
    method DestroyPath(path: Option<string>) returns (h: OperationHandle)
      requires Valid()
      modifies panels`state, panels`isShowing, panels`isHiding, panels`active, panels`generation, panels`destroyRequested,
               panels`sibling, panels`userData, panels`isFocused,
               this`currentMainUI, this`instanceUIs, this`maskActive, this`maskTarget, this`maskColor, this`currentFocus,
               this`events, this`refreshes, this`persistence, this`inputSchemes, this`currentInputScheme,
               this`suppressRefreshCount, this`loadedUI, this`cacheAlive, this`layers, this`containers, this`panels,
               this`siblingClock, this`operationQueue, this`dequeued, this`suspended, this`isProcessingQueue,
               this`operationId, this`enqueued, this`handles
      ensures Valid() && enqueued == old(enqueued) + [h] && h.id == old(operationId) + 1
      ensures h.Holds(DestroyOp, path, false, None, None, false)
    {
      h := Enqueue(DestroyOp, path, false, None, None, false);
    }

    /** `DestroyAll(force)`: enqueues a DestroyAll, without a path. */
    method DestroyAll(force: bool) returns (h: OperationHandle)
      requires Valid()
      modifies panels`state, panels`isShowing, panels`isHiding, panels`active, panels`generation, panels`destroyRequested,
               panels`sibling, panels`userData, panels`isFocused,
               this`currentMainUI, this`instanceUIs, this`maskActive, this`maskTarget, this`maskColor, this`currentFocus,
               this`events, this`refreshes, this`persistence, this`inputSchemes, this`currentInputScheme,
               this`suppressRefreshCount, this`loadedUI, this`cacheAlive, this`layers, this`containers, this`panels,
               this`siblingClock, this`operationQueue, this`dequeued, this`suspended, this`isProcessingQueue,
               this`operationId, this`enqueued, this`handles
      ensures Valid() && enqueued == old(enqueued) + [h] && h.id == old(operationId) + 1
      ensures h.Holds(DestroyAllOp, None, false, None, None, force)
    {
      h := Enqueue(DestroyAllOp, None, false, None, None, force);
    }

    /** `ShowOrHide(path, useAnimation, userData)` (and its overloads, with null
        `userData` or the path of `T`): enqueues a Toggle of `path`. */
    method ShowOrHide(path: Option<string>, useAnimation: bool, userData: Option<UserData>) returns (h: OperationHandle)
      requires Valid()
      modifies panels`state, panels`isShowing, panels`isHiding, panels`active, panels`generation, panels`destroyRequested,
               panels`sibling, panels`userData, panels`isFocused,
               this`currentMainUI, this`instanceUIs, this`maskActive, this`maskTarget, this`maskColor, this`currentFocus,
               this`events, this`refreshes, this`persistence, this`inputSchemes, this`currentInputScheme,
               this`suppressRefreshCount, this`loadedUI, this`cacheAlive, this`layers, this`containers, this`panels,
               this`siblingClock, this`operationQueue, this`dequeued, this`suspended, this`isProcessingQueue,
               this`operationId, this`enqueued, this`handles
      ensures Valid() && enqueued == old(enqueued) + [h] && h.id == old(operationId) + 1
      ensures h.Holds(ToggleOp, path, useAnimation, userData, None, false)
    {
      h := Enqueue(ToggleOp, path, useAnimation, userData, None, false);
    }

    /** `AutoClose(Panel panel, reason, …)`: a null or destroyed panel is ignored;
        otherwise the panel's answer to `reason` enqueues a Hide (`Hide(panel)`),
        a Close (`Close(panel)`) or nothing. */
    method AutoClose(panel: Option<Panel>, reason: AutoCloseReason, useAnimation: bool) returns (h: Option<OperationHandle>)
      requires Valid() && (panel.Some? ==> panel.value in panels)
      modifies panels`state, panels`isShowing, panels`isHiding, panels`active, panels`generation, panels`destroyRequested,
               panels`sibling, panels`userData, panels`isFocused,
               this`currentMainUI, this`instanceUIs, this`maskActive, this`maskTarget, this`maskColor, this`currentFocus,
               this`events, this`refreshes, this`persistence, this`inputSchemes, this`currentInputScheme,
               this`suppressRefreshCount, this`loadedUI, this`cacheAlive, this`layers, this`containers, this`panels,
               this`siblingClock, this`operationQueue, this`dequeued, this`suspended, this`isProcessingQueue,
               this`operationId, this`enqueued, this`handles
      ensures Valid()
      ensures h.None? <==> !IsLive(panel, destroyed) || panel.value.template.autoClose.Get(reason) == AutoNone
      ensures h.None? ==> enqueued == old(enqueued)
      ensures h.Some? ==>
        var op := if panel.value.template.autoClose.Get(reason) == AutoHide then HideOp else CloseOp;
        && enqueued == old(enqueued) + [h.value] && h.value.id == old(operationId) + 1
        && h.value.Holds(op, Some(panel.value.path), useAnimation, None, panel, false)
    {
      if !IsLive(panel, destroyed) {
        return None;
      }
      match panel.value.template.autoClose.Get(reason)
      case AutoNone =>
        return None;
      case AutoHide =>
        var handle := Hide(panel, useAnimation);
        return Some(handle);
      case AutoClose =>
        var handle := Close(panel, useAnimation);
        return Some(handle);
    }

    /** `AutoClose(string path, reason, …)` (and `AutoClose<T>`, which looks the
        panel up by the path of `T`): auto-closes the live panel `FindUI` finds, if any. */
    method AutoClosePath(path: Option<string>, reason: AutoCloseReason, useAnimation: bool) returns (h: Option<OperationHandle>)
      requires Valid()
      modifies panels`state, panels`isShowing, panels`isHiding, panels`active, panels`generation, panels`destroyRequested,
               panels`sibling, panels`userData, panels`isFocused,
               this`currentMainUI, this`instanceUIs, this`maskActive, this`maskTarget, this`maskColor, this`currentFocus,
               this`events, this`refreshes, this`persistence, this`inputSchemes, this`currentInputScheme,
               this`suppressRefreshCount, this`loadedUI, this`cacheAlive, this`layers, this`containers, this`panels,
               this`siblingClock, this`operationQueue, this`dequeued, this`suspended, this`isProcessingQueue,
               this`operationId, this`enqueued, this`handles
      ensures Valid()
      ensures var p := old(FindUI(path));
        && (h.None? <==> p.None? || p.value.template.autoClose.Get(reason) == AutoNone)
        && (h.None? ==> enqueued == old(enqueued))
        && (h.Some? ==> enqueued == old(enqueued) + [h.value] && h.value.target == p && h.value.path == path)
    {
      var p := FindUI(path);
      if p.None? {
        return None;
      }
      h := AutoClose(p, reason, useAnimation);
    }

    /** A panel that is a pop-up and Shown (the test of `GetPopUI`, `HasPopUI`
        and `AutoCloseTopPopUI`). */
    static predicate ShownPop(p: Panel)
      reads p`state
    {
      p.state == Shown && p.template.pop.Some?
    }

    /** `AutoClosePopUI`: a null, destroyed or not Shown pop-up is ignored;
        otherwise it is auto-closed for `PopAutoClose`. */
    method AutoClosePopUI(pop: Option<Panel>, useAnimation: bool) returns (h: Option<OperationHandle>)
      requires Valid() && (pop.Some? ==> pop.value in panels && pop.value.template.pop.Some?)
      modifies panels`state, panels`isShowing, panels`isHiding, panels`active, panels`generation, panels`destroyRequested,
               panels`sibling, panels`userData, panels`isFocused,
               this`currentMainUI, this`instanceUIs, this`maskActive, this`maskTarget, this`maskColor, this`currentFocus,
               this`events, this`refreshes, this`persistence, this`inputSchemes, this`currentInputScheme,
               this`suppressRefreshCount, this`loadedUI, this`cacheAlive, this`layers, this`containers, this`panels,
               this`siblingClock, this`operationQueue, this`dequeued, this`suspended, this`isProcessingQueue,
               this`operationId, this`enqueued, this`handles
      ensures Valid()
      ensures h.None? <==>
        !IsLive(pop, destroyed) || old(pop.value.state) != Shown || pop.value.template.autoClose.Get(PopAutoClose) == AutoNone
      ensures h.None? ==> enqueued == old(enqueued)
      ensures h.Some? ==>
        var op := if pop.value.template.autoClose.Get(PopAutoClose) == AutoHide then HideOp else CloseOp;
        && enqueued == old(enqueued) + [h.value] && h.value.id == old(operationId) + 1
        && h.value.Holds(op, Some(pop.value.path), useAnimation, None, pop, false)
    {
      if !IsLive(pop, destroyed) || pop.value.state != Shown {
        return None;
      }
      h := AutoClose(pop, PopAutoClose, useAnimation);
    }

    /** What `AutoCloseTopPopUI` reads of each panel of the list. */
    function PopViews(s: seq<Panel>): (vs: seq<PopUIPolicy.PopView>)
      reads s
      ensures |vs| == |s|
    {
      seq(|s|, i requires 0 <= i < |s| reads s =>
        PopUIPolicy.PopView(s[i].state == Shown, s[i].template.pop.Some?,
                            if s[i].template.pop.Some? then s[i].template.pop.value.autoCloseTopType else TopNone))
    }

    /** The scan of `AutoCloseTopPopUI`: Shown pop-ups marked Ignore are skipped,
        one marked None ends the scan with nothing, and the first other one is
        the pop-up to close; the index found is the one `TopPopTarget` picks. */
    method FindTopPop() returns (k: Option<nat>)
      ensures k == PopUIPolicy.TopPopTarget(PopViews(instanceUIs))
      ensures k.Some? ==> k.value < |instanceUIs| && ShownPop(instanceUIs[k.value])
    {
      ghost var vs := PopViews(instanceUIs);
      var i := 0;
      while i < |instanceUIs|
        invariant i <= |instanceUIs|
        invariant forall j | 0 <= j < i && vs[j].shown && vs[j].isPop :: vs[j].topType == TopIgnore
      {
        var ui := instanceUIs[i];
        if ShownPop(ui) {
          var topType := ui.template.pop.value.autoCloseTopType;
          if topType == TopIgnore {
            i := i + 1;
            continue;
          }
          PopUIPolicy.TopPopTargetSkips(vs, i);
          if topType == TopNone {
            return None;
          }
          return Some(i);
        }
        i := i + 1;
      }
      PopUIPolicy.TopPopTargetSkips(vs, i);
      return None;
    }

    /** `AutoCloseTopPopUI`: the pop-up the scan finds, if any, is auto-closed for
        `PopAutoClose`; at most one pop-up is acted on. */
    method AutoCloseTopPopUI(useAnimation: bool) returns (h: Option<OperationHandle>)
      requires Valid()
      modifies panels`state, panels`isShowing, panels`isHiding, panels`active, panels`generation, panels`destroyRequested,
               panels`sibling, panels`userData, panels`isFocused,
               this`currentMainUI, this`instanceUIs, this`maskActive, this`maskTarget, this`maskColor, this`currentFocus,
               this`events, this`refreshes, this`persistence, this`inputSchemes, this`currentInputScheme,
               this`suppressRefreshCount, this`loadedUI, this`cacheAlive, this`layers, this`containers, this`panels,
               this`siblingClock, this`operationQueue, this`dequeued, this`suspended, this`isProcessingQueue,
               this`operationId, this`enqueued, this`handles
      ensures Valid()
      ensures var k := PopUIPolicy.TopPopTarget(old(PopViews(instanceUIs)));
        && (k.None? ==> h.None? && enqueued == old(enqueued))
        && (k.Some? ==>
              var pop := old(instanceUIs)[k.value];
              && (h.None? <==> pop in destroyed || pop.template.autoClose.Get(PopAutoClose) == AutoNone)
              && (h.None? ==> enqueued == old(enqueued))
              && (h.Some? ==> enqueued == old(enqueued) + [h.value] && h.value.target == Some(pop)))
    {
      var k := FindTopPop();
      if k.None? {
        return None;
      }
      h := AutoClose(Some(instanceUIs[k.value]), PopAutoClose, useAnimation);
    }

    /** `GetPopUI`: the first Shown pop-up of the list, or null. */
    method GetPopUI() returns (pop: Option<Panel>)
      ensures pop.None? <==> forall j | 0 <= j < |instanceUIs| :: !ShownPop(instanceUIs[j])
      ensures pop.Some? ==> exists j | 0 <= j < |instanceUIs| ::
        && instanceUIs[j] == pop.value && ShownPop(pop.value)
        && forall k | 0 <= k < j :: !ShownPop(instanceUIs[k])
    {
      var i := 0;
      while i < |instanceUIs|
        invariant i <= |instanceUIs|
        invariant forall j | 0 <= j < i :: !ShownPop(instanceUIs[j])
      {
        if ShownPop(instanceUIs[i]) {
          return Some(instanceUIs[i]);
        }
        i := i + 1;
      }
      return None;
    }

    /** `HasPopUI`: some panel of the list is a Shown pop-up, exactly when
        `GetPopUI` finds one. */
    method HasPopUI() returns (b: bool)
      ensures b <==> exists j | 0 <= j < |instanceUIs| :: ShownPop(instanceUIs[j])
    {
      var i := 0;
      while i < |instanceUIs|
        invariant i <= |instanceUIs|
        invariant forall j | 0 <= j < i :: !ShownPop(instanceUIs[j])
      {
        if ShownPop(instanceUIs[i]) {
          return true;
        }
        i := i + 1;
      }
      return false;
    }

    /** `Create<T>`: the live panel under the path of `T`, or else a new one made
        by `Instantiate`; nothing is queued or shown. */
    method Create(t: PathResolution.PanelType) returns (ui: Option<Panel>)
      requires Inv()
      modifies this`loadedUI, this`cacheAlive, this`events, this`layers, this`containers,
               this`instanceUIs, this`panels, this`siblingClock
      ensures Inv()
      ensures var path := PathOf(t);
        var found := old(FindUI(Some(path)));
        && (found.Some? ==> ui == found && instanceUIs == old(instanceUIs) && panels == old(panels))
        && (found.None? ==> (ui.Some? <==> old(Loads(path)) && path !in unbuildable))
        && (found.None? && ui.None? ==> instanceUIs == old(instanceUIs))
        && (found.None? && ui.Some? ==>
              && fresh(ui.value) && instanceUIs == old(instanceUIs) + [ui.value]
              && ui.value.path == path && ui.value.state == Hidden && !ui.value.active)
    {
      var path := PathOf(t);
      ui := FindUI(Some(path));
      if ui.None? {
        ui := Instantiate(path);
      }
    }

    /** `LoadPersistenceUI(path)` (and `LoadPersistenceUI<T>`, with the path of
        `T`): the live panel under `path`, or else a new one, made inactive and
        persistent; null when it cannot be made. A panel already found is
        returned as it is, whether persistent or not. */
    method LoadPersistenceUI(path: string) returns (panel: Option<Panel>)
      requires Inv()
      modifies this`loadedUI, this`cacheAlive, this`events, this`layers, this`containers,
               this`instanceUIs, this`panels, this`siblingClock, this`persistence
      ensures Inv()
      ensures var found := old(FindUI(Some(path)));
        && (found.Some? ==> panel == found && persistence == old(persistence) && instanceUIs == old(instanceUIs))
        && (found.None? ==> (panel.Some? <==> old(Loads(path)) && path !in unbuildable))
        && (found.None? && panel.None? ==> persistence == old(persistence) && instanceUIs == old(instanceUIs))
        && (found.None? && panel.Some? ==>
              && fresh(panel.value) && instanceUIs == old(instanceUIs) + [panel.value]
              && persistence == old(persistence) + {panel.value}
              && panel.value.path == path && panel.value.state == Hidden && !panel.value.active)
    {
      panel := FindUI(Some(path));
      if panel.None? {
        panel := Instantiate(path);
        if panel.None? {
          return None;
        }
        panel.value.active := false;
        SetPersistenceUI(panel);
      }
    }

    /** `IsMainUIPath`: the prefab of `path` loads and is a main screen; a
        missing prefab, or one that is not a main screen, is logged. */
    method IsMainUIPath(path: string) returns (b: bool)
      modifies this`loadedUI, this`cacheAlive, this`events
      ensures b <==> old(Loads(path)) && old(TemplateFor(path)).isMain
      ensures !b ==> |events| > 0 && events[|events| - 1] == Warning(path)
      ensures old(events) <= events
    {
      var prefab := LoadUI(path);
      if prefab.None? {
        events := events + [Warning(path)];
        return false;
      }
      if !prefab.value.isMain {
        events := events + [Warning(path)];
        return false;
      }
      return true;
    }

    /** The scan of `OnMaskClick`: the first Shown panel of the list that uses the
        mask, the one `Resolver.FirstIndex` finds for `ClickTarget`. */
    method FindClickTarget() returns (k: Option<nat>)
      ensures k == Resolver.FirstIndex(ViewsOf(instanceUIs), Resolver.ClickTarget)
      ensures k.Some? ==> k.value < |instanceUIs| && instanceUIs[k.value].state == Shown
                          && instanceUIs[k.value].template.useMask
    {
      ghost var vs := ViewsOf(instanceUIs);
      Resolver.FirstIndexIsFirst(vs, Resolver.ClickTarget);
      var i := 0;
      while i < |instanceUIs|
        invariant i <= |instanceUIs|
        invariant forall j | 0 <= j < i :: !Resolver.Matches(Resolver.ClickTarget, vs[j])
      {
        ViewsOfAt(instanceUIs, i);
        var ui := instanceUIs[i];
        if ui.template.useMask && ui.state == Shown {
          return Some(i);
        }
        i := i + 1;
      }
      return None;
    }

    /** `OnMaskClick`: the click goes to the first Shown panel of the list that
        uses the mask, and only when it is a pop-up (`IMaskClickable`); at most
        one panel is notified. */
    method OnMaskClick() returns (clicked: Option<Panel>, thrown: Option<Exception>)
      requires Valid()
      modifies panels`state, panels`isShowing, panels`isHiding, panels`active, panels`generation, panels`destroyRequested,
               panels`sibling, panels`userData, panels`isFocused, panels`isAnimationPlaying, panels`tasks,
               this`currentMainUI, this`instanceUIs, this`maskActive, this`maskTarget, this`maskColor, this`currentFocus,
               this`events, this`refreshes, this`persistence, this`inputSchemes, this`currentInputScheme,
               this`suppressRefreshCount, this`loadedUI, this`cacheAlive, this`layers, this`containers, this`panels,
               this`siblingClock, this`operationQueue, this`dequeued, this`suspended, this`isProcessingQueue,
               this`operationId, this`enqueued, this`handles
      ensures Valid()
      ensures var k := Resolver.FirstIndex(old(ViewsOf(instanceUIs)), Resolver.ClickTarget);
        && (k.None? ==> clicked.None?)
        && (k.Some? ==> clicked == (if old(instanceUIs)[k.value].template.pop.Some? then Some(old(instanceUIs)[k.value]) else None))
      ensures clicked.None? ==> thrown.None? && enqueued == old(enqueued)
      ensures clicked.Some? ==>
        (thrown.Some? <==> PopUIPolicy.OnMaskClick(clicked.value.template.pop.value.maskClickOperation).Err?)
    {
      var k := FindClickTarget();
      if k.None? {
        return None, None;
      }
      var ui := instanceUIs[k.value];
      if ui.template.pop.None? {
        return None, None;
      }
      var ex, h;
      thrown, ex, h := ui.PopMaskClick();
      return Some(ui), thrown;
    }

    /** The end of a frame: Unity destroys `requested`, which holds every panel
        whose destruction was requested and may hold others (a scene that
        unloads takes its panels with it), and `FindUI` no longer finds any of
        them. */
    method EndOfFrame(requested: set<Panel>)
      requires forall p | p in panels && p.destroyRequested :: p in requested
      modifies this`destroyed
      ensures destroyed == old(destroyed) + requested
      ensures forall p | p in requested :: FindUI(Some(p.path)) != Some(p)
    {
      destroyed := destroyed + requested;
    }
  }

  /** A permutation of the live panels of `a` holds exactly the live panels of
      `a`. */
  lemma LiveMembers(a: seq<Panel>, b: seq<Panel>, destroyed: set<Panel>)
    requires multiset(b) == multiset(LiveOnly(a, destroyed))
    ensures forall p | p in b :: p in a
    ensures forall p | p in a && p !in destroyed :: p in b
  {
    var live := LiveOnly(a, destroyed);
    forall p | p in b
      ensures p in a
    {
      assert p in multiset(b);
      assert p in multiset(live);
    }
    forall p | p in a && p !in destroyed
      ensures p in b
    {
      assert p in multiset(live);
      assert p in multiset(b);
    }
  }

  /** Appending a new element keeps a list free of repetitions. */
  lemma DistinctAppend<T>(s: seq<T>, x: T)
    requires Distinct(s) && x !in s
    ensures Distinct(s + [x])
  {
  }

  /** A permutation of a list without repetitions has none either. */
  lemma PermutationKeepsDistinct<T>(a: seq<T>, b: seq<T>)
    requires Distinct(a) && multiset(a) == multiset(b)
    ensures Distinct(b)
  {
    forall i, j | 0 <= i < j < |b|
      ensures b[i] != b[j]
    {
      if b[i] == b[j] {
        TwiceCounted(b, i, j);
        DistinctCountsOnce(a, b[i]);
      }
    }
  }

  /** An element at two positions is counted at least twice. */
  lemma TwiceCounted<T>(s: seq<T>, i: nat, j: nat)
    requires i < j < |s| && s[i] == s[j]
    ensures multiset(s)[s[i]] >= 2
  {
    assert s == s[..j] + [s[j]] + s[j + 1..];
    assert s[i] in s[..j];
  }

  /** In a list without repetitions every element is counted at most once. */
  lemma {:induction false} DistinctCountsOnce<T>(s: seq<T>, x: T)
    requires Distinct(s)
    ensures multiset(s)[x] <= 1
  {
    if |s| > 0 {
      assert s == [s[0]] + s[1..];
      DistinctCountsOnce(s[1..], x);
      if s[0] == x {
        assert x !in s[1..];
      }
    }
  }
}
