/** The request events `UISystem` subscribes to and the API call each one turns
    into (`RegisterEventHandlers`). */
module Requests {
  import opened UITypes
  import opened PathResolution

  /** The panel a request names: an explicit path, a panel class, or both. */
  datatype Target = Target(path: Option<string>, panelType: Option<PanelType>)

  /** The request events. */
  datatype Request =
    | ShowRequest(target: Target, useAnimation: bool, userData: Option<UserData>)
    | HideRequest(target: Target, useAnimation: bool)
    | CloseRequest(target: Target, useAnimation: bool)
    | DestroyRequest(target: Target, force: bool)
    | DestroyAllRequest(force: bool)
    | ShowOrHideRequest(target: Target, useAnimation: bool)
    | ShowMainRequest(target: Target, useAnimation: bool, userData: Option<UserData>)
    | SwitchMainRequest(target: Target, useAnimation: bool, userData: Option<UserData>)
    | LoadPersistenceRequest(target: Target)
    | SetPersistenceRequest(target: Target, persistent: bool)
    | RefreshRequest

  /** The `UISystem` call a handler makes. `DestroyFound` and `SetPersistenceFound`
      first look the path up with `FindUI`. */
  datatype ApiCall =
    | ShowCall(path: string, useAnimation: bool, userData: Option<UserData>)
    | HideCall(path: string, useAnimation: bool)
    | CloseCall(path: string, useAnimation: bool)
    | DestroyFound(path: string, force: bool)
    | DestroyAllCall(force: bool)
    | ShowOrHideCall(path: string, useAnimation: bool)
    | LoadPersistenceCall(path: string)
    | SetPersistenceFound(path: string, persistent: bool)
    | RefreshCall

  /** Requests that carry a target. */
  predicate HasTarget(r: Request)
  {
    !(r.DestroyAllRequest? || r.RefreshRequest?)
  }

  /** The path a targeted request resolves to. */
  function RequestPath(r: Request, format: string): Option<string>
    requires HasTarget(r)
  {
    ResolvePath(r.target.path, r.target.panelType, format)
  }

  /** The handler of each request: a targeted request whose path resolves to null
      or white space is dropped; otherwise the call gets the resolved path. */
  function Translate(r: Request, format: string): Option<ApiCall>
  {
    if HasTarget(r) && IsBlank(RequestPath(r, format)) then None
    else
      match r
      case ShowRequest(t, a, u) => Some(ShowCall(RequestPath(r, format).value, a, u))
      case HideRequest(t, a) => Some(HideCall(RequestPath(r, format).value, a))
      case CloseRequest(t, a) => Some(CloseCall(RequestPath(r, format).value, a))
      case DestroyRequest(t, f) => Some(DestroyFound(RequestPath(r, format).value, f))
      case DestroyAllRequest(f) => Some(DestroyAllCall(f))
      case ShowOrHideRequest(t, a) => Some(ShowOrHideCall(RequestPath(r, format).value, a))
      case ShowMainRequest(t, a, u) => Some(ShowCall(RequestPath(r, format).value, a, u))
      case SwitchMainRequest(t, a, u) => Some(ShowCall(RequestPath(r, format).value, a, u))
      case LoadPersistenceRequest(t) => Some(LoadPersistenceCall(RequestPath(r, format).value))
      case SetPersistenceRequest(t, p) => Some(SetPersistenceFound(RequestPath(r, format).value, p))
      case RefreshRequest => Some(RefreshCall)
  }

  /** The path a call acts on, if it takes one. */
  function CallPath(c: ApiCall): Option<string>
  {
    if c.DestroyAllCall? || c.RefreshCall? then None else Some(c.path)
  }

  /** A handler drops a request exactly when the request has a target that
      resolves to null or white space, and otherwise calls the API with the
      resolved path. */
  lemma TranslateSpec(r: Request, format: string)
    ensures Translate(r, format).None? <==> HasTarget(r) && IsBlank(RequestPath(r, format))
    ensures Translate(r, format).Some? && HasTarget(r) ==>
      CallPath(Translate(r, format).value) == RequestPath(r, format)
    ensures !HasTarget(r) ==> CallPath(Translate(r, format).value).None?
  {
  }

  /** "Show the main screen" and "switch the main screen" are ordinary queued
      shows: they translate exactly like a show request with the same fields. */
  lemma MainRequestsAreShows(t: Target, a: bool, u: Option<UserData>, format: string)
    ensures Translate(ShowMainRequest(t, a, u), format) == Translate(ShowRequest(t, a, u), format)
    ensures Translate(SwitchMainRequest(t, a, u), format) == Translate(ShowRequest(t, a, u), format)
  {
  }

  /** With the fallback format, a request naming a usable path or any panel class
      is never dropped. */
  lemma NamedRequestsAreHandled(r: Request)
    requires HasTarget(r) && (!IsBlank(r.target.path) || r.target.panelType.Some?)
    ensures Translate(r, FallbackFormat).Some?
  {
    ResolvedPathIsUsable(r.target.path, r.target.panelType, None);
  }

  /** A request that produces a given call: the inverse of `Translate` on calls
      whose path is usable. */
  function RequestFor(c: ApiCall): Request
  {
    var t := if c.DestroyAllCall? || c.RefreshCall? then Target(None, None) else Target(Some(c.path), None);
    match c
    case ShowCall(_, a, u) => ShowRequest(t, a, u)
    case HideCall(_, a) => HideRequest(t, a)
    case CloseCall(_, a) => CloseRequest(t, a)
    case DestroyFound(_, f) => DestroyRequest(t, f)
    case DestroyAllCall(f) => DestroyAllRequest(f)
    case ShowOrHideCall(_, a) => ShowOrHideRequest(t, a)
    case LoadPersistenceCall(_) => LoadPersistenceRequest(t)
    case SetPersistenceFound(_, p) => SetPersistenceRequest(t, p)
    case RefreshCall => RefreshRequest
  }

  /** Every call whose path is usable is what some request becomes: translating
      `RequestFor(c)` gives `c` back under any format. */
  lemma TranslateRoundTrip(c: ApiCall, format: string)
    requires CallPath(c).Some? ==> !IsBlank(CallPath(c))
    ensures Translate(RequestFor(c), format) == Some(c)
  {
  }
}
