/** Value types shared by the whole model: the enums of the panel system,
    nullable strings, colours and the "null or white space" test. */
module UITypes {

  /** A nullable reference or string. */
  datatype Option<+T> = None | Some(value: T)

  /** C#'s `Result`-like outcome for an operation that may throw. */
  datatype Result<+T, +E> = Ok(value: T) | Err(error: E)

  /** Lifecycle of a panel: Hidden is initial, Closed is terminal. */
  datatype StateEnum = Hidden | Shown | Closed

  /** The six kinds of queued operation. */
  datatype OperationType = ShowOp | HideOp | CloseOp | ToggleOp | DestroyOp | DestroyAllOp

  /** Completion state of an operation handle. */
  datatype OperationState = Pending | Running | Completed | Failed | Canceled

  /** What a panel does when the main screen changes (`MainUIChangeBehavior`). */
  datatype MainUIChangeBehavior = ChangeNone | ChangeHide | ChangeClose

  /** Why a panel is being closed automatically (`AutoCloseReason`). */
  datatype AutoCloseReason = MaskClick | PopAutoClose | MainUISwitch | DestroyAllReason

  /** The answer of a panel's auto-close policy (`AutoCloseBehavior`). */
  datatype AutoCloseBehavior = AutoNone | AutoHide | AutoClose

  /** A panel's auto-close policy, one answer per reason (`GetAutoCloseType`). */
  datatype AutoClosePolicy = AutoClosePolicy(
    onMaskClick: AutoCloseBehavior,
    onPopAutoClose: AutoCloseBehavior,
    onMainUISwitch: AutoCloseBehavior,
    onDestroyAll: AutoCloseBehavior)
  {
    function Get(reason: AutoCloseReason): AutoCloseBehavior
    {
      match reason
      case MaskClick => onMaskClick
      case PopAutoClose => onPopAutoClose
      case MainUISwitch => onMainUISwitch
      case DestroyAllReason => onDestroyAll
    }
  }

  /** What a mask click does on a pop-up (`PopUI.MaskClickOperationType`); a C# enum
      variable can hold any integer, so an out-of-range value is kept as `Undefined`. */
  datatype MaskClickOperation =
    | ClickNone | ClickHide | ClickClose | ClickDirectHide | ClickDirectClose
    | Undefined(raw: int)

  /** How a pop-up reacts to "close the top pop-up" (`AutoCloseTopTypeEnum`). */
  datatype AutoCloseTopType = TopNone | TopIgnore | TopHide | TopClose

  /** An RGBA colour. */
  datatype Color = Color(r: real, g: real, b: real, a: real)

  /** The colour used when neither the panel nor the settings give one. */
  const DefaultMaskColor: Color := Color(0.0, 0.0, 0.0, 0.95)

  /** The project settings the core reads (`EzUISettings`); `panelPathFormat` is
      nullable. */
  datatype Settings = Settings(
    maskColor: Color,
    maskClickable: bool,
    defaultGameInputScheme: string,
    panelPathFormat: Option<string>)

  /** The values a fresh settings asset holds. */
  const DefaultSettings: Settings := Settings(DefaultMaskColor, true, "Game", Some("UI/{0}"))

  /** Opaque `userData` handed to a panel when it is shown. */
  datatype UserData = UserData(id: nat)

  /** An exception value; only its identity matters to the model. */
  datatype Exception = Exception(code: nat)

  /** Thrown by `PopUI.OnMaskClick` for an operation value outside the enum. */
  const ArgumentOutOfRange: Exception := Exception(1)

  /** Thrown by Unity when a destroyed object's `gameObject` is used. */
  const MissingReference: Exception := Exception(2)

  /** `char.IsWhiteSpace`: the Unicode space separators, the line and paragraph
      separators, and the control characters U+0009..U+000D and U+0085. */
  predicate IsWhiteSpace(c: char)
  {
    c == ' ' || ('\t' <= c <= '\r') || c == '\U{0085}' || c == '\U{00A0}'
    || c == '\U{1680}' || ('\U{2000}' <= c <= '\U{200A}') || c == '\U{2028}'
    || c == '\U{2029}' || c == '\U{202F}' || c == '\U{205F}' || c == '\U{3000}'
  }

  /** `string.IsNullOrWhiteSpace`. */
  predicate IsBlank(s: Option<string>)
  {
    match s
    case None => true
    case Some(t) => forall i :: 0 <= i < |t| ==> IsWhiteSpace(t[i])
  }
}
