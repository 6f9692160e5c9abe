/** The pop-up policies of `PopUI`: what a click on the mask does, and which
    shown pop-up "close the top pop-up" acts on. */
module PopUIPolicy {
  import opened UITypes

  /** What a panel is asked to do: nothing, `Hide(useAnimation)` or
      `Close(useAnimation)`. */
  datatype PanelAction = NoAction | HideAction(useAnimation: bool) | CloseAction(useAnimation: bool)

  /** `PopUI.maskClickOperation`'s default. */
  const DefaultMaskClickOperation: MaskClickOperation := ClickNone

  /** `PopUI.autoCloseTopType`'s default. */
  const DefaultAutoCloseTopType: AutoCloseTopType := TopHide

  /** `PopUI.mainUIChangeBehavior`. */
  const PopMainUIChangeBehavior: MainUIChangeBehavior := ChangeClose

  /** The enum value a raw integer denotes (`MaskClickOperationType` is backed by
      `int`, and a cast may produce a value without a name). */
  function FromRaw(n: int): MaskClickOperation
  {
    if n == 0 then ClickNone
    else if n == 1 then ClickHide
    else if n == 2 then ClickClose
    else if n == 3 then ClickDirectHide
    else if n == 4 then ClickDirectClose
    else Undefined(n)
  }

  /** `PopUI.OnMaskClick`: Hide and Close animate, the Direct variants do not, None
      does nothing, any other value throws `ArgumentOutOfRangeException`. */
  function OnMaskClick(op: MaskClickOperation): Result<PanelAction, Exception>
  {
    match op
    case ClickNone => Ok(NoAction)
    case ClickHide => Ok(HideAction(true))
    case ClickClose => Ok(CloseAction(true))
    case ClickDirectClose => Ok(CloseAction(false))
    case ClickDirectHide => Ok(HideAction(false))
    case Undefined(_) => Err(ArgumentOutOfRange)
  }

  /** The operation a pop-up would configure to get `a` on a mask click. */
  function OperationFor(a: PanelAction): MaskClickOperation
  {
    match a
    case NoAction => ClickNone
    case HideAction(animate) => if animate then ClickHide else ClickDirectHide
    case CloseAction(animate) => if animate then ClickClose else ClickDirectClose
  }

  /** Every action is reachable from exactly one named operation, and a named
      operation never throws: `OnMaskClick` and `OperationFor` are inverse on the
      named values. */
  lemma MaskClickRoundTrip(a: PanelAction, n: int)
    ensures OnMaskClick(OperationFor(a)) == Ok(a)
    ensures 0 <= n <= 4 ==> OnMaskClick(FromRaw(n)).Ok? && OperationFor(OnMaskClick(FromRaw(n)).value) == FromRaw(n)
    ensures OnMaskClick(FromRaw(n)).Err? <==> n < 0 || n > 4
  {
  }

  /** A pop-up that keeps the defaults ignores mask clicks, hides on "close the top
      pop-up", and closes when the main screen changes. */
  lemma PopDefaults()
    ensures OnMaskClick(DefaultMaskClickOperation) == Ok(NoAction)
    ensures DefaultAutoCloseTopType == TopHide && PopMainUIChangeBehavior == ChangeClose
  {
  }

  /** What `AutoCloseTopPopUI` reads of one live panel. */
  datatype PopView = PopView(shown: bool, isPop: bool, topType: AutoCloseTopType)

  /** The index of the pop-up `AutoCloseTopPopUI` auto-closes: the scan visits the
      shown pop-ups in list order, skips those marked Ignore, stops at one marked
      None, and takes the first other one. */
  function TopPopTarget(vs: seq<PopView>): (r: Option<nat>)
    ensures r.Some? ==> r.value < |vs| && vs[r.value].shown && vs[r.value].isPop
  {
    if |vs| == 0 then None
    else if !(vs[0].shown && vs[0].isPop) || vs[0].topType == TopIgnore then
      match TopPopTarget(vs[1..])
      case None => None
      case Some(k) => Some(k + 1)
    else if vs[0].topType == TopNone then None
    else Some(0)
  }

  /** The target is a shown pop-up marked Hide or Close, and every shown pop-up
      before it is marked Ignore; when there is no target, the first shown pop-up
      not marked Ignore (if any) is marked None. */
  lemma {:induction false} TopPopTargetSpec(vs: seq<PopView>)
    ensures var r := TopPopTarget(vs);
      && (r.Some? ==>
            && r.value < |vs| && vs[r.value].shown && vs[r.value].isPop
            && (vs[r.value].topType == TopHide || vs[r.value].topType == TopClose)
            && forall j | 0 <= j < r.value && vs[j].shown && vs[j].isPop :: vs[j].topType == TopIgnore)
      && (r.None? ==>
            forall j | 0 <= j < |vs| && vs[j].shown && vs[j].isPop && vs[j].topType != TopIgnore ::
              exists k | 0 <= k <= j :: vs[k].shown && vs[k].isPop && vs[k].topType == TopNone)
  {
    if |vs| > 0 && (!(vs[0].shown && vs[0].isPop) || vs[0].topType == TopIgnore) {
      TopPopTargetSpec(vs[1..]);
      var r := TopPopTarget(vs);
      if r.None? {
        forall j | 0 <= j < |vs| && vs[j].shown && vs[j].isPop && vs[j].topType != TopIgnore
          ensures exists k | 0 <= k <= j :: vs[k].shown && vs[k].isPop && vs[k].topType == TopNone
        {
          assert vs[1..][j - 1] == vs[j];
          var k :| 0 <= k <= j - 1 && vs[1..][k].shown && vs[1..][k].isPop && vs[1..][k].topType == TopNone;
          assert vs[k + 1] == vs[1..][k];
        }
      } else {
        assert forall j | 1 <= j < |vs| :: vs[j] == vs[1..][j - 1];
      }
    }
  }

  /** When every shown pop-up before `i` is marked Ignore, the scan picks what it
      picks from `i` on. */
  lemma {:induction false} TopPopTargetSkips(vs: seq<PopView>, i: nat)
    requires i <= |vs|
    requires forall j | 0 <= j < i && vs[j].shown && vs[j].isPop :: vs[j].topType == TopIgnore
    ensures TopPopTarget(vs) == match TopPopTarget(vs[i..]) case None => None case Some(k) => Some(k + i)
  {
    if i > 0 {
      assert forall j | 0 <= j < i - 1 :: vs[1..][j] == vs[j + 1];
      TopPopTargetSkips(vs[1..], i - 1);
      assert vs[1..][i - 1..] == vs[i..];
    }
  }
}
