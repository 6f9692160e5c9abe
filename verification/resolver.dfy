/** The pure part of the layer / mask / focus resolver: the ordering the panel
    list is sorted by, the first-match searches run over the sorted list, and the
    sort itself. */
module Resolver {
  import opened UITypes

  /** What the resolver reads of one panel: its state, whether it is visible
      (shown, or hidden with a show animation running), its layer, its index among
      its siblings, and its `useMask`, focus and mask-click capabilities. */
  datatype PanelView = PanelView(
    shown: bool,
    visible: bool,
    layer: int,
    sibling: int,
    useMask: bool,
    focus: bool)

  /** `int.CompareTo`. */
  function CompareInt(a: int, b: int): (c: int)
    ensures c == 0 <==> a == b
    ensures c < 0 <==> a < b
  {
    if a < b then -1 else if a > b then 1 else 0
  }

  /** The comparator `SortUI` hands to `List.Sort`: shown panels first, then the
      higher layer first, then the higher sibling index first. */
  function Compare(x: PanelView, y: PanelView): int
  {
    if x.shown && !y.shown then -1
    else if y.shown && !x.shown then 1
    else if y.layer != x.layer then CompareInt(y.layer, x.layer)
    else CompareInt(y.sibling, x.sibling)
  }

  /** `x` may stand before `y` in the sorted list. */
  predicate Before(x: PanelView, y: PanelView)
  {
    Compare(x, y) <= 0
  }

  /** The comparator is antisymmetric, so `List.Sort` receives a consistent order. */
  lemma CompareAntisymmetric(x: PanelView, y: PanelView)
    ensures Compare(x, y) == -Compare(y, x)
    ensures Compare(x, y) == 0 <==> (x.shown == y.shown && x.layer == y.layer && x.sibling == y.sibling)
  {
  }

  /** `Before` is a total preorder: any two views are comparable, and the
      relation is transitive. */
  lemma BeforeTotalPreorder(x: PanelView, y: PanelView, z: PanelView)
    ensures Before(x, y) || Before(y, x)
    ensures Before(x, y) && Before(y, z) ==> Before(x, z)
  {
  }

  /** Shown panels come before every panel that is not shown. */
  lemma ShownFirst(x: PanelView, y: PanelView)
    requires x.shown && !y.shown
    ensures Before(x, y) && !Before(y, x)
  {
  }

  /** The list is in the order `SortUI` establishes. */
  ghost predicate SortedBy<T>(xs: seq<T>, view: map<T, PanelView>)
  {
    (forall i | 0 <= i < |xs| :: xs[i] in view)
    && forall i, j | 0 <= i < j < |xs| :: Before(view[xs[i]], view[xs[j]])
  }

  /** A sequence of views in the order `SortUI` establishes. */
  predicate Sorted(vs: seq<PanelView>)
  {
    forall i, j | 0 <= i < j < |vs| :: Before(vs[i], vs[j])
  }

  /** A list sorted through a view map gives a sorted sequence of views. */
  lemma SortedByGivesSorted<T>(xs: seq<T>, view: map<T, PanelView>, vs: seq<PanelView>)
    requires SortedBy(xs, view) && |vs| == |xs|
    requires forall i | 0 <= i < |xs| :: vs[i] == view[xs[i]]
    ensures Sorted(vs)
  {
  }

  /** Placing `x` at position `k` of a sorted list keeps it sorted when everything
      before `k` may stand before `x` and `x` may stand before everything after. */
  lemma InsertionKeepsOrder<T>(s: seq<T>, x: T, k: nat, r: seq<T>, view: map<T, PanelView>)
    requires SortedBy(s, view) && x in view && k <= |s|
    requires forall j | 0 <= j < k :: Before(view[s[j]], view[x])
    requires forall j | k <= j < |s| :: Before(view[x], view[s[j]])
    requires |r| == |s| + 1 && r[k] == x
    requires forall j | 0 <= j < k :: r[j] == s[j]
    requires forall j | k < j < |r| :: r[j] == s[j - 1]
    ensures SortedBy(r, view)
  {
    forall i, j | 0 <= i < j < |r|
      ensures Before(view[r[i]], view[r[j]])
    {
      if j < k {
        assert Before(view[s[i]], view[s[j]]);
      } else if j == k {
        assert Before(view[s[i]], view[x]);
      } else if i < k {
        assert Before(view[s[i]], view[s[j - 1]]);
      } else if i == k {
        assert Before(view[x], view[s[j - 1]]);
      } else {
        assert Before(view[s[i - 1]], view[s[j - 1]]);
      }
    }
  }

  /** Inserts `x` into the sorted list `s`, before the first element that must
      come after it. */
  method InsertByView<T>(s: seq<T>, x: T, view: map<T, PanelView>) returns (r: seq<T>)
    requires x in view
    requires SortedBy(s, view)
    ensures multiset(r) == multiset(s) + multiset{x}
    ensures SortedBy(r, view)
  {
    var k := 0;
    while k < |s| && Before(view[s[k]], view[x])
      invariant 0 <= k <= |s|
      invariant forall j | 0 <= j < k :: Before(view[s[j]], view[x])
    {
      k := k + 1;
    }
    forall j | k <= j < |s|
      ensures Before(view[x], view[s[j]])
    {
      BeforeTotalPreorder(view[x], view[s[k]], view[s[j]]);
    }
    r := s[..k] + [x] + s[k..];
    assert s == s[..k] + s[k..];
    InsertionKeepsOrder(s, x, k, r, view);
  }

  /** `SortUI`: sorts the live list by `Compare`. `List.Sort` is not stable, so
      only the order of the keys and the permutation are promised. */
  method SortByView<T>(xs: seq<T>, view: map<T, PanelView>) returns (r: seq<T>)
    requires forall x | x in xs :: x in view
    ensures multiset(r) == multiset(xs)
    ensures SortedBy(r, view)
  {
    r := [];
    var i := 0;
    while i < |xs|
      invariant 0 <= i <= |xs|
      invariant multiset(r) == multiset(xs[..i])
      invariant SortedBy(r, view)
    {
      assert xs[..i + 1] == xs[..i] + [xs[i]];
      r := InsertByView(r, xs[i], view);
      i := i + 1;
    }
    assert xs[..i] == xs;
  }

  /** What a scan over the sorted list looks for. */
  datatype Criterion =
    | MaskTarget   // visible and uses the mask (`RefreshUI`)
    | FocusHolder  // visible and able to hold the focus (`RefreshUI`)
    | ClickTarget  // shown and uses the mask (`OnMaskClick`)

  predicate Matches(c: Criterion, v: PanelView)
  {
    match c
    case MaskTarget => (v.shown || v.visible) && v.useMask
    case FocusHolder => (v.shown || v.visible) && v.focus
    case ClickTarget => v.useMask && v.shown
  }

  /** Index of the first view meeting `c`, if any. */
  function FirstIndex(vs: seq<PanelView>, c: Criterion): (r: Option<nat>)
    ensures r.Some? ==> r.value < |vs| && Matches(c, vs[r.value])
  {
    if |vs| == 0 then None
    else if Matches(c, vs[0]) then Some(0)
    else
      match FirstIndex(vs[1..], c)
      case None => None
      case Some(k) => Some(k + 1)
  }

  /** The search finds the first match: nothing before it matches, and it finds
      nothing only when no view matches. */
  lemma {:induction false} FirstIndexIsFirst(vs: seq<PanelView>, c: Criterion)
    ensures FirstIndex(vs, c).None? <==> forall j | 0 <= j < |vs| :: !Matches(c, vs[j])
    ensures FirstIndex(vs, c).Some? ==> forall j | 0 <= j < FirstIndex(vs, c).value :: !Matches(c, vs[j])
  {
    if |vs| > 0 && !Matches(c, vs[0]) {
      FirstIndexIsFirst(vs[1..], c);
      assert forall j | 1 <= j < |vs| :: vs[j] == vs[1..][j - 1];
    }
  }

  /** In a sorted list the first match stands before every other match: the mask
      and the focus go to the topmost candidate. */
  lemma FirstMatchIsTopmost(vs: seq<PanelView>, c: Criterion)
    requires forall i, j | 0 <= i < j < |vs| :: Before(vs[i], vs[j])
    requires FirstIndex(vs, c).Some?
    ensures forall j | 0 <= j < |vs| && Matches(c, vs[j]) :: Before(vs[FirstIndex(vs, c).value], vs[j])
  {
    FirstIndexIsFirst(vs, c);
    var i := FirstIndex(vs, c).value;
    forall j | 0 <= j < |vs| && Matches(c, vs[j])
      ensures Before(vs[i], vs[j])
    {
      if j == i {
        CompareAntisymmetric(vs[i], vs[i]);
      }
    }
  }

  /** The scan loop of `RefreshUI`: it walks the sorted list once, takes the first
      mask candidate and the first focus candidate, and stops as soon as it has
      both. */
  method ScanMaskAndFocus(vs: seq<PanelView>) returns (mask: Option<nat>, focus: Option<nat>)
    ensures mask == FirstIndex(vs, MaskTarget)
    ensures focus == FirstIndex(vs, FocusHolder)
  {
    FirstIndexIsFirst(vs, MaskTarget);
    FirstIndexIsFirst(vs, FocusHolder);
    mask, focus := None, None;
    var i := 0;
    while i < |vs|
      invariant 0 <= i <= |vs|
      invariant mask.None? ==> forall j | 0 <= j < i :: !Matches(MaskTarget, vs[j])
      invariant mask.Some? ==> mask == FirstIndex(vs, MaskTarget)
      invariant focus.None? ==> forall j | 0 <= j < i :: !Matches(FocusHolder, vs[j])
      invariant focus.Some? ==> focus == FirstIndex(vs, FocusHolder)
    {
      var v := vs[i];
      if !v.shown && !v.visible {
        i := i + 1;
        continue;
      }
      if mask.None? && v.useMask {
        mask := Some(i);
      }
      if focus.None? && v.focus {
        focus := Some(i);
      }
      if mask.Some? && focus.Some? {
        break;
      }
      i := i + 1;
    }
  }
}
