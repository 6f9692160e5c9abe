/** The input-scheme stack behind `UISystem.SetInputScheme`: a list of
    (owner, scheme) entries with at most one entry per owner, whose last entry
    decides the effective scheme. */
module InputSchemes {
  import opened UITypes

  /** The list without the entries of `owner`, other entries kept in order. */
  function RemoveOwner<O(==)>(list: seq<(O, string)>, owner: O): (r: seq<(O, string)>)
    ensures |r| <= |list|
    ensures forall e | e in r :: e in list && e.0 != owner
  {
    if |list| == 0 then []
    else if list[|list| - 1].0 == owner then RemoveOwner(list[..|list| - 1], owner)
    else RemoveOwner(list[..|list| - 1], owner) + [list[|list| - 1]]
  }

  /** Removing an owner keeps every entry of the other owners. */
  lemma {:induction false} RemoveOwnerKeepsOthers<O>(list: seq<(O, string)>, owner: O)
    ensures forall e | e in list && e.0 != owner :: e in RemoveOwner(list, owner)
  {
    if |list| > 0 {
      RemoveOwnerKeepsOthers(list[..|list| - 1], owner);
      assert forall e | e in list :: e in list[..|list| - 1] || e == list[|list| - 1];
    }
  }

  /** Removing an owner that has no entry changes nothing. */
  lemma {:induction false} RemoveAbsentOwner<O>(list: seq<(O, string)>, owner: O)
    requires forall i | 0 <= i < |list| :: list[i].0 != owner
    ensures RemoveOwner(list, owner) == list
  {
    if |list| > 0 {
      RemoveAbsentOwner(list[..|list| - 1], owner);
      assert list[..|list| - 1] + [list[|list| - 1]] == list;
    }
  }

  /** Removing an owner from `list + [e]` removes it from `list` and keeps `e`
      unless `e` is the owner's. */
  lemma RemoveOwnerAppend<O>(list: seq<(O, string)>, e: (O, string), owner: O)
    ensures RemoveOwner(list + [e], owner)
         == RemoveOwner(list, owner) + (if e.0 == owner then [] else [e])
  {
    assert (list + [e])[..|list + [e]| - 1] == list;
  }

  /** Each owner holds at most one entry. */
  predicate UniqueOwners<O(==)>(list: seq<(O, string)>)
  {
    forall i, j | 0 <= i < j < |list| :: list[i].0 != list[j].0
  }

  /** Owners are unique in a sub-sequence of a list with unique owners. */
  lemma {:induction false} RemoveOwnerKeepsUnique<O>(list: seq<(O, string)>, owner: O)
    requires UniqueOwners(list)
    ensures UniqueOwners(RemoveOwner(list, owner))
  {
    if |list| > 0 {
      var init := list[..|list| - 1];
      var last := list[|list| - 1];
      RemoveOwnerKeepsUnique(init, owner);
      if last.0 != owner {
        var r := RemoveOwner(init, owner);
        forall e | e in r
          ensures e.0 != last.0
        {
          var i :| 0 <= i < |init| && init[i] == e;
        }
      }
    }
  }

  /** `SetInputScheme` on the list: all entries of `owner` go, and a scheme that is
      not null or white space is pushed on top for it. */
  function Upsert<O(==)>(list: seq<(O, string)>, owner: O, scheme: Option<string>): seq<(O, string)>
  {
    RemoveOwner(list, owner) + if IsBlank(scheme) then [] else [(owner, scheme.value)]
  }

  /** The effective scheme: the top entry's, or the default when the list is empty. */
  function Effective<O>(list: seq<(O, string)>, default: string): string
  {
    if |list| > 0 then list[|list| - 1].1 else default
  }

  /** After `Upsert` the owner holds exactly one entry, on top, when the scheme is
      not blank, and none otherwise; owners stay unique. */
  lemma UpsertSpec<O>(list: seq<(O, string)>, owner: O, scheme: Option<string>, default: string)
    requires UniqueOwners(list)
    ensures UniqueOwners(Upsert(list, owner, scheme))
    ensures !IsBlank(scheme) ==> Effective(Upsert(list, owner, scheme), default) == scheme.value
    ensures IsBlank(scheme) ==> forall e | e in Upsert(list, owner, scheme) :: e.0 != owner
    ensures forall e | e in list && e.0 != owner :: e in Upsert(list, owner, scheme)
  {
    RemoveOwnerKeepsUnique(list, owner);
    RemoveOwnerKeepsOthers(list, owner);
  }

  /** The stack discipline: when an owner without an entry sets a scheme and then
      clears it, the list and the effective scheme are what they were before. */
  lemma PushThenClearRestores<O>(list: seq<(O, string)>, owner: O, scheme: string)
    requires forall i | 0 <= i < |list| :: list[i].0 != owner
    ensures Upsert(Upsert(list, owner, Some(scheme)), owner, None) == list
  {
    RemoveAbsentOwner(list, owner);
    var pushed := Upsert(list, owner, Some(scheme));
    if IsBlank(Some(scheme)) {
      assert pushed == list;
    } else {
      assert pushed == list + [(owner, scheme)];
      RemoveOwnerAppend(list, (owner, scheme), owner);
    }
  }

  /** The loop of `SetInputScheme` that walks the list from its end and removes
      every entry of `owner` with `RemoveAt`. */
  method RemoveOwnerBackwards<O(==)>(list: seq<(O, string)>, owner: O) returns (r: seq<(O, string)>)
    ensures r == RemoveOwner(list, owner)
  {
    r := list;
    var i := |list| - 1;
    ghost var kept: seq<(O, string)> := [];
    while i >= 0
      invariant -1 <= i < |list|
      invariant kept == RemoveOwner(list[i + 1..], owner)
      invariant r == list[..i + 1] + kept
    {
      RemoveAtStep(list, i, owner, kept);
      if r[i].0 == owner {
        r := r[..i] + r[i + 1..];
      } else {
        kept := [list[i]] + kept;
      }
      i := i - 1;
    }
    assert list[0..] == list;
  }

  /** One step of the backwards walk: the entry at index `i` is dropped when it
      is the owner's, which extends the cleaned suffix by one entry. */
  lemma RemoveAtStep<O>(list: seq<(O, string)>, i: nat, owner: O, kept: seq<(O, string)>)
    requires i < |list| && kept == RemoveOwner(list[i + 1..], owner)
    ensures var r := list[..i + 1] + kept;
      && r[i] == list[i]
      && (list[i].0 == owner ==> r[..i] + r[i + 1..] == list[..i] + kept && kept == RemoveOwner(list[i..], owner))
      && (list[i].0 != owner ==> r == list[..i] + ([list[i]] + kept) && [list[i]] + kept == RemoveOwner(list[i..], owner))
  {
    var tail := list[i + 1..];
    var r := list[..i + 1] + kept;
    assert list[i..] == [list[i]] + tail;
    assert list[..i + 1] == list[..i] + [list[i]];
    PrependRemove(list[i], tail, owner);
    if list[i].0 == owner {
      assert r[..i] == list[..i];
      assert r[i + 1..] == kept;
    }
  }

  /** Removing an owner from `[e] + list`. */
  lemma {:induction false} PrependRemove<O>(e: (O, string), list: seq<(O, string)>, owner: O)
    ensures RemoveOwner([e] + list, owner)
         == (if e.0 == owner then [] else [e]) + RemoveOwner(list, owner)
  {
    if |list| > 0 {
      var init := list[..|list| - 1];
      assert ([e] + list)[..|[e] + list| - 1] == [e] + init;
      PrependRemove(e, init, owner);
    } else {
      assert [e] + list == [e];
      assert ([e])[..0] == [];
    }
  }
}
