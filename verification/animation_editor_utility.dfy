/** The inspector helpers of `UIAnimationEditorUtility`: the list of animation
    component types offered in the drop-down, the drop-down index of a type, and
    the drop-down's labels (index 0 is "None"). */
module AnimationEditorUtility {
  import opened UITypes

  /** A `System.Type` as the helpers see it; two types are the same type exactly
      when their descriptions are equal (`id` tells apart types that share a name). */
  datatype AnimType = AnimType(id: nat, name: string, isAbstract: bool, isGeneric: bool)

  /** Ordinal (code-unit) order on names. `OrderBy(t => t.Name)` compares with
      the framework's default string comparer, which depends on the culture; the
      model orders ordinally instead. */
  predicate NameLe(a: string, b: string)
  {
    if |a| == 0 then true
    else if |b| == 0 then false
    else a[0] < b[0] || (a[0] == b[0] && NameLe(a[1..], b[1..]))
  }

  /** `NameLe` is total and transitive, so ordering by it is well defined. */
  lemma {:induction false} NameLeTotalPreorder(a: string, b: string, c: string)
    ensures NameLe(a, b) || NameLe(b, a)
    ensures NameLe(a, b) && NameLe(b, c) ==> NameLe(a, c)
  {
    if |a| > 0 && |b| > 0 && |c| > 0 {
      NameLeTotalPreorder(a[1..], b[1..], c[1..]);
    } else if |a| > 0 && |b| > 0 {
      NameLeTotalPreorder(a[1..], b[1..], b[1..]);
    }
  }

  /** Two names are tied under `NameLe` exactly when they are equal, so a sort
      that is stable for equal names is stable for every tie. */
  lemma {:induction false} NameLeAntisymmetric(a: string, b: string)
    ensures NameLe(a, b) && NameLe(b, a) <==> a == b
  {
    if |a| > 0 && |b| > 0 {
      NameLeAntisymmetric(a[1..], b[1..]);
      if a[0] == b[0] && a[1..] == b[1..] {
        assert a == [a[0]] + a[1..] && b == [b[0]] + b[1..];
      }
    } else if |a| == 0 && |b| == 0 {
      assert a == b;
    } else if a == b {
      NameLeTotalPreorder(a, a, a);
    }
  }

  /** A type the drop-down offers: not null, not abstract, not generic. */
  predicate Offered(t: Option<AnimType>)
  {
    t.Some? && !t.value.isAbstract && !t.value.isGeneric
  }

  /** The `Where` step of `GetAnimationTypes`, order kept. */
  function Offers(all: seq<Option<AnimType>>): (r: seq<AnimType>)
    ensures forall t | t in r :: Offered(Some(t))
  {
    if |all| == 0 then []
    else (if Offered(all[0]) then [all[0].value] else []) + Offers(all[1..])
  }

  /** `t` is offered exactly when it is among the derived types and passes the
      filter. */
  lemma {:induction false} OffersMembers(all: seq<Option<AnimType>>, t: AnimType)
    ensures t in Offers(all) <==> Some(t) in all && Offered(Some(t))
  {
    if |all| > 0 {
      OffersMembers(all[1..], t);
      assert all == [all[0]] + all[1..];
    }
  }

  /** The types are in ascending name order. */
  predicate SortedByName(ts: seq<AnimType>)
  {
    forall i, j | 0 <= i < j < |ts| :: NameLe(ts[i].name, ts[j].name)
  }

  /** The types named `k`, in list order: a stable sort leaves this subsequence
      as it was for every `k`. */
  function Named(ts: seq<AnimType>, k: string): seq<AnimType>
  {
    if |ts| == 0 then []
    else (if ts[0].name == k then [ts[0]] else []) + Named(ts[1..], k)
  }

  lemma {:induction false} NamedAppend(a: seq<AnimType>, b: seq<AnimType>, k: string)
    ensures Named(a + b, k) == Named(a, k) + Named(b, k)
  {
    if |a| == 0 {
      assert a + b == b;
    } else {
      var h := if a[0].name == k then [a[0]] else [];
      assert (a + b)[1..] == a[1..] + b;
      assert Named(a + b, k) == h + Named(a[1..] + b, k);
      NamedAppend(a[1..], b, k);
      assert Named(a, k) == h + Named(a[1..], k);
    }
  }

  /** A list without the name `k` has no types named `k`. */
  lemma {:induction false} NoneNamed(ts: seq<AnimType>, k: string)
    requires forall i | 0 <= i < |ts| :: ts[i].name != k
    ensures Named(ts, k) == []
  {
    if |ts| > 0 {
      NoneNamed(ts[1..], k);
    }
  }

  /** Inserts `t` into a sorted list after every element whose name sorts no
      later than its own, so after every element of the same name. */
  function InsertByName(t: AnimType, ts: seq<AnimType>): (r: seq<AnimType>)
    ensures multiset(r) == multiset(ts) + multiset{t}
  {
    if |ts| == 0 then [t]
    else
      assert ts == [ts[0]] + ts[1..];
      if NameLe(ts[0].name, t.name) then [ts[0]] + InsertByName(t, ts[1..])
      else [t] + ts
  }

  /** Insertion keeps a sorted list sorted. */
  lemma {:induction false} InsertByNameSorted(t: AnimType, ts: seq<AnimType>)
    requires SortedByName(ts)
    ensures SortedByName(InsertByName(t, ts))
  {
    if |ts| > 0 {
      if NameLe(ts[0].name, t.name) {
        InsertByNameSorted(t, ts[1..]);
        var rest := InsertByName(t, ts[1..]);
        forall j | 0 <= j < |rest|
          ensures NameLe(ts[0].name, rest[j].name)
        {
          assert rest[j] in multiset(ts[1..]) + multiset{t};
          if rest[j] != t {
            assert rest[j] in ts[1..];
            var k :| 0 <= k < |ts[1..]| && ts[1..][k] == rest[j];
            assert ts[k + 1] == rest[j];
          }
        }
      } else {
        forall j | 0 <= j < |ts|
          ensures NameLe(t.name, ts[j].name)
        {
          NameLeTotalPreorder(t.name, ts[0].name, ts[j].name);
          NameLeTotalPreorder(ts[0].name, t.name, t.name);
        }
      }
    }
  }

  /** Insertion puts `t` behind the types of its own name and leaves the types
      of every other name in their order. */
  lemma {:induction false} InsertByNameStable(t: AnimType, ts: seq<AnimType>, k: string)
    requires SortedByName(ts)
    ensures Named(InsertByName(t, ts), k) == Named(ts, k) + (if t.name == k then [t] else [])
  {
    if |ts| == 0 {
      assert InsertByName(t, ts) == [t] + ts;
    } else if NameLe(ts[0].name, t.name) {
      InsertByNameStable(t, ts[1..], k);
      InsertPastHead(t, ts, k);
    } else {
      InsertAtHead(t, ts, k);
    }
  }

  /** Insertion behind the head: the head's contribution comes first. */
  lemma InsertPastHead(t: AnimType, ts: seq<AnimType>, k: string)
    requires |ts| > 0 && NameLe(ts[0].name, t.name)
    requires Named(InsertByName(t, ts[1..]), k) == Named(ts[1..], k) + (if t.name == k then [t] else [])
    ensures Named(InsertByName(t, ts), k) == Named(ts, k) + (if t.name == k then [t] else [])
  {
    var r := InsertByName(t, ts);
    var h := if ts[0].name == k then [ts[0]] else [];
    assert r[0] == ts[0] && r[1..] == InsertByName(t, ts[1..]);
    assert Named(r, k) == h + Named(r[1..], k);
    assert Named(ts, k) == h + Named(ts[1..], k);
    AppendAssociative(h, Named(ts[1..], k), if t.name == k then [t] else []);
  }

  lemma AppendAssociative<T>(a: seq<T>, b: seq<T>, c: seq<T>)
    ensures a + (b + c) == (a + b) + c
  {
  }

  /** Insertion in front of a sorted list whose head sorts after `t`: no type
      of the list has `t`'s name, so `t` still ends its name's types. */
  lemma InsertAtHead(t: AnimType, ts: seq<AnimType>, k: string)
    requires SortedByName(ts)
    requires |ts| > 0 && !NameLe(ts[0].name, t.name)
    ensures Named(InsertByName(t, ts), k) == Named(ts, k) + (if t.name == k then [t] else [])
  {
    var r := InsertByName(t, ts);
    assert r[0] == t && r[1..] == ts;
    assert Named(r, k) == (if t.name == k then [t] else []) + Named(ts, k);
    if t.name == k {
      NameLeTotalPreorder(k, k, k);
      assert forall i | 0 <= i < |ts| :: ts[i].name != k;
      NoneNamed(ts, k);
    }
  }

  /** The `OrderBy(t => t.Name)` step: a stable insertion sort that takes the
      list from the back, so each type goes behind the earlier types of the
      same name. */
  function SortByName(ts: seq<AnimType>): seq<AnimType>
  {
    if |ts| == 0 then []
    else InsertByName(ts[|ts| - 1], SortByName(ts[..|ts| - 1]))
  }

  /** The ordering step permutes the list into ascending name order. */
  lemma {:induction false} SortByNameSpec(ts: seq<AnimType>)
    ensures SortedByName(SortByName(ts))
    ensures multiset(SortByName(ts)) == multiset(ts)
  {
    if |ts| > 0 {
      var init, last := ts[..|ts| - 1], ts[|ts| - 1];
      assert ts == init + [last];
      SortByNameSpec(init);
      InsertByNameSorted(last, SortByName(init));
    }
  }

  /** The ordering is stable: the types of each name keep their input order. */
  lemma {:induction false} SortByNameStable(ts: seq<AnimType>, k: string)
    ensures Named(SortByName(ts), k) == Named(ts, k)
  {
    if |ts| > 0 {
      var init, last := ts[..|ts| - 1], ts[|ts| - 1];
      assert ts == init + [last];
      SortByNameSpec(init);
      InsertByNameStable(last, SortByName(init), k);
      SortByNameStable(init, k);
      NamedAppend(init, [last], k);
      assert Named([last], k) == (if last.name == k then [last] else []) + Named([], k);
    }
  }

  /** `GetAnimationTypes` over the supplied derived types. */
  function GetAnimationTypes(all: seq<Option<AnimType>>): seq<AnimType>
  {
    SortByName(Offers(all))
  }

  /** The drop-down lists every offered type, and only those, in name order,
      with types of the same name in the order they were supplied. */
  lemma GetAnimationTypesSpec(all: seq<Option<AnimType>>, t: AnimType)
    ensures SortedByName(GetAnimationTypes(all))
    ensures t in GetAnimationTypes(all) <==> Some(t) in all && Offered(Some(t))
    ensures forall k :: Named(GetAnimationTypes(all), k) == Named(Offers(all), k)
  {
    SortByNameSpec(Offers(all));
    forall k {
      SortByNameStable(Offers(all), k);
    }
    OffersMembers(all, t);
    assert t in GetAnimationTypes(all) <==> t in multiset(GetAnimationTypes(all));
  }

  /** The drop-down index of a type: 0 for null or an absent type, otherwise one
      more than its first position. */
  function TypeIndex(types: seq<AnimType>, current: Option<AnimType>): (r: nat)
    ensures r <= |types|
  {
    if current.None? || |types| == 0 then 0
    else if types[0] == current.value then 1
    else
      var k := TypeIndex(types[1..], current);
      if k == 0 then 0 else k + 1
  }

  /** `TypeIndex` is 0 exactly for null or an absent type, and otherwise points
      one past the first occurrence. */
  lemma {:induction false} TypeIndexSpec(types: seq<AnimType>, current: Option<AnimType>)
    ensures TypeIndex(types, current) == 0 <==> current.None? || current.value !in types
    ensures TypeIndex(types, current) > 0 ==>
      && types[TypeIndex(types, current) - 1] == current.value
      && forall j | 0 <= j < TypeIndex(types, current) - 1 :: types[j] != current.value
  {
    if current.Some? && |types| > 0 && types[0] != current.value {
      TypeIndexSpec(types[1..], current);
      assert types == [types[0]] + types[1..];
      assert forall j | 1 <= j < |types| :: types[j] == types[1..][j - 1];
    }
  }

  /** `FindTypeIndex`: the search loop with its early return. */
  method FindTypeIndex(types: seq<AnimType>, current: Option<AnimType>) returns (r: nat)
    ensures r == TypeIndex(types, current)
  {
    if current.None? {
      return 0;
    }
    TypeIndexSpec(types, current);
    var i := 0;
    while i < |types|
      invariant 0 <= i <= |types|
      invariant forall j | 0 <= j < i :: types[j] != current.value
    {
      if types[i] == current.value {
        return i + 1;
      }
      i := i + 1;
    }
    return 0;
  }

  /** The drop-down labels: "None", then each type's name. */
  function DisplayNames(types: seq<AnimType>): (names: seq<string>)
    ensures |names| == |types| + 1
  {
    if |types| == 0 then ["None"]
    else DisplayNames(types[..|types| - 1]) + [types[|types| - 1].name]
  }

  /** Label 0 is "None" and label `i + 1` is the name of type `i`. */
  lemma {:induction false} DisplayNamesSpec(types: seq<AnimType>)
    ensures DisplayNames(types)[0] == "None"
    ensures forall i | 0 <= i < |types| :: DisplayNames(types)[i + 1] == types[i].name
  {
    if |types| > 0 {
      DisplayNamesSpec(types[..|types| - 1]);
    }
  }

  /** The label the drop-down shows for a type is its name when it is listed and
      "None" otherwise. */
  lemma SelectedLabel(types: seq<AnimType>, current: Option<AnimType>)
    ensures DisplayNames(types)[TypeIndex(types, current)]
         == if current.Some? && current.value in types then current.value.name else "None"
  {
    TypeIndexSpec(types, current);
    DisplayNamesSpec(types);
  }

  /** `BuildTypeDisplayNames`: fills a fresh array of `types.Count + 1` labels. */
  method BuildTypeDisplayNames(types: seq<AnimType>) returns (names: array<string>)
    ensures names.Length == |types| + 1
    ensures names[..] == DisplayNames(types)
  {
    DisplayNamesSpec(types);
    names := new string[|types| + 1](_ => "");
    names[0] := "None";
    var i := 0;
    while i < |types|
      invariant 0 <= i <= |types|
      invariant names[0] == "None"
      invariant forall j | 0 <= j < i :: names[j + 1] == types[j].name
    {
      names[i + 1] := types[i].name;
      i := i + 1;
    }
    assert forall k | 0 <= k < names.Length :: names[k] == DisplayNames(types)[k] by {
      forall k | 0 <= k < names.Length
        ensures names[k] == DisplayNames(types)[k]
      {
        if k > 0 {
          assert names[(k - 1) + 1] == types[k - 1].name;
        }
      }
    }
  }
}
