/** The order in which the country groups of a service are listed. */
module CountryOrder {
  import opened Results
  import opened Ordering
  import opened ServiceQualification

  /** The first place of `x` in the list; the length of the list when it is not there. */
  function Place(list: seq<string>, x: string): (i: nat)
    ensures i <= |list| && (i < |list| ==> list[i] == x) && (i < |list| <==> x in list)
  {
    if list == [] || list[0] == x then 0 else 1 + Place(list[1..], x)
  }

  lemma {:induction false} PlaceAppend(a: seq<string>, b: seq<string>, x: string)
    ensures Place(a + b, x) == if x in a then Place(a, x) else |a| + Place(b, x)
  {
    if a == [] {
      assert a + b == b;
    } else {
      assert (a + b)[1..] == a[1..] + b;
      PlaceAppend(a[1..], b, x);
    }
  }

  /** Each name of `r` once, and in the order of the list. */
  ghost predicate Follows(list: seq<string>, r: seq<string>) {
    (forall x :: x in r ==> x in list) && forall i, j :: 0 <= i < j < |r| ==> Place(list, r[i]) < Place(list, r[j])
  }

  /** All of `available` that the list names. */
  ghost predicate Takes(list: seq<string>, available: set<string>, r: seq<string>) {
    Follows(list, r) && forall x :: x in r <==> x in list && x in available
  }

  lemma FollowsLonger(list: seq<string>, more: seq<string>, r: seq<string>)
    requires Follows(list, r)
    ensures Follows(list + more, r)
  {
    forall i, j | 0 <= i < j < |r| ensures Place(list + more, r[i]) < Place(list + more, r[j]) {
      assert r[i] in r && r[j] in r;
      PlaceAppend(list, more, r[i]);
      PlaceAppend(list, more, r[j]);
    }
  }

  lemma FollowsNext(list: seq<string>, x: string, r: seq<string>)
    requires Follows(list, r) && x !in list
    ensures Follows(list + [x], r + [x])
  {
    FollowsLonger(list, [x], r);
    forall i, j | 0 <= i < j < |r + [x]| ensures Place(list + [x], (r + [x])[i]) < Place(list + [x], (r + [x])[j]) {
      assert r[i] in r;
      PlaceAppend(list, [x], r[i]);
      if j == |r| { PlaceAppend(list, [x], x); }
    }
  }

  /** Appending what is new keeps the order of the names walked so far. */
  lemma {:induction false} AppendNewTakes(done: seq<string>, ordered: seq<string>, names: seq<string>, available: set<string>)
    requires Takes(done, available, ordered)
    ensures Takes(done + names, available, AppendNew(ordered, names, available))
    decreases |names|
  {
    if names == [] {
      assert done + names == done;
    } else {
      var x := names[0];
      assert done + names == done + [x] + names[1..];
      if x in available && x !in ordered {
        FollowsNext(done, x, ordered);
        AppendNewTakes(done + [x], ordered + [x], names[1..], available);
      } else {
        FollowsLonger(done, [x], ordered);
        AppendNewTakes(done + [x], ordered, names[1..], available);
      }
    }
  }

  lemma TakesNext(done: seq<string>, x: string, ordered: seq<string>, available: set<string>)
    requires Takes(done, available, ordered) && x !in done
    ensures Takes(done + [x], available, ordered + if x in available then [x] else [])
  {
    if x in available { FollowsNext(done, x, ordered); } else { FollowsLonger(done, [x], ordered); assert ordered + [] == ordered; }
  }

  /** Filtering a list without repetitions keeps its order. */
  lemma {:induction false} OnlyAvailableTakes(done: seq<string>, ordered: seq<string>, names: seq<string>, available: set<string>)
    requires NoDuplicates(done + names) && Takes(done, available, ordered)
    ensures Takes(done + names, available, ordered + OnlyAvailable(names, available))
    decreases |names|
  {
    if names == [] {
      assert done + names == done && ordered + OnlyAvailable(names, available) == ordered;
    } else {
      var x, rest := names[0], names[1..];
      var here := if x in available then [x] else [];
      assert names == [x] + rest;
      NotYet(done, names);
      TakesNext(done, x, ordered, available);
      Associate(done, [x], rest);
      OnlyAvailableTakes(done + [x], ordered + here, rest, available);
      Associate(ordered, here, OnlyAvailable(rest, available));
    }
  }

  lemma NotYet(done: seq<string>, names: seq<string>)
    requires names != [] && NoDuplicates(done + names)
    ensures names[0] !in done
  {
    var all := done + names;
    assert all[|done|] == names[0];
    forall i | 0 <= i < |done| ensures done[i] != names[0] { assert all[i] == done[i]; }
  }

  /** Names on the list in its order, then the others sorted. */
  ghost predicate Ordered(list: seq<string>, r: seq<string>) {
    forall i, j :: 0 <= i < j < |r| ==>
      Place(list, r[i]) < Place(list, r[j]) || (r[i] !in list && r[j] !in list && Leq(r[i], r[j]))
  }

  lemma RestOrdered(list: seq<string>, ordered: seq<string>, available: set<string>)
    requires Takes(list, available, ordered) && forall x :: x in ordered ==> x in available
    ensures Ordered(list, WithRest(ordered, available)) && NoDuplicates(WithRest(ordered, available))
  {
    var others := available - set x | x in ordered;
    var rest, r := Sorted(others), WithRest(ordered, available);
    SortedAscends(others);
    FollowsDistinct(list, ordered);
    forall i, j | 0 <= i < j < |r|
      ensures Place(list, r[i]) < Place(list, r[j]) || (r[i] !in list && r[j] !in list && Leq(r[i], r[j]))
    {
      if j >= |ordered| {
        assert r[j] == rest[j - |ordered|] && rest[j - |ordered|] in rest;
        if i < |ordered| { assert ordered[i] in ordered; } else { assert rest[i - |ordered|] in rest; }
      }
    }
  }

  lemma FollowsDistinct(list: seq<string>, r: seq<string>)
    requires Follows(list, r)
    ensures NoDuplicates(r)
  {
  }

  lemma LegacyDistinct()
    ensures NoDuplicates(LEGACY)
  {
    assert LEGACY[0][5] == '新' && LEGACY[1][5] == '日' && LEGACY[2][5] == '美';
    assert LEGACY[3][5] == '台' && LEGACY[4][5] == '韩' && LEGACY[5][5] == '其';
  }

  /** Where the order comes from: the preferences and then the legacy order; else the AI policy; else the legacy order. */
  function Source(available: set<string>, preferred: Option<seq<string>>, members: seq<string>): seq<string> {
    if preferred.Some? && forall x :: x in preferred.value ==> x in REGIONS then
      seq(|preferred.value|, i requires 0 <= i < |preferred.value| => REGIONS[preferred.value[i]]) + LEGACY
    else if OnlyAvailable(members, available) != [] then members
    else LEGACY
  }

  lemma ListedFirst(list: seq<string>, available: set<string>)
    requires NoDuplicates(list)
    ensures var r := WithRest(OnlyAvailable(list, available), available); Ordered(list, r) && NoDuplicates(r)
  {
    var ordered := OnlyAvailable(list, available);
    assert [] + list == list && [] + ordered == ordered;
    OnlyAvailableTakes([], [], list, available);
    RestOrdered(list, ordered, available);
  }

  lemma PreferredFirst(names: seq<string>, more: seq<string>, available: set<string>)
    ensures var r := WithRest(AppendNew(AppendNew([], names, available), more, available), available);
            Ordered(names + more, r) && NoDuplicates(r)
  {
    AppendNewTakes([], [], names, available);
    assert [] + names == names;
    AppendNewTakes(names, AppendNew([], names, available), more, available);
    RestOrdered(names + more, AppendNew(AppendNew([], names, available), more, available), available);
  }

  /** Every available country once: those the source lists in its order, then the others sorted. */
  lemma CountriesOrdered(available: set<string>, preferred: Option<seq<string>>, members: seq<string>)
    requires OrderedCountryNames(available, preferred, members).Ok? && (preferred.None? ==> NoDuplicates(members))
    ensures var r := OrderedCountryNames(available, preferred, members).value;
            Ordered(Source(available, preferred, members), r) && NoDuplicates(r)
  {
    LegacyDistinct();
    if preferred.Some? {
      PreferredFirst(seq(|preferred.value|, i requires 0 <= i < |preferred.value| => REGIONS[preferred.value[i]]), LEGACY, available);
    } else {
      ListedFirst(members, available);
      ListedFirst(LEGACY, available);
    }
  }
}
