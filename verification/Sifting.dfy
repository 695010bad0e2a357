/** Which elements of a sequence a filter keeps, and in which order; and how many cells rows of given lengths have. */
module Sifting {
  ghost predicate Increasing(at: seq<nat>) { forall i, j :: 0 <= i < j < |at| ==> at[i] < at[j] }

  /** `at` holds the indices of exactly the elements kept. */
  ghost predicate Picks<T(!new)>(s: seq<T>, keep: T -> bool, at: seq<nat>) {
    forall k: nat :: k in at <==> k < |s| && keep(s[k])
  }

  ghost predicate ReadAt<T(!new)>(s: seq<T>, at: seq<nat>, r: seq<T>) {
    |r| == |at| && forall i :: 0 <= i < |at| ==> at[i] < |s| && r[i] == s[at[i]]
  }

  /** `r` is `s` without the elements that are not kept, in order. */
  ghost predicate Sifted<T(!new)>(s: seq<T>, keep: T -> bool, r: seq<T>) {
    exists at: seq<nat> :: Increasing(at) && Picks(s, keep, at) && ReadAt(s, at, r)
  }

  lemma SiftedAlike<T(!new)>(s: seq<T>, keep: T -> bool, alike: T -> bool, r: seq<T>)
    requires Sifted(s, keep, r) && forall x :: x in s ==> keep(x) == alike(x)
    ensures Sifted(s, alike, r)
  {
    var at: seq<nat> :| Increasing(at) && Picks(s, keep, at) && ReadAt(s, at, r);
    forall k: nat ensures k in at <==> k < |s| && alike(s[k]) {
      assert k in at <==> k < |s| && keep(s[k]);
      if k < |s| { assert s[k] in s; }
    }
    assert Picks(s, alike, at);
  }

  lemma SiftedEmpty<T(!new)>(keep: T -> bool)
    ensures Sifted([], keep, [])
  {
    var none: seq<nat>, empty: seq<T> := [], [];
    assert Increasing(none) && Picks(empty, keep, none) && ReadAt(empty, none, empty);
  }

  lemma InSnoc(at: seq<nat>, x: nat, k: nat)
    ensures k in at + [x] <==> k in at || k == x
  {
  }

  lemma PicksSnoc<T(!new)>(s: seq<T>, x: T, keep: T -> bool, at: seq<nat>)
    requires Picks(s, keep, at)
    ensures Picks(s + [x], keep, if keep(x) then at + [|s|] else at)
  {
    var all := s + [x];
    forall k: nat ensures k in (if keep(x) then at + [|s|] else at) <==> k < |all| && keep(all[k]) {
      InSnoc(at, |s|, k);
      assert k in at <==> k < |s| && keep(s[k]);
      if k < |s| { assert all[k] == s[k]; }
    }
  }

  lemma IncreasingSnoc(at: seq<nat>, x: nat)
    requires Increasing(at) && forall k :: k in at ==> k < x
    ensures Increasing(at + [x])
  {
    forall i, j | 0 <= i < j < |at + [x]| ensures (at + [x])[i] < (at + [x])[j] { assert at[i] in at; }
  }

  /** One more element at the end. */
  lemma SiftedSnoc<T(!new)>(s: seq<T>, x: T, keep: T -> bool, r: seq<T>)
    requires Sifted(s, keep, r)
    ensures Sifted(s + [x], keep, if keep(x) then r + [x] else r)
  {
    var at: seq<nat> :| Increasing(at) && Picks(s, keep, at) && ReadAt(s, at, r);
    PicksSnoc(s, x, keep, at);
    ReadAtMore(s, [x], at, r);
    if keep(x) {
      IncreasingSnoc(at, |s|);
      assert ReadAt(s + [x], at + [|s|], r + [x]);
    }
  }

  lemma ReadAtMore<T(!new)>(s: seq<T>, more: seq<T>, at: seq<nat>, r: seq<T>)
    requires ReadAt(s, at, r)
    ensures ReadAt(s + more, at, r)
  {
  }

  /** Sifting one part after the other. */
  lemma SiftedAppend<T(!new)>(a: seq<T>, b: seq<T>, keep: T -> bool, r: seq<T>, t: seq<T>)
    requires Sifted(a, keep, r) && Sifted(b, keep, t)
    ensures Sifted(a + b, keep, r + t)
    decreases |b|
  {
    var at: seq<nat> :| Increasing(at) && Picks(a, keep, at) && ReadAt(a, at, r);
    var bt: seq<nat> :| Increasing(bt) && Picks(b, keep, bt) && ReadAt(b, bt, t);
    var ct := at + Behind(bt, |a|);
    PicksAppend(a, b, keep, at, bt);
    IncreasingAppend(a, keep, at, bt);
    ReadAtAppend(a, b, at, bt, r, t);
    assert Increasing(ct) && Picks(a + b, keep, ct) && ReadAt(a + b, ct, r + t);
  }

  ghost function Behind(at: seq<nat>, n: nat): seq<nat> { seq(|at|, i requires 0 <= i < |at| => at[i] + n) }

  lemma InBehind(at: seq<nat>, n: nat, k: nat)
    ensures k in Behind(at, n) <==> k >= n && k - n in at
  {
    if k >= n && k - n in at {
      var i :| 0 <= i < |at| && at[i] == k - n;
      assert Behind(at, n)[i] == k;
    }
    if k in Behind(at, n) {
      var i :| 0 <= i < |at| && Behind(at, n)[i] == k;
      assert at[i] in at;
    }
  }

  lemma PicksAppend<T(!new)>(a: seq<T>, b: seq<T>, keep: T -> bool, at: seq<nat>, bt: seq<nat>)
    requires Picks(a, keep, at) && Picks(b, keep, bt)
    ensures Picks(a + b, keep, at + Behind(bt, |a|))
  {
    forall k: nat ensures k in at + Behind(bt, |a|) <==> k < |a + b| && keep((a + b)[k]) {
      InBehind(bt, |a|, k);
      assert k in at <==> k < |a| && keep(a[k]);
      if k >= |a| { assert (k - |a|) in bt <==> k - |a| < |b| && keep(b[k - |a|]); }
    }
  }

  lemma IncreasingAppend<T(!new)>(a: seq<T>, keep: T -> bool, at: seq<nat>, bt: seq<nat>)
    requires Increasing(at) && Increasing(bt) && Picks(a, keep, at)
    ensures Increasing(at + Behind(bt, |a|))
  {
    var ct := at + Behind(bt, |a|);
    forall i, j | 0 <= i < j < |ct| ensures ct[i] < ct[j] {
      if i < |at| { assert at[i] in at; }
    }
  }

  lemma ReadAtAppend<T(!new)>(a: seq<T>, b: seq<T>, at: seq<nat>, bt: seq<nat>, r: seq<T>, t: seq<T>)
    requires ReadAt(a, at, r) && ReadAt(b, bt, t)
    ensures ReadAt(a + b, at + Behind(bt, |a|), r + t)
  {
  }

  lemma SiftedOne<T(!new)>(x: T, keep: T -> bool)
    ensures Sifted([x], keep, if keep(x) then [x] else [])
  {
    SiftedEmpty(keep);
    SiftedSnoc([], x, keep, []);
    assert [] + [x] == [x];
  }

  /** One more element at the front. */
  lemma SiftedCons<T(!new)>(x: T, s: seq<T>, keep: T -> bool, r: seq<T>)
    requires Sifted(s, keep, r)
    ensures Sifted([x] + s, keep, (if keep(x) then [x] else []) + r)
  {
    SiftedOne(x, keep);
    SiftedAppend([x], s, keep, if keep(x) then [x] else [], r);
  }

  // ----- cells -----

  /** The cells of rows of these lengths. */
  ghost function Cells(sizes: seq<nat>): set<(nat, nat)> {
    set i: nat, j: nat | i < |sizes| && j < sizes[i] :: (i, j)
  }

  lemma {:induction false} RowCount(k: nat, n: nat)
    ensures |set j: nat | j < n :: (k, j)| == n
  {
    if n > 0 {
      RowCount(k, n - 1);
      assert (set j: nat | j < n :: (k, j)) == (set j: nat | j < n - 1 :: (k, j)) + {(k, (n - 1) as nat)};
    }
  }

  lemma CellsSnoc(sizes: seq<nat>, n: nat)
    ensures |Cells(sizes + [n])| == |Cells(sizes)| + n
  {
    var k: nat := |sizes|;
    var row := set j: nat | j < n :: (k, j);
    RowCount(k, n);
    assert Cells(sizes + [n]) == Cells(sizes) + row;
  }

  lemma CellsEmpty()
    ensures |Cells([])| == 0
  {
    assert Cells([]) == {};
  }

  // ----- rows by name -----

  /** The places of rows with a name and a length each. */
  ghost function Slots(sizes: map<string, nat>): set<(string, nat)> {
    set k, j: nat | k in sizes && j < sizes[k] :: (k, j)
  }

  lemma {:induction false} NamedRow(k: string, n: nat)
    ensures |set j: nat | j < n :: (k, j)| == n
  {
    if n > 0 {
      NamedRow(k, n - 1);
      assert (set j: nat | j < n :: (k, j)) == (set j: nat | j < n - 1 :: (k, j)) + {(k, (n - 1) as nat)};
    }
  }

  lemma SlotsAdd(sizes: map<string, nat>, k: string, n: nat)
    requires k !in sizes
    ensures |Slots(sizes[k := n])| == |Slots(sizes)| + n
  {
    NamedRow(k, n);
    var row := set j: nat | j < n :: (k, j);
    assert Slots(sizes[k := n]) == Slots(sizes) + row;
  }

  lemma SlotsEmpty()
    ensures |Slots(map[])| == 0
  {
    assert Slots(map[]) == {};
  }

  // ----- how many are kept -----

  ghost function Kept<T(!new)>(s: seq<T>, keep: T -> bool): set<nat> { set i: nat | i < |s| && keep(s[i]) }

  ghost function Indices(at: seq<nat>): set<nat> { set i | i in at }

  lemma IndicesSnoc(at: seq<nat>, x: nat)
    ensures Indices(at + [x]) == Indices(at) + {x}
  {
    forall k: nat ensures k in Indices(at + [x]) <==> k in Indices(at) || k == x { InSnoc(at, x, k); }
  }

  lemma LastIsNew(at: seq<nat>, x: nat)
    requires Increasing(at + [x])
    ensures Increasing(at) && x !in at
  {
    forall i, j | 0 <= i < j < |at| ensures at[i] < at[j] { assert (at + [x])[i] < (at + [x])[j]; }
    forall i | 0 <= i < |at| ensures at[i] != x { assert (at + [x])[i] < (at + [x])[|at|]; }
  }

  lemma {:induction false} DistinctSize(at: seq<nat>)
    requires Increasing(at)
    ensures |Indices(at)| == |at|
  {
    if at == [] {
      assert Indices(at) == {};
    } else {
      var k := |at| - 1;
      assert at == at[..k] + [at[k]];
      LastIsNew(at[..k], at[k]);
      DistinctSize(at[..k]);
      IndicesSnoc(at[..k], at[k]);
      assert at[k] !in Indices(at[..k]);
    }
  }

  /** As many elements stay as there are indices of elements to keep. */
  lemma SiftedSize<T(!new)>(s: seq<T>, keep: T -> bool, r: seq<T>)
    requires Sifted(s, keep, r)
    ensures |r| == |Kept(s, keep)|
  {
    var at: seq<nat> :| Increasing(at) && Picks(s, keep, at) && ReadAt(s, at, r);
    DistinctSize(at);
    PickedIndices(s, keep, at);
  }

  lemma PickedIndices<T(!new)>(s: seq<T>, keep: T -> bool, at: seq<nat>)
    requires Picks(s, keep, at)
    ensures Indices(at) == Kept(s, keep)
  {
    forall i: nat ensures i in Indices(at) <==> i in Kept(s, keep) { assert i in at <==> i < |s| && keep(s[i]); }
  }

  // ----- sums -----

  ghost function Sum(n: nat, f: nat -> nat): nat { if n == 0 then 0 else Sum(n - 1, f) + f(n - 1) }

  lemma {:induction false} SumAlike(n: nat, f: nat -> nat, g: nat -> nat)
    requires forall i :: 0 <= i < n ==> f(i) == g(i)
    ensures Sum(n, f) == Sum(n, g)
  {
    if n > 0 { SumAlike(n - 1, f, g); }
  }

  lemma {:induction false} SumPlus(n: nat, f: nat -> nat, g: nat -> nat, h: nat -> nat)
    requires forall i :: 0 <= i < n ==> h(i) == f(i) + g(i)
    ensures Sum(n, h) == Sum(n, f) + Sum(n, g)
  {
    if n > 0 { SumPlus(n - 1, f, g, h); }
  }

  /** The weights of the elements, added up. */
  ghost function Over<T(!new)>(s: seq<T>, w: T -> nat): nat { Sum(|s|, (i: nat) => if i < |s| then w(s[i]) else 0) }

  lemma OverSnoc<T(!new)>(init: seq<T>, x: T, w: T -> nat)
    ensures Over(init + [x], w) == Over(init, w) + w(x)
  {
    var all := init + [x];
    SumAlike(|init|, (i: nat) => if i < |all| then w(all[i]) else 0, (i: nat) => if i < |init| then w(init[i]) else 0);
  }
}
