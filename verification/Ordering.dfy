/** Library facts the modelled code leans on: string order, sorting a set, `unique`. */
module Ordering {
  import opened Sifting

  /** Code-point lexicographic order, the order of Python's `sorted` on strings. */
  predicate Leq(a: string, b: string) {
    a == "" || (b != "" && (a[0] < b[0] || (a[0] == b[0] && Leq(a[1..], b[1..]))))
  }

  lemma {:induction false} LeqTotal(a: string, b: string)
    ensures Leq(a, b) || Leq(b, a)
  {
    if a != "" && b != "" { LeqTotal(a[1..], b[1..]); }
  }

  lemma {:induction false} LeqTransitive(a: string, b: string, c: string)
    requires Leq(a, b) && Leq(b, c)
    ensures Leq(a, c)
  {
    if a != "" && a[0] == b[0] == c[0] { LeqTransitive(a[1..], b[1..], c[1..]); }
  }

  lemma {:induction false} LeqAntisymmetric(a: string, b: string)
    requires Leq(a, b) && Leq(b, a)
    ensures a == b
  {
    if a != "" {
      LeqAntisymmetric(a[1..], b[1..]);
      assert a == [a[0]] + a[1..] && b == [b[0]] + b[1..];
    }
  }

  /** `a` ends within `b`, or the first character in which they differ is the smaller one in `a`. */
  ghost predicate Precedes(a: string, b: string) {
    a <= b || exists i :: 0 <= i < |a| && i < |b| && a[..i] == b[..i] && a[i] < b[i]
  }

  lemma {:induction false} LeqExactly(a: string, b: string)
    ensures Leq(a, b) <==> Precedes(a, b)
  {
    if a != "" && b != "" {
      LeqExactly(a[1..], b[1..]);
      PrecedesCons(a, b);
    }
  }

  lemma PrecedesCons(a: string, b: string)
    requires a != "" && b != ""
    ensures Precedes(a, b) <==> a[0] < b[0] || (a[0] == b[0] && Precedes(a[1..], b[1..]))
  {
    if a[0] < b[0] { assert a[..0] == b[..0]; }
    if a[0] == b[0] && Precedes(a[1..], b[1..]) && !(a[1..] <= b[1..]) {
      var i :| 0 <= i < |a[1..]| && i < |b[1..]| && a[1..][..i] == b[1..][..i] && a[1..][i] < b[1..][i];
      assert a[..i + 1] == [a[0]] + a[1..][..i] && b[..i + 1] == [b[0]] + b[1..][..i];
      assert a[i + 1] < b[i + 1];
    }
    if Precedes(a, b) && !(a <= b) {
      var i :| 0 <= i < |a| && i < |b| && a[..i] == b[..i] && a[i] < b[i];
      if i > 0 {
        assert a[0] == a[..i][0] && b[0] == b[..i][0];
        assert a[1..][..i - 1] == a[..i][1..] && b[1..][..i - 1] == b[..i][1..];
        assert a[1..][i - 1] < b[1..][i - 1];
      }
    }
  }

  lemma LeastExists(s: set<string>)
    requires s != {}
    ensures exists m :: m in s && forall x :: x in s ==> Leq(m, x)
  {
    var y :| y in s;
    LeqTotal(y, y);
    if s != {y} {
      LeastExists(s - {y});
      var m :| m in s - {y} && forall x :: x in s - {y} ==> Leq(m, x);
      LeqTotal(m, y);
      LeastOfTwo(s, y, m);
    }
  }

  lemma LeastOfTwo(s: set<string>, y: string, m: string)
    requires y in s && m in s && Leq(y, y) && (forall x :: x in s - {y} ==> Leq(m, x)) && (Leq(m, y) || Leq(y, m))
    ensures exists m :: m in s && forall x :: x in s ==> Leq(m, x)
  {
    if Leq(m, y) {
      assert forall x :: x in s ==> x == y || x in s - {y};
      assert forall x :: x in s ==> Leq(m, x);
    } else {
      forall x | x in s ensures Leq(y, x) { if x != y { LeqTransitive(y, m, x); } }
    }
  }

  lemma LeastUnique(s: set<string>)
    ensures forall m, n :: m in s && n in s && (forall x :: x in s ==> Leq(m, x)) && (forall x :: x in s ==> Leq(n, x)) ==> m == n
  {
    forall m, n | m in s && n in s && (forall x :: x in s ==> Leq(m, x)) && (forall x :: x in s ==> Leq(n, x))
      ensures m == n
    {
      LeqAntisymmetric(m, n);
    }
  }

  ghost predicate NoDuplicates<T>(s: seq<T>) {
    forall i, j :: 0 <= i < j < |s| ==> s[i] != s[j]
  }

  /** `sorted(names)` for a set of names: every member once, in order. */
  function Sorted(s: set<string>): (r: seq<string>)
    ensures forall x :: x in r <==> x in s
    ensures NoDuplicates(r) && |r| == |s|
  {
    if s == {} then []
    else
      LeastExists(s);
      LeastUnique(s);
      var m :| m in s && forall x :: x in s ==> Leq(m, x);
      [m] + Sorted(s - {m})
  }

  lemma {:induction false} SortedAscends(s: set<string>)
    ensures forall i, j :: 0 <= i < j < |Sorted(s)| ==> Leq(Sorted(s)[i], Sorted(s)[j])
  {
    if s != {} {
      LeastExists(s);
      LeastUnique(s);
      var m :| m in s && forall x :: x in s ==> Leq(m, x);
      SortedAscends(s - {m});
      LeastAhead(m, Sorted(s - {m}));
    }
  }

  lemma LeastAhead(m: string, tail: seq<string>)
    requires (forall x :: x in tail ==> Leq(m, x)) && forall i, j :: 0 <= i < j < |tail| ==> Leq(tail[i], tail[j])
    ensures forall i, j :: 0 <= i < j < |[m] + tail| ==> Leq(([m] + tail)[i], ([m] + tail)[j])
  {
  }

  /** `unique`: the first occurrence of every value, in order. */
  function Unique<T(==,!new)>(s: seq<T>): (r: seq<T>)
    ensures forall x :: x in r <==> x in s
    ensures NoDuplicates(r)
  {
    if s == [] then []
    else
      var init := s[..|s| - 1];
      var last := s[|s| - 1];
      assert s == init + [last];
      if last in init then Unique(init) else Unique(init) + [last]
  }

  /** The first element of its value. */
  ghost predicate FirstAt<T>(s: seq<T>, i: nat) { i < |s| && forall j :: 0 <= j < i ==> s[j] != s[i] }

  ghost predicate FirstsAt<T(!new)>(s: seq<T>, at: seq<nat>) { Increasing(at) && forall i: nat :: i in at <==> FirstAt(s, i) }

  /** The first elements of each value, in their order. */
  lemma {:induction false} UniqueExactly<T(!new)>(s: seq<T>) returns (at: seq<nat>)
    ensures FirstsAt(s, at) && ReadAt(s, at, Unique(s))
  {
    if s == [] {
      at := [];
    } else {
      var k := |s| - 1;
      var init, last := s[..k], s[k];
      assert s == init + [last];
      var before := UniqueExactly(init);
      FirstsSnoc(init, last, before);
      ReadAtMore(init, [last], before, Unique(init));
      at := if last in init then before else before + [k];
      if last !in init { assert ReadAt(s, before + [k], Unique(init) + [last]); }
    }
  }

  lemma FirstsSnoc<T(!new)>(s: seq<T>, x: T, at: seq<nat>)
    requires FirstsAt(s, at)
    ensures FirstsAt(s + [x], if x in s then at else at + [|s|])
  {
    var all := s + [x];
    forall i: nat ensures i in (if x in s then at else at + [|s|]) <==> FirstAt(all, i) {
      InSnoc(at, |s|, i);
      assert i in at <==> FirstAt(s, i);
      if i < |s| {
        assert all[i] == s[i] && forall j :: 0 <= j < i ==> all[j] == s[j];
      } else if i == |s| {
        assert (forall j :: 0 <= j < i ==> all[j] != x) <==> x !in s by {
          if x in s { var j :| 0 <= j < |s| && s[j] == x; assert all[j] == x; }
          forall j | 0 <= j < |s| ensures all[j] == s[j] {}
        }
      }
    }
    if x !in s { IncreasingSnoc(at, |s|); }
  }

  lemma {:induction false} UniqueIdempotent<T(!new)>(s: seq<T>)
    requires NoDuplicates(s)
    ensures Unique(s) == s
  {
    if s != [] {
      UniqueIdempotent(s[..|s| - 1]);
      assert s == s[..|s| - 1] + [s[|s| - 1]];
    }
  }

  /** A prefix one longer. */
  lemma TakeStep<T>(s: seq<T>, k: nat)
    requires k < |s|
    ensures s[..k + 1] == s[..k] + [s[k]] && s[..k + 1][..k] == s[..k]
  {
  }

  lemma Associate<T>(a: seq<T>, b: seq<T>, c: seq<T>)
    ensures a + b + c == a + (b + c)
  {
  }

  lemma SplitAt<T>(s: seq<T>, i: nat)
    requires i < |s|
    ensures s == s[..i] + ([s[i]] + s[i + 1..])
  {
  }

  /** Taking one element out of a sequence takes it out of its multiset. */
  lemma RemoveAt<T>(s: seq<T>, i: nat)
    requires i < |s|
    ensures multiset(s) == multiset(s[..i] + s[i + 1..]) + multiset{s[i]}
  {
    assert s == s[..i] + [s[i]] + s[i + 1..];
  }

  /** Equal multisets stay equal without the last element of one and an equal element of the other. */
  lemma RemoveLast<T>(a: seq<T>, b: seq<T>) returns (i: nat)
    requires a != [] && multiset(a) == multiset(b)
    ensures i < |b| && b[i] == a[|a| - 1] && multiset(a[..|a| - 1]) == multiset(b[..i] + b[i + 1..])
  {
    var k := |a| - 1;
    assert a == a[..k] + [a[k]];
    assert a[k] in multiset(b);
    i :| 0 <= i < |b| && b[i] == a[k];
    RemoveAt(b, i);
    var x := multiset{a[k]};
    assert multiset(a) == multiset(a[..k]) + x;
    assert multiset(a) - x == multiset(a[..k]) && multiset(b) - x == multiset(b[..i] + b[i + 1..]);
  }
}
