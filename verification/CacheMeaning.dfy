/** What an update leaves in the cache, record by record, and whom a turn routes to. */
module CacheMeaning {
  import opened Ordering
  import opened QualificationCache
  import opened QualificationRuns

  // ----- which records stay -----

  /** The latest verdict of the record is from the seven days up to `now`, and not from the epoch. */
  ghost predicate Recent(c: Cache, f: string, now: int) {
    f in c.nodes && exists k :: IsLatest(c.nodes[f], k) && c.nodes[f][k].epoch > 0 && 0 <= now - c.nodes[f][k].epoch <= 604800
  }

  ghost predicate IsLatest(s: Services, k: string) { k in s && forall j :: j in s ==> s[j].epoch <= s[k].epoch }

  /** A checked name of the fingerprint, the last of them by name. */
  ghost predicate Decides(inventory: Inventory, checked: set<string>, f: string, n: string) {
    && n in checked && n in inventory && inventory[n] == f
    && forall m :: m in checked && m in inventory && inventory[m] == f ==> Leq(m, n)
  }

  ghost predicate Touched(inventory: Inventory, checked: set<string>, f: string) { exists n :: Decides(inventory, checked, f, n) }

  lemma RecentExactly(c: Cache, f: string, now: int)
    ensures Recent(c, f, now) <==> f in c.nodes && Lively(c.nodes[f], now)
  {
    if f in c.nodes {
      var s := c.nodes[f];
      if s != map[] {
        NewestMeaning(s);
        var k :| k in s && s[k].epoch == Newest(s);
        assert IsLatest(s, k);
      }
    }
  }

  lemma Ascends(s: set<string>, i: nat, j: nat)
    requires i <= j < |Sorted(s)|
    ensures Leq(Sorted(s)[i], Sorted(s)[j])
  {
    SortedAscends(s);
    LeqTotal(Sorted(s)[i], Sorted(s)[i]);
  }

  lemma LastDecides(inventory: Inventory, checked: set<string>, f: string, i: nat)
    requires checked <= inventory.Keys && LastWriter(inventory, Sorted(checked), f, i)
    ensures Decides(inventory, checked, f, Sorted(checked)[i])
  {
    var names := Sorted(checked);
    assert names[i] in names;
    forall m | m in checked && m in inventory && inventory[m] == f ensures Leq(m, names[i]) {
      assert m in names;
      var j :| 0 <= j < |names| && names[j] == m;
      Ascends(checked, j, i);
    }
  }

  /** The record a fingerprint ends up with, ageing and writing done. */
  ghost predicate Holds(c: Cache, s: Services, inventory: Inventory, service: string, checked: set<string>, passed: set<string>, now: int, f: string) {
    forall k ::
      if k == service && Touched(inventory, checked, f)
      then k in s && exists n :: Decides(inventory, checked, f, n) && s[k] == Verdict(n in passed, now)
      else (k in s <==> Recent(c, f, now) && k in c.nodes[f]) && (k in s ==> s[k] == c.nodes[f][k])
  }

  lemma NoneTouched(inventory: Inventory, checked: set<string>, f: string)
    requires forall n :: n in checked && n in inventory ==> inventory[n] != f
    ensures !Touched(inventory, checked, f)
  {
  }

  lemma MergedExactly(c: Cache, inventory: Inventory, service: string, checked: set<string>, passed: set<string>, now: int, f: string)
    requires WellFormed(c) && checked <= inventory.Keys
    ensures var merged := Merged(c, inventory, service, checked, passed, now);
            && (f in merged.nodes <==> Recent(c, f, now) || Touched(inventory, checked, f))
            && (f in merged.nodes ==> Holds(c, merged.nodes[f], inventory, service, checked, passed, now, f))
  {
    var aged, names := Aged(c, now, |c.order|), Sorted(checked);
    AgedAt(c, now, |c.order|, f);
    assert c.order[..|c.order|] == c.order;
    RecentExactly(c, f, now);
    WrittenMeaning(aged, inventory, service, names, passed, now, f);
    var merged := Merged(c, inventory, service, checked, passed, now);
    if n :| n in names && inventory[n] == f {
      var i: nat :| LastWriter(inventory, names, f, i) && merged.nodes[f] == Had(aged, f)[service := Verdict(names[i] in passed, now)];
      LastDecides(inventory, checked, f, i);
    } else {
      assert forall n :: n in checked ==> n in names;
      NoneTouched(inventory, checked, f);
      if f in merged.nodes { assert merged.nodes[f] == c.nodes[f]; }
    }
  }

  // ----- what the bound leaves of them -----

  /** The latest epoch of a record, 0 when it has no verdict. */
  ghost predicate LatestEpoch(s: Services, epoch: int) { if s == map[] then epoch == 0 else exists k :: IsLatest(s, k) && s[k].epoch == epoch }

  lemma RankExactly(c: Cache, f: string)
    requires f in c.nodes
    ensures LatestEpoch(c.nodes[f], Rank(c, f))
  {
    if c.nodes[f] != map[] {
      NewestMeaning(c.nodes[f]);
      var k :| k in c.nodes[f] && c.nodes[f][k].epoch == Newest(c.nodes[f]);
      assert IsLatest(c.nodes[f], k);
    }
  }

  /** At most 4096 records stay, all of them when they are not more, and then in the order of their fingerprints. */
  lemma EvictedExactly(c: Cache)
    requires WellFormed(c)
    ensures var r := Evicted(c);
            && |r.nodes| == (if |c.nodes| > 4096 then 4096 else |c.nodes|) && (|c.nodes| <= 4096 ==> r.nodes == c.nodes)
            && (forall f :: f in r.nodes ==> f in c.nodes && r.nodes[f] == c.nodes[f])
            && WellFormed(r) && forall i, j :: 0 <= i < j < |r.order| ==> Leq(r.order[i], r.order[j])
  {
    OrderCounts(c);
    KeptBound(c);
    SortedAscends(Evicted(c).nodes.Keys);
  }

  /** A record is dropped only for records checked no earlier. */
  lemma DroppedIsOlder(c: Cache, kept: string, dropped: string, a: int, b: int)
    requires WellFormed(c) && kept in Evicted(c).nodes && dropped in c.nodes && dropped !in Evicted(c).nodes
    requires LatestEpoch(c.nodes[kept], a) && LatestEpoch(c.nodes[dropped], b)
    ensures a >= b
  {
    OrderCounts(c);
    KeptBound(c);
    RankExactly(c, kept);
    RankExactly(c, dropped);
    EvictsLeastRecent(c, kept, dropped);
    OutranksRank(c, c.order, kept, dropped);
  }

  /** Which records an update leaves and what is in them; `merged` is what it leaves without the bound. */
  lemma UpdateExactly(c: Cache, inventory: Inventory, service: string, checked: set<string>, passed: set<string>, now: int, f: string)
    requires WellFormed(c) && checked <= inventory.Keys
    ensures var r, merged := Updated(c, inventory, service, checked, passed, now), Merged(c, inventory, service, checked, passed, now);
            && (f in merged.nodes <==> Recent(c, f, now) || Touched(inventory, checked, f))
            && |r.nodes| == (if |merged.nodes| > 4096 then 4096 else |merged.nodes|)
            && (f in r.nodes ==> f in merged.nodes && Holds(c, r.nodes[f], inventory, service, checked, passed, now, f))
            && (|merged.nodes| <= 4096 && f in merged.nodes ==> f in r.nodes)
            && forall i, j :: 0 <= i < j < |r.order| ==> Leq(r.order[i], r.order[j])
  {
    UpdatedWellFormed(c, inventory, service, checked, passed, now);
    MergedExactly(c, inventory, service, checked, passed, now, f);
    EvictedExactly(Merged(c, inventory, service, checked, passed, now));
  }

  // ----- whom a turn routes to -----

  /** A fresh cached pass. */
  ghost predicate PassesNow(c: Cache, s: Step, n: string) { InTime(c, s.inventory, s.service, n, true, s.decided, s.ttls.pass) }

  ghost predicate FailsNow(c: Cache, s: Step, n: string) { InTime(c, s.inventory, s.service, n, false, s.decided, s.ttls.failure) }

  /**
   Without a systemic verdict the cached passes and the unanswered names that pass the sweep; with one the cached passes
   alone, and without any of those the whole inventory.
   */
  lemma RoutedExactly(c: Cache, s: Step, n: string)
    ensures n in Routed(c, s) <==>
            if s.outcome.Clear? then PassesNow(c, s, n) || (n in s.inventory && n in s.sweep && !FailsNow(c, s, n))
            else if exists m :: PassesNow(c, s, m) then PassesNow(c, s, n)
            else n in s.inventory
  {
    forall m ensures m in Decided(c, s).passed <==> PassesNow(c, s, m) { DecisionExactly(c, s.inventory, s.service, s.decided, s.ttls, m); }
    DecisionExactly(c, s.inventory, s.service, s.decided, s.ttls, n);
    if Decided(c, s).passed != {} {
      var m :| m in Decided(c, s).passed;
      assert PassesNow(c, s, m);
    }
  }

  /** The names of the inventory the cache does not answer. */
  ghost function Unanswered(c: Cache, s: Step): set<string> { set n | n in s.inventory && !PassesNow(c, s, n) && !FailsNow(c, s, n) }

  /** A turn writes nothing after a closed gate or with every name answered, and otherwise exactly the unanswered names. */
  lemma WritesExactly(c: Cache, s: Step, f: string)
    requires WellFormed(c)
    ensures var r, live := After(c, s), Unanswered(c, s);
            if s.outcome.SentinelGate? || live == {} then r == c
            else && (f in r.nodes ==> (Recent(c, f, s.updated) || Touched(s.inventory, live, f))
                                      && Holds(c, r.nodes[f], s.inventory, s.service, live, s.sweep, s.updated, f))
                 && (|r.nodes| < 4096 && (Recent(c, f, s.updated) || Touched(s.inventory, live, f)) ==> f in r.nodes)
  {
    var live := Unanswered(c, s);
    forall n ensures n in Decided(c, s).live <==> n in live { DecisionExactly(c, s.inventory, s.service, s.decided, s.ttls, n); }
    assert Decided(c, s).live == live;
    LiveListed(c, s);
    if !s.outcome.SentinelGate? && live != {} {
      UpdateExactly(c, s.inventory, s.service, live, s.sweep * live, s.updated, f);
      if f in After(c, s).nodes { SameVerdicts(c, After(c, s).nodes[f], s, live, f); }
    }
  }

  lemma SameVerdicts(c: Cache, r: Services, s: Step, live: set<string>, f: string)
    requires Holds(c, r, s.inventory, s.service, live, s.sweep * live, s.updated, f)
    ensures Holds(c, r, s.inventory, s.service, live, s.sweep, s.updated, f)
  {
    if Touched(s.inventory, live, f) {
      var n :| Decides(s.inventory, live, f, n) && r[s.service] == Verdict(n in s.sweep * live, s.updated);
      assert r[s.service] == Verdict(n in s.sweep, s.updated);
    }
  }
}
