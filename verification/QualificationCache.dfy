/** The private cache that stands in for live AI probes, and the service loop that trusts it. */
module QualificationCache {
  import opened Ordering

  const MAX_RECORDS: nat := 4096
  const MAX_AGE_SECONDS: nat := 7 * 24 * 60 * 60

  datatype Verdict = Verdict(passed: bool, epoch: int)

  type Services = map<string, Verdict>

  /** `nodes` with the insertion order of its fingerprints. */
  datatype Cache = Cache(order: seq<string>, nodes: map<string, Services>)

  const EMPTY := Cache([], map[])

  ghost predicate WellFormed(c: Cache) { NoDuplicates(c.order) && forall f :: f in c.order <==> f in c.nodes }

  // ----- deciding from the cache -----

  /** The runtime names of one candidate and the fingerprint of each. */
  type Inventory = map<string, string>

  datatype Ttls = Ttls(pass: int, failure: int)

  datatype Decision = Decision(passed: set<string>, failed: set<string>, live: set<string>)

  predicate Recorded(c: Cache, fingerprint: string, service: string) {
    fingerprint in c.nodes && service in c.nodes[fingerprint]
  }

  predicate Fresh(verdict: Verdict, now: int, ttls: Ttls) {
    0 <= now - verdict.epoch <= (if verdict.passed then ttls.pass else ttls.failure)
  }

  datatype Answer = Pass | Fail | Probe

  function AnswerFor(c: Cache, fingerprint: string, service: string, now: int, ttls: Ttls): Answer {
    if !Recorded(c, fingerprint, service) || !Fresh(c.nodes[fingerprint][service], now, ttls) then Probe
    else if c.nodes[fingerprint][service].passed then Pass
    else Fail
  }

  /** The decision over some of the runtime names. */
  function Split(c: Cache, inventory: Inventory, service: string, now: int, ttls: Ttls, names: seq<string>): Decision
    requires forall n :: n in names ==> n in inventory
  {
    if names == [] then Decision({}, {}, {})
    else
      var k := |names| - 1;
      var d := Split(c, inventory, service, now, ttls, names[..k]);
      match AnswerFor(c, inventory[names[k]], service, now, ttls)
      case Pass => d.(passed := d.passed + {names[k]})
      case Fail => d.(failed := d.failed + {names[k]})
      case Probe => d.(live := d.live + {names[k]})
  }

  lemma {:induction false} SplitMeaning(c: Cache, inventory: Inventory, service: string, now: int, ttls: Ttls, names: seq<string>, n: string)
    requires forall x :: x in names ==> x in inventory
    ensures n in Split(c, inventory, service, now, ttls, names).passed <==> n in names && AnswerFor(c, inventory[n], service, now, ttls) == Pass
    ensures n in Split(c, inventory, service, now, ttls, names).failed <==> n in names && AnswerFor(c, inventory[n], service, now, ttls) == Fail
    ensures n in Split(c, inventory, service, now, ttls, names).live <==> n in names && AnswerFor(c, inventory[n], service, now, ttls) == Probe
  {
    if names != [] {
      var k := |names| - 1;
      SplitMeaning(c, inventory, service, now, ttls, names[..k], n);
      assert names == names[..k] + [names[k]];
    }
  }

  function Decide(c: Cache, inventory: Inventory, service: string, now: int, ttls: Ttls): Decision {
    Split(c, inventory, service, now, ttls, Sorted(inventory.Keys))
  }

  lemma DecideMeaning(c: Cache, inventory: Inventory, service: string, now: int, ttls: Ttls, n: string)
    ensures n in Decide(c, inventory, service, now, ttls).passed <==> n in inventory && AnswerFor(c, inventory[n], service, now, ttls) == Pass
    ensures n in Decide(c, inventory, service, now, ttls).failed <==> n in inventory && AnswerFor(c, inventory[n], service, now, ttls) == Fail
    ensures n in Decide(c, inventory, service, now, ttls).live <==> n in inventory && AnswerFor(c, inventory[n], service, now, ttls) == Probe
  {
    SplitMeaning(c, inventory, service, now, ttls, Sorted(inventory.Keys), n);
  }

  /** Every name is answered pass, answered fail or probed live, never two of them. */
  lemma DecisionPartitions(c: Cache, inventory: Inventory, service: string, now: int, ttls: Ttls)
    ensures var d := Decide(c, inventory, service, now, ttls);
            d.passed + d.failed + d.live == inventory.Keys && d.passed !! d.failed && d.passed !! d.live && d.failed !! d.live
  {
    var d := Decide(c, inventory, service, now, ttls);
    forall n ensures (n in d.passed + d.failed + d.live <==> n in inventory.Keys)
                  && !(n in d.passed && n in d.failed) && !(n in d.passed && n in d.live) && !(n in d.failed && n in d.live)
    {
      DecideMeaning(c, inventory, service, now, ttls, n);
    }
  }

  /** The fingerprint of the name has a verdict of this kind for the service, not from the future and no older than `ttl`. */
  ghost predicate InTime(c: Cache, inventory: Inventory, service: string, n: string, passed: bool, now: int, ttl: int) {
    && n in inventory && inventory[n] in c.nodes && service in c.nodes[inventory[n]]
    && var v := c.nodes[inventory[n]][service];
    v.passed == passed && 0 <= now - v.epoch <= ttl
  }

  /** A name is answered exactly when its verdict is within the time a verdict of its kind may stand: passes theirs, failures theirs. */
  lemma DecisionExactly(c: Cache, inventory: Inventory, service: string, now: int, ttls: Ttls, n: string)
    ensures var d := Decide(c, inventory, service, now, ttls);
            && (n in d.passed <==> InTime(c, inventory, service, n, true, now, ttls.pass))
            && (n in d.failed <==> InTime(c, inventory, service, n, false, now, ttls.failure))
            && (n in d.live <==> n in inventory && !InTime(c, inventory, service, n, true, now, ttls.pass)
                                                && !InTime(c, inventory, service, n, false, now, ttls.failure))
  {
    DecideMeaning(c, inventory, service, now, ttls, n);
  }

  method CachedServiceDecisions(c: Cache, inventory: Inventory, service: string, now: int, ttls: Ttls) returns (d: Decision)
    ensures d == Decide(c, inventory, service, now, ttls)
    ensures forall n :: n in d.passed <==> InTime(c, inventory, service, n, true, now, ttls.pass)
    ensures forall n :: n in d.failed <==> InTime(c, inventory, service, n, false, now, ttls.failure)
    ensures d.passed + d.failed + d.live == inventory.Keys
    ensures d.passed !! d.failed && d.passed !! d.live && d.failed !! d.live
  {
    var passed: set<string>, failed: set<string>, live: set<string> := {}, {}, {};
    var names := Sorted(inventory.Keys);
    assert names[..0] == [];
    for k := 0 to |names|
      invariant Decision(passed, failed, live) == Split(c, inventory, service, now, ttls, names[..k])
    {
      var name := names[k];
      assert name in names;
      TakeStep(names, k);
      var fingerprint := inventory[name];
      if fingerprint !in c.nodes || service !in c.nodes[fingerprint] {
        live := live + {name};
      } else {
        var verdict := c.nodes[fingerprint][service];
        var age := now - verdict.epoch;
        var ttl := if verdict.passed then ttls.pass else ttls.failure;
        if age < 0 || age > ttl {
          live := live + {name};
        } else if verdict.passed {
          passed := passed + {name};
        } else {
          failed := failed + {name};
        }
      }
    }
    assert names[..|names|] == names;
    DecisionPartitions(c, inventory, service, now, ttls);
    d := Decision(passed, failed, live);
    forall n ensures (n in d.passed <==> InTime(c, inventory, service, n, true, now, ttls.pass))
                  && (n in d.failed <==> InTime(c, inventory, service, n, false, now, ttls.failure))
    {
      DecisionExactly(c, inventory, service, now, ttls, n);
    }
  }

  // ----- updating one service -----

  predicate IsNewest(s: Services, epoch: int) {
    (exists k :: k in s && s[k].epoch == epoch) && forall k :: k in s ==> s[k].epoch <= epoch
  }

  lemma NewestExists(s: Services)
    requires s != map[]
    ensures exists epoch :: IsNewest(s, epoch)
  {
    var k :| k in s;
    var rest := map x | x in s && x != k :: s[x];
    if rest == map[] {
      assert forall x :: x in s && x != k ==> x in rest;
      assert IsNewest(s, s[k].epoch);
    } else {
      assert rest.Keys < s.Keys;
      NewestExists(rest);
      var e :| IsNewest(rest, e);
      assert forall x :: x in s ==> x == k || x in rest;
      assert IsNewest(s, if s[k].epoch > e then s[k].epoch else e);
    }
  }

  /** The latest `checked_epoch` of a record, 0 when it has none. */
  function Newest(s: Services): int {
    if s == map[] then 0
    else
      NewestExists(s);
      var epochs := set k | k in s :: s[k].epoch;
      var epoch :| epoch in epochs && IsNewest(s, epoch);
      epoch
  }

  lemma NewestMeaning(s: Services)
    requires s != map[]
    ensures IsNewest(s, Newest(s))
  {
    NewestExists(s);
  }

  predicate Lively(s: Services, now: int) { Newest(s) > 0 && 0 <= now - Newest(s) <= MAX_AGE_SECONDS }

  function Aged(c: Cache, now: int, k: nat): (r: Cache)
    requires k <= |c.order| && forall f :: f in c.order ==> f in c.nodes
  {
    if k == 0 then EMPTY
    else
      var rest, f := Aged(c, now, k - 1), c.order[k - 1];
      if Lively(c.nodes[f], now) then Cache(rest.order + [f], rest.nodes[f := c.nodes[f]]) else rest
  }

  lemma {:induction false} AgedWellFormed(c: Cache, now: int, k: nat)
    requires WellFormed(c) && k <= |c.order|
    ensures WellFormed(Aged(c, now, k)) && forall f :: f in Aged(c, now, k).order ==> f in c.order[..k]
  {
    if k > 0 {
      AgedWellFormed(c, now, k - 1);
      TakeStep(c.order, k - 1);
      assert c.order[k - 1] !in c.order[..k - 1];
    }
  }

  lemma {:induction false} AgedAt(c: Cache, now: int, k: nat, f: string)
    requires WellFormed(c) && k <= |c.order|
    ensures f in Aged(c, now, k).nodes <==> f in c.order[..k] && Lively(c.nodes[f], now)
    ensures f in Aged(c, now, k).nodes ==> Aged(c, now, k).nodes[f] == c.nodes[f]
  {
    if k > 0 {
      AgedAt(c, now, k - 1, f);
      TakeStep(c.order, k - 1);
    }
  }

  /** One checked name: `setdefault` on its record, then its verdict for the service. */
  function Write(c: Cache, fingerprint: string, service: string, verdict: Verdict): Cache {
    if fingerprint in c.nodes then c.(nodes := c.nodes[fingerprint := c.nodes[fingerprint][service := verdict]])
    else Cache(c.order + [fingerprint], c.nodes[fingerprint := map[service := verdict]])
  }

  function Written(c: Cache, inventory: Inventory, service: string, names: seq<string>, passed: set<string>, now: int): Cache
    requires forall n :: n in names ==> n in inventory
  {
    if names == [] then c
    else
      var k := |names| - 1;
      Write(Written(c, inventory, service, names[..k], passed, now), inventory[names[k]], service, Verdict(names[k] in passed, now))
  }

  /** The services a fingerprint had in `c`. */
  function Had(c: Cache, fingerprint: string): Services { if fingerprint in c.nodes then c.nodes[fingerprint] else map[] }

  /** The last of `names` with this fingerprint decides. */
  ghost predicate LastWriter(inventory: Inventory, names: seq<string>, fingerprint: string, i: nat) {
    && i < |names| && names[i] in inventory && inventory[names[i]] == fingerprint
    && forall j :: i < j < |names| && names[j] in inventory ==> inventory[names[j]] != fingerprint
  }

  ghost predicate WrittenAt(c: Cache, w: Cache, inventory: Inventory, service: string, names: seq<string>, passed: set<string>, now: int, f: string) {
    if forall n :: n in names && n in inventory ==> inventory[n] != f then (f in w.nodes <==> f in c.nodes) && Had(w, f) == Had(c, f)
    else f in w.nodes && exists i: nat :: LastWriter(inventory, names, f, i) && w.nodes[f] == Had(c, f)[service := Verdict(names[i] in passed, now)]
  }

  lemma WriteWellFormed(c: Cache, fingerprint: string, service: string, verdict: Verdict)
    requires WellFormed(c)
    ensures WellFormed(Write(c, fingerprint, service, verdict))
  {
    var w := Write(c, fingerprint, service, verdict);
    assert forall f :: f in w.order <==> f in c.order || f == fingerprint;
  }

  lemma {:induction false} WrittenWellFormed(c: Cache, inventory: Inventory, service: string, names: seq<string>, passed: set<string>, now: int)
    requires WellFormed(c) && forall n :: n in names ==> n in inventory
    ensures WellFormed(Written(c, inventory, service, names, passed, now))
  {
    if names != [] {
      var k := |names| - 1;
      WrittenWellFormed(c, inventory, service, names[..k], passed, now);
      WriteWellFormed(Written(c, inventory, service, names[..k], passed, now), inventory[names[k]], service, Verdict(names[k] in passed, now));
    }
  }

  lemma WriteAt(c: Cache, fingerprint: string, service: string, verdict: Verdict, f: string)
    ensures f != fingerprint ==> (f in Write(c, fingerprint, service, verdict).nodes <==> f in c.nodes) && Had(Write(c, fingerprint, service, verdict), f) == Had(c, f)
    ensures fingerprint in Write(c, fingerprint, service, verdict).nodes
    ensures Had(Write(c, fingerprint, service, verdict), fingerprint) == Had(c, fingerprint)[service := verdict]
  {
  }

  /** Who is last once one more name is written. */
  lemma LastWriterStep(inventory: Inventory, names: seq<string>, k: nat, f: string)
    requires |names| == k + 1 && names[k] in inventory
    ensures inventory[names[k]] == f ==> LastWriter(inventory, names, f, k)
    ensures inventory[names[k]] != f ==> forall i: nat :: LastWriter(inventory, names[..k], f, i) ==> LastWriter(inventory, names, f, i)
  {
  }

  lemma {:induction false} WrittenMeaning(c: Cache, inventory: Inventory, service: string, names: seq<string>, passed: set<string>, now: int, f: string)
    requires forall n :: n in names ==> n in inventory
    ensures WrittenAt(c, Written(c, inventory, service, names, passed, now), inventory, service, names, passed, now, f)
  {
    if names != [] {
      var k := |names| - 1;
      var init, last := names[..k], names[k];
      var before := Written(c, inventory, service, init, passed, now);
      assert names == init + [last];
      WrittenMeaning(c, inventory, service, init, passed, now, f);
      WriteAt(before, inventory[last], service, Verdict(last in passed, now), f);
      LastWriterStep(inventory, names, k, f);
      WrittenStep(c, before, Written(c, inventory, service, names, passed, now), inventory, service, names, k, passed, now, f);
    }
  }

  lemma WrittenStep(c: Cache, before: Cache, after: Cache, inventory: Inventory, service: string, names: seq<string>, k: nat,
                    passed: set<string>, now: int, f: string)
    requires |names| == k + 1 && names[k] in inventory
    requires WrittenAt(c, before, inventory, service, names[..k], passed, now, f)
    requires inventory[names[k]] == f ==> f in after.nodes && after.nodes[f] == Had(before, f)[service := Verdict(names[k] in passed, now)]
    requires inventory[names[k]] != f ==> (f in after.nodes <==> f in before.nodes) && Had(after, f) == Had(before, f)
    requires inventory[names[k]] == f ==> LastWriter(inventory, names, f, k)
    requires inventory[names[k]] != f ==> forall i: nat :: LastWriter(inventory, names[..k], f, i) ==> LastWriter(inventory, names, f, i)
    ensures WrittenAt(c, after, inventory, service, names, passed, now, f)
  {
    assert names == names[..k] + [names[k]];
    if inventory[names[k]] == f {
      assert Had(before, f)[service := Verdict(names[k] in passed, now)] == Had(c, f)[service := Verdict(names[k] in passed, now)];
      assert names[k] in names;
    } else if exists n :: n in names[..k] && n in inventory && inventory[n] == f {
      var i: nat :| LastWriter(inventory, names[..k], f, i) && before.nodes[f] == Had(c, f)[service := Verdict(names[..k][i] in passed, now)];
      assert LastWriter(inventory, names, f, i) && names[i] == names[..k][i];
    }
  }

  // ----- bounded eviction -----

  function Rank(c: Cache, f: string): int { Newest(Had(c, f)) }

  /** Python's stable `sorted(..., reverse=True)`: equal ranks keep their order. */
  function InsertRanked(c: Cache, f: string, rest: seq<string>): seq<string> {
    if rest == [] || Rank(c, rest[0]) <= Rank(c, f) then [f] + rest else [rest[0]] + InsertRanked(c, f, rest[1..])
  }

  function Ranked(c: Cache, order: seq<string>): seq<string> {
    if order == [] then [] else InsertRanked(c, order[0], Ranked(c, order[1..]))
  }

  /** `a` outranks `b`: checked more recently, or as recently and stored earlier. */
  ghost predicate Outranks(c: Cache, order: seq<string>, a: string, b: string) {
    Rank(c, a) > Rank(c, b) || (Rank(c, a) == Rank(c, b) && exists i, j :: 0 <= i < j < |order| && order[i] == a && order[j] == b)
  }

  ghost predicate IsRanking(c: Cache, order: seq<string>, ranked: seq<string>) {
    && NoDuplicates(ranked) && |ranked| == |order| && (forall f :: f in ranked <==> f in order)
    && forall i, j :: 0 <= i < j < |ranked| ==> Outranks(c, order, ranked[i], ranked[j])
  }

  lemma {:induction false} InsertedRanking(c: Cache, f: string, order: seq<string>, ranked: seq<string>, k: nat)
    requires f !in order && IsRanking(c, order, ranked) && k <= |ranked|
    requires forall i :: 0 <= i < k ==> Rank(c, ranked[i]) > Rank(c, f)
    ensures IsRanking(c, [f] + order, ranked[..k] + InsertRanked(c, f, ranked[k..]))
    decreases |ranked| - k
  {
    var rest := ranked[k..];
    if rest == [] || Rank(c, rest[0]) <= Rank(c, f) {
      assert ranked[..k] + ([f] + rest) == ranked[..k] + [f] + ranked[k..];
      InsertedAt(c, f, order, ranked, k);
    } else {
      InsertedRanking(c, f, order, ranked, k + 1);
      InsertPastFirst(c, f, ranked, k);
    }
  }

  lemma InsertPastFirst(c: Cache, f: string, ranked: seq<string>, k: nat)
    requires k < |ranked| && Rank(c, ranked[k]) > Rank(c, f)
    ensures ranked[..k] + InsertRanked(c, f, ranked[k..]) == ranked[..k + 1] + InsertRanked(c, f, ranked[k + 1..])
  {
    assert ranked[k..][1..] == ranked[k + 1..];
    assert ranked[..k] + ([ranked[k]] + InsertRanked(c, f, ranked[k + 1..])) == ranked[..k + 1] + InsertRanked(c, f, ranked[k + 1..]);
  }

  lemma InsertedAt(c: Cache, f: string, order: seq<string>, ranked: seq<string>, k: nat)
    requires f !in order && IsRanking(c, order, ranked) && k <= |ranked|
    requires forall i :: 0 <= i < k ==> Rank(c, ranked[i]) > Rank(c, f)
    requires k < |ranked| ==> Rank(c, ranked[k]) <= Rank(c, f)
    ensures IsRanking(c, [f] + order, ranked[..k] + [f] + ranked[k..])
  {
    var all := ranked[..k] + [f] + ranked[k..];
    forall x ensures x in all <==> x in [f] + order {
      assert ranked == ranked[..k] + ranked[k..];
      assert x in ranked <==> x in order;
    }
    forall i, j | 0 <= i < j < |all| ensures all[i] != all[j] && Outranks(c, [f] + order, all[i], all[j]) {
      InsertedPair(c, f, order, ranked, k, i, j);
    }
  }

  lemma InsertedPair(c: Cache, f: string, order: seq<string>, ranked: seq<string>, k: nat, i: nat, j: nat)
    requires f !in order && IsRanking(c, order, ranked) && k <= |ranked| && i < j <= |ranked|
    requires forall x :: 0 <= x < k ==> Rank(c, ranked[x]) > Rank(c, f)
    requires k < |ranked| ==> Rank(c, ranked[k]) <= Rank(c, f)
    ensures var all := ranked[..k] + [f] + ranked[k..];
            all[i] != all[j] && Outranks(c, [f] + order, all[i], all[j])
  {
    var a := if i < k then i else i - 1;
    var b := if j < k then j else j - 1;
    if i == k {
      assert ranked[b] in ranked;
      if b > k { OutranksRank(c, order, ranked[k], ranked[b]); }
      FirstOutranks(c, f, order, ranked[b]);
    } else if j == k {
      assert ranked[i] in ranked;
    } else {
      assert Outranks(c, order, ranked[a], ranked[b]);
      OutranksLater(c, f, order, ranked[a], ranked[b]);
    }
  }

  lemma OutranksRank(c: Cache, order: seq<string>, a: string, b: string)
    requires Outranks(c, order, a, b)
    ensures Rank(c, a) >= Rank(c, b)
  {
  }

  lemma FirstOutranks(c: Cache, f: string, order: seq<string>, b: string)
    requires b in order && Rank(c, b) <= Rank(c, f)
    ensures Outranks(c, [f] + order, f, b)
  {
    var j :| 0 <= j < |order| && order[j] == b;
    assert ([f] + order)[0] == f && ([f] + order)[j + 1] == b;
  }

  lemma OutranksLater(c: Cache, f: string, order: seq<string>, a: string, b: string)
    requires Outranks(c, order, a, b)
    ensures Outranks(c, [f] + order, a, b)
  {
    if Rank(c, a) == Rank(c, b) {
      var i, j :| 0 <= i < j < |order| && order[i] == a && order[j] == b;
      assert ([f] + order)[i + 1] == a && ([f] + order)[j + 1] == b;
    }
  }

  lemma {:induction false} RankedMeaning(c: Cache, order: seq<string>)
    requires NoDuplicates(order)
    ensures IsRanking(c, order, Ranked(c, order))
  {
    if order != [] {
      var ranked := Ranked(c, order[1..]);
      RankedMeaning(c, order[1..]);
      InsertedRanking(c, order[0], order[1..], ranked, 0);
      assert ranked[..0] + InsertRanked(c, order[0], ranked[0..]) == InsertRanked(c, order[0], ranked);
      assert order == [order[0]] + order[1..];
    }
  }

  function Kept(c: Cache): seq<string> { FirstOf(Ranked(c, c.order), MAX_RECORDS) }

  function Members(s: seq<string>): set<string> { set f | f in s }

  function FirstOf(s: seq<string>, n: nat): seq<string> { if |s| <= n then s else s[..n] }

  function Restricted(c: Cache, keep: set<string>): Cache {
    var nodes := map f | f in c.nodes && f in keep :: c.nodes[f];
    Cache(Sorted(nodes.Keys), nodes)
  }

  /** The aged cache with the fresh verdicts written over it, before eviction. */
  function Merged(c: Cache, inventory: Inventory, service: string, checked: set<string>, passed: set<string>, now: int): Cache
    requires WellFormed(c) && checked <= inventory.Keys
  {
    Written(Aged(c, now, |c.order|), inventory, service, Sorted(checked), passed, now)
  }

  function Updated(c: Cache, inventory: Inventory, service: string, checked: set<string>, passed: set<string>, now: int): Cache
    requires WellFormed(c) && checked <= inventory.Keys
  {
    Evicted(Merged(c, inventory, service, checked, passed, now))
  }

  method UpdateCacheService(c: Cache, inventory: Inventory, service: string, checked: set<string>, passed: set<string>, now: int)
    returns (r: Cache)
    requires WellFormed(c) && checked <= inventory.Keys
    ensures r == Updated(c, inventory, service, checked, passed, now)
    ensures WellFormed(r) && |r.nodes| <= MAX_RECORDS
  {
    var all := EMPTY;
    for k := 0 to |c.order|
      invariant all == Aged(c, now, k)
    {
      var services := c.nodes[c.order[k]];
      var newest := Newest(services);
      if newest > 0 && 0 <= now - newest <= MAX_AGE_SECONDS {
        all := Cache(all.order + [c.order[k]], all.nodes[c.order[k] := services]);
      }
    }
    ghost var aged := all;
    var names := Sorted(checked);
    assert names[..0] == [];
    for k := 0 to |names|
      invariant all == Written(aged, inventory, service, names[..k], passed, now)
    {
      TakeStep(names, k);
      var fingerprint := inventory[names[k]];
      var verdict := Verdict(names[k] in passed, now);
      if fingerprint !in all.nodes {
        all := Cache(all.order + [fingerprint], all.nodes[fingerprint := map[service := verdict]]);
      } else {
        all := all.(nodes := all.nodes[fingerprint := all.nodes[fingerprint][service := verdict]]);
      }
    }
    assert names[..|names|] == names;
    UpdatedWellFormed(c, inventory, service, checked, passed, now);
    r := Evict(all);
  }

  function Evicted(all: Cache): Cache {
    if |all.order| > MAX_RECORDS then Restricted(all, Members(Kept(all))) else Restricted(all, all.nodes.Keys)
  }

  method Evict(all: Cache) returns (r: Cache)
    requires WellFormed(all)
    ensures r == Evicted(all) && WellFormed(r) && |r.nodes| <= MAX_RECORDS
  {
    OrderCounts(all);
    if |all.order| > MAX_RECORDS {
      KeptBound(all);
      r := Restricted(all, Members(FirstOf(Ranked(all, all.order), MAX_RECORDS)));
    } else {
      r := Restricted(all, all.nodes.Keys);
    }
  }

  lemma UpdatedWellFormed(c: Cache, inventory: Inventory, service: string, checked: set<string>, passed: set<string>, now: int)
    requires WellFormed(c) && checked <= inventory.Keys
    ensures WellFormed(Merged(c, inventory, service, checked, passed, now))
  {
    AgedWellFormed(c, now, |c.order|);
    WrittenWellFormed(Aged(c, now, |c.order|), inventory, service, Sorted(checked), passed, now);
  }

  lemma DistinctCount(s: seq<string>)
    requires NoDuplicates(s)
    ensures |Members(s)| == |s|
  {
    if s != [] {
      DistinctCount(s[1..]);
      assert s == [s[0]] + s[1..];
      assert Members(s) == {s[0]} + Members(s[1..]);
    }
  }

  lemma OrderCounts(c: Cache)
    requires WellFormed(c)
    ensures |c.order| == |c.nodes| && Restricted(c, c.nodes.Keys).nodes == c.nodes
  {
    DistinctCount(c.order);
    assert Members(c.order) == c.nodes.Keys;
  }

  lemma FirstOfMeaning(s: seq<string>, n: nat)
    requires NoDuplicates(s)
    ensures NoDuplicates(FirstOf(s, n)) && |FirstOf(s, n)| == (if |s| < n then |s| else n) && forall x :: x in FirstOf(s, n) ==> x in s
  {
  }

  lemma KeptBound(c: Cache)
    requires WellFormed(c)
    ensures forall f :: f in Kept(c) ==> f in c.nodes
    ensures |Restricted(c, Members(Kept(c))).nodes| == if |c.nodes| > MAX_RECORDS then MAX_RECORDS else |c.nodes|
  {
    RankedMeaning(c, c.order);
    FirstOfMeaning(Ranked(c, c.order), MAX_RECORDS);
    DistinctCount(Kept(c));
    OrderCounts(c);
    assert Restricted(c, Members(Kept(c))).nodes.Keys == Members(Kept(c));
  }

  lemma FirstOutranksRest(c: Cache, order: seq<string>, ranked: seq<string>, n: nat, a: string, b: string)
    requires IsRanking(c, order, ranked) && a in FirstOf(ranked, n) && b in ranked && b !in FirstOf(ranked, n)
    ensures Outranks(c, order, a, b)
  {
    var i :| 0 <= i < |FirstOf(ranked, n)| && FirstOf(ranked, n)[i] == a;
    var j :| 0 <= j < |ranked| && ranked[j] == b;
    assert j >= n;
    assert ranked[i] == a;
  }

  /** Eviction drops only what every kept record outranks. */
  lemma EvictsLeastRecent(c: Cache, kept: string, dropped: string)
    requires WellFormed(c) && kept in Kept(c) && dropped in c.nodes && dropped !in Kept(c)
    ensures Outranks(c, c.order, kept, dropped)
  {
    RankedMeaning(c, c.order);
    FirstOutranksRest(c, c.order, Ranked(c, c.order), MAX_RECORDS, kept, dropped);
  }
}
