/** The deadline of one subscription fetch: a socket registry under a lock, and its threads interleaved. */
module FetchDeadline {
  import opened Results

  type Socket = nat

  /** The fields the lock protects. */
  datatype Registry = Registry(sockets: set<Socket>, closed: bool, expired: bool)

  function Discard(s: set<Socket>, replacing: Option<Socket>): set<Socket> { if replacing.Some? then s - {replacing.value} else s }

  predicate Over(r: Registry) { r.closed || r.expired }

  function Watched(r: Registry, sock: Socket, replacing: Option<Socket>): Registry {
    var rest := Discard(r.sockets, replacing);
    r.(sockets := if Over(r) then rest else rest + {sock})
  }

  function Expired(r: Registry): Registry { if r.closed then r else r.(sockets := {}, expired := true) }

  function Stopped(r: Registry): Registry { r.(sockets := {}, closed := true) }

  /** Each method is one critical section; what it returns is interrupted after the lock is released. */
  class Deadline {
    var sockets: set<Socket>
    var closed: bool
    var expired: bool

    function Value(): Registry
      reads this
    {
      Registry(sockets, closed, expired)
    }

    constructor ()
      ensures Value() == Registry({}, false, false)
    {
      sockets, closed, expired := {}, false, false;
    }

    method Watch(sock: Socket, replacing: Option<Socket>) returns (toInterrupt: set<Socket>)
      modifies this
      ensures Value() == Watched(old(Value()), sock, replacing)
      ensures toInterrupt == Taken(old(Value()), Action.Watch(0, sock, replacing))
    {
      if replacing.Some? { sockets := sockets - {replacing.value}; }
      var interrupt := closed || expired;
      if !interrupt { sockets := sockets + {sock}; }
      toInterrupt := if interrupt then {sock} else {};
    }

    method Expire() returns (toInterrupt: set<Socket>)
      modifies this
      ensures Value() == Expired(old(Value()))
      ensures toInterrupt == Taken(old(Value()), Action.Expire(0))
    {
      if closed { return {}; }
      expired := true;
      toInterrupt := sockets;
      sockets := {};
    }

    method Stop() returns (toInterrupt: set<Socket>)
      modifies this
      ensures Value() == Stopped(old(Value()))
      ensures toInterrupt == Taken(old(Value()), Action.Stop(0))
    {
      closed := true;
      toInterrupt := sockets;
      sockets := {};
    }
  }

  // ----- interleavings -----

  /** The critical section of a new operation, or one interruption by an operation that has left it. */
  datatype Action = Watch(op: nat, sock: Socket, replacing: Option<Socket>) | Expire(op: nat) | Stop(op: nat) | Interrupt(op: nat, sock: Socket)

  /** What the critical section hands its operation to interrupt. */
  function Taken(r: Registry, a: Action): set<Socket> {
    match a
    case Watch(_, sock, _) => if Over(r) then {sock} else {}
    case Expire(_) => if r.closed then {} else r.sockets
    case Stop(_) => r.sockets
    case Interrupt(_, _) => {}
  }

  /** `queued` holds what every started operation has yet to interrupt; `live` the sockets handed in and not replaced since. */
  datatype World = World(registry: Registry, queued: map<nat, set<Socket>>, interrupted: set<Socket>, live: set<Socket>)

  const START := World(Registry({}, false, false), map[], {}, {})

  predicate Enabled(w: World, a: Action) {
    if a.Interrupt? then a.op in w.queued && a.sock in w.queued[a.op] else a.op !in w.queued
  }

  function Next(w: World, a: Action): World
    requires Enabled(w, a)
  {
    match a
    case Watch(op, sock, replacing) =>
      World(Watched(w.registry, sock, replacing), w.queued[op := Taken(w.registry, a)], w.interrupted, Discard(w.live, replacing) + {sock})
    case Expire(op) => w.(registry := Expired(w.registry), queued := w.queued[op := Taken(w.registry, a)])
    case Stop(op) => w.(registry := Stopped(w.registry), queued := w.queued[op := Taken(w.registry, a)])
    case Interrupt(op, sock) => w.(queued := w.queued[op := w.queued[op] - {sock}], interrupted := w.interrupted + {sock})
  }

  /** The state after a sequence of actions; `None` when one of them was not enabled. */
  function Run(actions: seq<Action>): Option<World> {
    if actions == [] then Some(START)
    else
      var k := |actions| - 1;
      var w := Run(actions[..k]);
      if w.None? || !Enabled(w.value, actions[k]) then None else Some(Next(w.value, actions[k]))
  }

  ghost predicate Queued(w: World, s: Socket) { exists op :: op in w.queued && s in w.queued[op] }

  /** Nothing handed in is lost, nothing stays registered too long, nothing is interrupted too early. */
  ghost predicate Sound(w: World) {
    && (forall s :: s in w.live ==> s in w.registry.sockets || Queued(w, s) || s in w.interrupted)
    && w.registry.sockets <= w.live
    && (Over(w.registry) ==> w.registry.sockets == {})
    && (forall s :: Queued(w, s) || s in w.interrupted ==> Over(w.registry))
  }

  /** A step queues what it takes and, if it interrupts, moves one socket on. */
  lemma QueuedNext(w: World, a: Action, s: Socket)
    requires Enabled(w, a)
    ensures !a.Interrupt? ==> (Queued(Next(w, a), s) <==> Queued(w, s) || s in Taken(w.registry, a))
    ensures a.Interrupt? && s != a.sock ==> (Queued(Next(w, a), s) <==> Queued(w, s))
    ensures Queued(Next(w, a), s) ==> Queued(w, s) || s in Taken(w.registry, a)
  {
    var n := Next(w, a);
    if Queued(w, s) && (!a.Interrupt? || s != a.sock) {
      var op :| op in w.queued && s in w.queued[op];
      assert op in n.queued && s in n.queued[op];
    }
    if s in Taken(w.registry, a) { assert a.op in n.queued && s in n.queued[a.op]; }
    if Queued(n, s) {
      var op :| op in n.queued && s in n.queued[op];
      if op != a.op { assert op in w.queued && s in w.queued[op]; }
    }
  }

  lemma SoundNext(w: World, a: Action)
    requires Sound(w) && Enabled(w, a)
    ensures Sound(Next(w, a))
  {
    var n := Next(w, a);
    forall s | s in n.live ensures s in n.registry.sockets || Queued(n, s) || s in n.interrupted {
      QueuedNext(w, a, s);
      if a.Watch? && s == a.sock && Over(w.registry) { assert s in Taken(w.registry, a); }
    }
    forall s | Queued(n, s) || s in n.interrupted ensures Over(n.registry) {
      QueuedNext(w, a, s);
      if a.Interrupt? { assert Queued(w, a.sock); }
    }
  }

  /** Every interleaving is sound. */
  lemma {:induction false} RunsAreSound(actions: seq<Action>)
    requires Run(actions).Some?
    ensures Sound(Run(actions).value)
  {
    if actions != [] {
      var k := |actions| - 1;
      RunsAreSound(actions[..k]);
      SoundNext(Run(actions[..k]).value, actions[k]);
    }
  }

  /** An expiry that no stop came ahead of. */
  ghost predicate ExpiredAt(actions: seq<Action>, k: nat) {
    k < |actions| && actions[k].Expire? && forall j :: 0 <= j < k ==> !actions[j].Stop?
  }

  /** The watchdog is closed exactly by a stop and marked expired exactly by an expiry ahead of every stop. */
  lemma {:induction false} OverHasCause(actions: seq<Action>)
    requires Run(actions).Some?
    ensures Run(actions).value.registry.closed <==> exists a :: a in actions && a.Stop?
    ensures Run(actions).value.registry.expired <==> exists k :: ExpiredAt(actions, k)
  {
    if actions != [] {
      var k := |actions| - 1;
      OverHasCause(actions[..k]);
      assert actions == actions[..k] + [actions[k]];
      assert (exists a :: a in actions[..k] && a.Stop?) <==> exists j :: 0 <= j < k && actions[j].Stop?;
      if Run(actions[..k]).value.registry.expired {
        var j :| ExpiredAt(actions[..k], j);
        assert ExpiredAt(actions, j);
      }
      if j: nat :| ExpiredAt(actions, j) && j < k { assert ExpiredAt(actions[..k], j); }
      if actions[k].Expire? && !Run(actions[..k]).value.registry.closed { assert ExpiredAt(actions, k); }
    }
  }

  /** No socket is interrupted before the watchdog has expired or been stopped. */
  lemma NoEarlyInterrupt(actions: seq<Action>)
    requires Run(actions).Some? && Run(actions).value.interrupted != {}
    ensures exists a :: a in actions && (a.Stop? || a.Expire?)
  {
    RunsAreSound(actions);
    OverHasCause(actions);
    var s :| s in Run(actions).value.interrupted;
  }

  predicate Finished(w: World) { forall op :: op in w.queued ==> w.queued[op] == {} }

  /** Once the watchdog has expired or been stopped and every operation is done, every socket not replaced has been interrupted. */
  lemma AllInterrupted(actions: seq<Action>)
    requires Run(actions).Some? && Finished(Run(actions).value) && exists a :: a in actions && (a.Stop? || a.Expire?)
    ensures Run(actions).value.live <= Run(actions).value.interrupted
  {
    RunsAreSound(actions);
    OverHasCause(actions);
    CauseEnds(actions);
  }

  /** A stop or an expiry, whichever comes first, ends the watch. */
  lemma {:induction false} CauseEnds(actions: seq<Action>)
    requires exists a :: a in actions && (a.Stop? || a.Expire?)
    ensures (exists a :: a in actions && a.Stop?) || exists k :: ExpiredAt(actions, k)
  {
    var k :| 0 <= k < |actions| && (actions[k].Stop? || actions[k].Expire?);
    if forall a :: a in actions ==> !a.Stop? {
      assert forall j :: 0 <= j < k ==> actions[j] in actions;
      assert actions[k] in actions;
      assert ExpiredAt(actions, k);
    }
  }

  // ----- every run can be finished -----

  function Pending(w: World): set<(nat, Socket)> { set op, s | op in w.queued && s in w.queued[op] :: (op, s) }

  lemma {:induction false} RunAppend(actions: seq<Action>, a: Action)
    requires Run(actions).Some? && Enabled(Run(actions).value, a)
    ensures Run(actions + [a]) == Some(Next(Run(actions).value, a))
  {
    assert (actions + [a])[..|actions|] == actions;
  }

  lemma PendingDrops(w: World, op: nat, s: Socket)
    requires op in w.queued && s in w.queued[op]
    ensures |Pending(Next(w, Interrupt(op, s)))| < |Pending(w)|
  {
    var next := Next(w, Interrupt(op, s));
    assert Pending(w) == Pending(next) + {(op, s)};
    assert (op, s) !in Pending(next);
  }

  lemma Unfinished(w: World) returns (a: Action)
    requires !Finished(w)
    ensures a.Interrupt? && Enabled(w, a)
  {
    var op :| op in w.queued && w.queued[op] != {};
    var s :| s in w.queued[op];
    a := Interrupt(op, s);
  }

  /** From any state the operations under way can finish, each socket they hold being interrupted. */
  lemma {:induction false} CanFinish(actions: seq<Action>) returns (rest: seq<Action>)
    requires Run(actions).Some?
    ensures Run(actions + rest).Some? && Finished(Run(actions + rest).value)
    ensures forall a :: a in rest ==> a.Interrupt?
    decreases |Pending(Run(actions).value)|
  {
    var w := Run(actions).value;
    if Finished(w) {
      rest := [];
      assert actions + rest == actions;
    } else {
      var a := Unfinished(w);
      RunAppend(actions, a);
      PendingDrops(w, a.op, a.sock);
      var more := CanFinish(actions + [a]);
      rest := [a] + more;
      assert actions + rest == actions + [a] + more;
    }
  }
}
