/** Replicas that applied the same log agree on who is registered, whatever their clocks read. */
module RegistryReplay {
  import opened Common
  import opened RaftSpec
  import opened RaftCluster
  import opened RaftSafety
  import opened RegistryTable
  import opened RegistryServers

  /** The ordered host and port list of a service: the vector without its clock readings. */
  function Addresses(v: seq<Instance>): seq<(string, int)> {
    if v == [] then [] else Addresses(v[..|v| - 1]) + [(v[|v| - 1].host, v[|v| - 1].port)]
  }

  ghost predicate SameAddresses(a: Table, b: Table) {
    a.Keys == b.Keys && forall s :: s in a ==> Addresses(a[s]) == Addresses(b[s])
  }

  /** The log entries in order, each applied at the clock reading given for it. */
  function Replay(log: seq<Entry>, parse: string -> Option<ServiceOperation>, clock: nat -> int): Table {
    if log == [] then map[]
    else Perform(Replay(log[..|log| - 1], parse, clock), Event(Requested(log[|log| - 1], parse), clock(|log| - 1)))
  }

  lemma {:induction false} AddressesAt(v: seq<Instance>)
    ensures |Addresses(v)| == |v|
    ensures forall i :: 0 <= i < |v| ==> Addresses(v)[i] == (v[i].host, v[i].port)
  {
    if v != [] {
      AddressesAt(v[..|v| - 1]);
    }
  }

  /** Equal lists of addresses are equal element by element. */
  lemma SameAt(a: seq<Instance>, b: seq<Instance>)
    ensures Addresses(a) == Addresses(b) <==>
      |a| == |b| && forall i :: 0 <= i < |a| ==> a[i].host == b[i].host && a[i].port == b[i].port
  {
    AddressesAt(a);
    AddressesAt(b);
    if |a| == |b| && forall i :: 0 <= i < |a| ==> a[i].host == b[i].host && a[i].port == b[i].port {
      assert forall i :: 0 <= i < |a| ==> Addresses(a)[i] == Addresses(b)[i];
    } else if Addresses(a) == Addresses(b) {
      forall i | 0 <= i < |a| ensures a[i].host == b[i].host && a[i].port == b[i].port {
        assert Addresses(a)[i] == Addresses(b)[i];
      }
    }
  }

  lemma {:induction false} SameFind(a: seq<Instance>, b: seq<Instance>, h: string, p: int)
    requires Addresses(a) == Addresses(b)
    ensures Find(a, h, p) == Find(b, h, p)
  {
    SameAt(a, b);
    var i := Find(a, h, p);
    if i < |a| {
      FindUnique(b, h, p, i);
    } else {
      FindNone(b, h, p);
    }
  }

  lemma SameUpsert(a: seq<Instance>, b: seq<Instance>, h: string, p: int, t: int, u: int)
    requires Addresses(a) == Addresses(b)
    ensures Addresses(Upsert(a, h, p, t)) == Addresses(Upsert(b, h, p, u))
    ensures Addresses(Touch(a, h, p, t)) == Addresses(Touch(b, h, p, u))
  {
    SameFind(a, b, h, p);
    SameAt(a, b);
    SameAt(Upsert(a, h, p, t), Upsert(b, h, p, u));
    SameAt(Touch(a, h, p, t), Touch(b, h, p, u));
  }

  lemma {:induction false} SameRemoval(a: seq<Instance>, b: seq<Instance>, f: Instance -> bool, h: string, p: int)
    requires Addresses(a) == Addresses(b) && forall e :: f(e) == !Is(e, h, p)
    ensures Addresses(Filter(a, f)) == Addresses(Filter(b, f))
  {
    SameAt(a, b);
    if a != [] {
      var a', b' := a[..|a| - 1], b[..|b| - 1];
      SameAt(a', b');
      SameRemoval(a', b', f, h, p);
      SameAt(Filter(a', f), Filter(b', f));
      SameAt(Filter(a, f), Filter(b, f));
    }
  }

  lemma PerformSame(a: Table, b: Table, op: Operation, t: int, u: int)
    requires SameAddresses(a, b) && !op.DoSweep?
    ensures SameAddresses(Perform(a, Event(op, t)), Perform(b, Event(op, u)))
  {
    hide Upsert, Touch, Filter, Addresses;
    match op
    case DoRegister(s, h, p) =>
      SameUpsert(Instances(a, s), Instances(b, s), h, p, t, u);
    case DoHeartbeat(s, h, p) =>
      if s in a { SameUpsert(a[s], b[s], h, p, t, u); }
    case DoUnregister(s, h, p) =>
      if s in a {
        var f := (e: Instance) => !Is(e, h, p);
        SameRemoval(a[s], b[s], f, h, p);
        SameFilter(a[s], f, e => !Is(e, h, p));
        SameFilter(b[s], f, e => !Is(e, h, p));
        SameAt(Filter(a[s], f), Filter(b[s], f));
      }
    case Ignored =>
  }

  /** Replay determinism: one log, any two sequences of clock readings, the same ordered
      host and port list for every service. */
  lemma {:induction false} ReplayIsDeterministic(log: seq<Entry>, parse: string -> Option<ServiceOperation>,
                                                 c: nat -> int, d: nat -> int)
    ensures SameAddresses(Replay(log, parse, c), Replay(log, parse, d))
  {
    if log != [] {
      var n := |log| - 1;
      ReplayIsDeterministic(log[..n], parse, c, d);
      PerformSame(Replay(log[..n], parse, c), Replay(log[..n], parse, d), Requested(log[n], parse), c(n), d(n));
    }
  }

  /** Two nodes of a safe run that have applied equally many entries, at whatever times, hold
      the same addresses for every service. */
  lemma ReplicasAgree(cfg: Config, rules: Rules, r: Run, t: nat, i: NodeId, u: nat, j: NodeId,
                      parse: string -> Option<ServiceOperation>, c: nat -> int, d: nat -> int)
    requires ValidConfig(cfg) && SafeRun(cfg, rules, r) && t < |r.states| && u < |r.states|
    requires i < |r.states[t]| && j < |r.states[u]|
    requires |r.states[t][i].node.applied| == |r.states[u][j].node.applied|
    ensures SameAddresses(Replay(r.states[t][i].node.applied, parse, c), Replay(r.states[u][j].node.applied, parse, d))
  {
    var a, b := r.states[t][i].node.applied, r.states[u][j].node.applied;
    forall x: nat | x < |a| ensures a[x] == b[x] {
      StateMachineSafety(cfg, rules, r, t, i, u, j, x);
    }
    assert a == b;
    ReplayIsDeterministic(a, parse, c, d);
  }

  // ------------------------------------------------- sweeps in between

  /** What one replica does over time: it applies log entries and it sweeps. */
  datatype Step = ApplyEntry(entry: Entry, now: int) | Expire(now: int)

  function Replica(steps: seq<Step>, parse: string -> Option<ServiceOperation>): Table {
    if steps == [] then map[]
    else
      var t := Replica(steps[..|steps| - 1], parse);
      match steps[|steps| - 1]
      case ApplyEntry(entry, now) => Perform(t, Event(Requested(entry, parse), now))
      case Expire(now) => Sweep(t, now)
  }

  function LogOf(steps: seq<Step>): seq<Entry> {
    if steps == [] then []
    else LogOf(steps[..|steps| - 1]) + (if steps[|steps| - 1].ApplyEntry? then [steps[|steps| - 1].entry] else [])
  }

  ghost predicate Registered(t: Table, s: string, h: string, p: int) {
    Lookup(Instances(t, s), h, p).Some?
  }

  ghost predicate Within(a: Table, b: Table) {
    forall s: string, h: string, p: int :: Registered(a, s, h, p) ==> Registered(b, s, h, p)
  }

  /** Who is registered afterwards depends only on who was before. */
  lemma PerformRegistered(t: Table, op: Operation, now: int, s: string, h: string, p: int)
    requires TableInv(t) && !op.DoSweep?
    ensures Registered(Perform(t, Event(op, now)), s, h, p) <==>
      match op
      case DoRegister(s', h', p') => (s, h, p) == (s', h', p') || Registered(t, s, h, p)
      case DoUnregister(s', h', p') => (s, h, p) != (s', h', p') && Registered(t, s, h, p)
      case _ => Registered(t, s, h, p)
  {
    var e, v := Event(op, now), Instances(t, s);
    PerformVector(t, e, s);
    NoDuplicatesIn(t, s);
    match op
    case DoRegister(_, host, port) => UpsertLookup(v, host, port, now, h, p);
    case DoUnregister(_, host, port) => FilterLookup(v, x => !Is(x, host, port), h, p);
    case DoHeartbeat(_, host, port) => TouchLookup(v, host, port, now, h, p);
    case Ignored =>
  }

  lemma SweepWithin(t: Table, now: int)
    requires TableInv(t)
    ensures Within(Sweep(t, now), t)
  {
    forall s: string, h: string, p: int | Registered(Sweep(t, now), s, h, p) ensures Registered(t, s, h, p) {
      NoDuplicatesIn(t, s);
      FilterLookup(Instances(t, s), e => !Expired(e, now), h, p);
      PerformVector(t, Event(DoSweep, now), s);
    }
  }

  lemma PerformWithin(a: Table, b: Table, op: Operation, now: int, later: int)
    requires TableInv(a) && TableInv(b) && Within(a, b) && !op.DoSweep?
    ensures Within(Perform(a, Event(op, now)), Perform(b, Event(op, later)))
  {
    hide Perform, Registered, TableInv;
    forall s: string, h: string, p: int | Registered(Perform(a, Event(op, now)), s, h, p)
      ensures Registered(Perform(b, Event(op, later)), s, h, p)
    {
      PerformRegistered(a, op, now, s, h, p);
      PerformRegistered(b, op, later, s, h, p);
    }
  }

  /** With sweeps at any points, a replica's instances are among those of the plain replay of
      the log it applied, whatever the clocks read. */
  lemma {:induction false} SweepsOnlyRemove(steps: seq<Step>, parse: string -> Option<ServiceOperation>, c: nat -> int)
    ensures TableInv(Replica(steps, parse)) && TableInv(Replay(LogOf(steps), parse, c))
    ensures Within(Replica(steps, parse), Replay(LogOf(steps), parse, c))
  {
    if steps != [] {
      var before, log := steps[..|steps| - 1], LogOf(steps[..|steps| - 1]);
      SweepsOnlyRemove(before, parse, c);
      var a, b := Replica(before, parse), Replay(log, parse, c);
      match steps[|steps| - 1]
      case ApplyEntry(entry, now) =>
        assert LogOf(steps)[..|log|] == log;
        var op := Requested(entry, parse);
        PerformKeepsInv(a, Event(op, now));
        PerformKeepsInv(b, Event(op, c(|log|)));
        PerformWithin(a, b, op, now, c(|log|));
      case Expire(now) =>
        assert LogOf(steps) == log;
        PerformKeepsInv(a, Event(DoSweep, now));
        SweepWithin(a, now);
    }
  }

  // ------------------------------------------------------- who is listed, by the log

  /** The entry is a service operation of this type on this instance. */
  predicate Says(entry: Entry, parse: string -> Option<ServiceOperation>, operationType: string,
                 s: string, h: string, p: int) {
    entry.operation == "service_operation" && parse(entry.data) == Some(ServiceOperation(operationType, s, h, p))
  }

  /** The last word of the log on the instance is a registration. */
  ghost predicate LastRegistered(log: seq<Entry>, parse: string -> Option<ServiceOperation>,
                                 s: string, h: string, p: int) {
    exists i :: 0 <= i < |log| && Says(log[i], parse, "register", s, h, p)
                && forall j :: i < j < |log| ==> !Says(log[j], parse, "unregister", s, h, p)
  }

  lemma LastRegisteredSnoc(log: seq<Entry>, e: Entry, parse: string -> Option<ServiceOperation>,
                           s: string, h: string, p: int)
    ensures LastRegistered(log + [e], parse, s, h, p) <==>
      || Says(e, parse, "register", s, h, p)
      || (!Says(e, parse, "unregister", s, h, p) && LastRegistered(log, parse, s, h, p))
  {
    hide Says;
    var l := log + [e];
    assert l[|log|] == e && forall i :: 0 <= i < |log| ==> l[i] == log[i];
    if Says(e, parse, "register", s, h, p) {
      assert Says(l[|log|], parse, "register", s, h, p);
    }
    if !Says(e, parse, "unregister", s, h, p) && LastRegistered(log, parse, s, h, p) {
      var i :| 0 <= i < |log| && Says(log[i], parse, "register", s, h, p)
               && forall j :: i < j < |log| ==> !Says(log[j], parse, "unregister", s, h, p);
      assert Says(l[i], parse, "register", s, h, p);
    }
    if LastRegistered(l, parse, s, h, p) && !Says(e, parse, "register", s, h, p) {
      var i :| 0 <= i < |l| && Says(l[i], parse, "register", s, h, p)
               && forall j :: i < j < |l| ==> !Says(l[j], parse, "unregister", s, h, p);
      assert i < |log| && !Says(l[|log|], parse, "unregister", s, h, p);
    }
  }

  /** A replica that applied the log lists an instance exactly when the last registration or
      unregistration of it in the log is a registration. */
  lemma {:induction false} ListedExactly(log: seq<Entry>, parse: string -> Option<ServiceOperation>, c: nat -> int,
                                         s: string, h: string, p: int)
    ensures TableInv(Replay(log, parse, c))
    ensures Registered(Replay(log, parse, c), s, h, p) <==> LastRegistered(log, parse, s, h, p)
  {
    hide Perform, TableInv, LastRegistered, Registered;
    if log == [] {
      NothingListed(parse, c, s, h, p);
    } else {
      var n := |log| - 1;
      var t, e := Replay(log[..n], parse, c), log[n];
      assert log == log[..n] + [e];
      ListedExactly(log[..n], parse, c, s, h, p);
      LastRegisteredSnoc(log[..n], e, parse, s, h, p);
      PerformKeepsInv(t, Event(Requested(e, parse), c(n)));
      ListedAfter(t, e, parse, c(n), s, h, p);
    }
  }

  lemma NothingListed(parse: string -> Option<ServiceOperation>, c: nat -> int, s: string, h: string, p: int)
    ensures TableInv(Replay([], parse, c)) && !Registered(Replay([], parse, c), s, h, p)
    ensures !LastRegistered([], parse, s, h, p)
  {
  }

  lemma ListedAfter(t: Table, e: Entry, parse: string -> Option<ServiceOperation>, now: int,
                    s: string, h: string, p: int)
    requires TableInv(t)
    ensures Registered(Perform(t, Event(Requested(e, parse), now)), s, h, p) <==>
      || Says(e, parse, "register", s, h, p)
      || (!Says(e, parse, "unregister", s, h, p) && Registered(t, s, h, p))
  {
    hide Lookup, TableInv;
    if e.operation == "service_operation" && parse(e.data).Some? {
      OperationTakesEffect(t, parse(e.data).value, e, parse, now);
    }
  }
}
