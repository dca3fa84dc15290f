/** The table of service instances and what each operation does to it
    (registry/raft_state_machine.cpp, registry/registry_server.cpp). Clock readings are
    arguments, in nanoseconds. */
module RegistryTable {
  import opened Common

  datatype Instance = Instance(host: string, port: int, lastHeartbeat: int)

  type Table = map<string, seq<Instance>>

  const TIMEOUT := 30_000_000_000  // 30 seconds

  predicate Is(e: Instance, host: string, port: int) {
    e.host == host && e.port == port
  }

  predicate Expired(e: Instance, now: int) {
    now - e.lastHeartbeat > TIMEOUT
  }

  function Find(v: seq<Instance>, host: string, port: int): (i: nat)
    ensures i <= |v| && (i < |v| ==> Is(v[i], host, port))
    ensures forall j :: 0 <= j < i ==> !Is(v[j], host, port)
  {
    if v == [] || Is(v[0], host, port) then 0 else 1 + Find(v[1..], host, port)
  }

  function Touch(v: seq<Instance>, host: string, port: int, now: int): seq<Instance> {
    var i := Find(v, host, port);
    if i < |v| then v[i := v[i].(lastHeartbeat := now)] else v
  }

  function Upsert(v: seq<Instance>, host: string, port: int, now: int): seq<Instance> {
    if Find(v, host, port) < |v| then Touch(v, host, port, now) else v + [Instance(host, port, now)]
  }

  /** The elements that satisfy keep, in order (std::remove_if with erase). */
  function Filter<T>(v: seq<T>, keep: T -> bool): seq<T> {
    if v == [] then []
    else Filter(v[..|v| - 1], keep) + (if keep(v[|v| - 1]) then [v[|v| - 1]] else [])
  }

  function Instances(t: Table, service: string): seq<Instance> {
    if service in t then t[service] else []
  }

  /** Store a vector under a name, or drop the name when nothing is left. */
  function Put(t: Table, service: string, v: seq<Instance>): Table {
    if v == [] then t - {service} else t[service := v]
  }

  function Register(t: Table, service: string, host: string, port: int, now: int): Table {
    t[service := Upsert(Instances(t, service), host, port, now)]
  }

  function Unregister(t: Table, service: string, host: string, port: int): Table {
    if service in t then Put(t, service, Filter(t[service], e => !Is(e, host, port))) else t
  }

  function Heartbeat(t: Table, service: string, host: string, port: int, now: int): Table {
    if service in t then t[service := Touch(t[service], host, port, now)] else t
  }

  function Fresh(v: seq<Instance>, now: int): seq<Instance> {
    Filter(v, e => !Expired(e, now))
  }

  function Sweep(t: Table, now: int): Table {
    map s | s in t && Fresh(t[s], now) != [] :: Fresh(t[s], now)
  }

  datatype Operation =
    | DoRegister(service: string, host: string, port: int)
    | DoUnregister(service: string, host: string, port: int)
    | DoHeartbeat(service: string, host: string, port: int)
    | DoSweep
    | Ignored  // a log entry that is no service operation

  datatype Event = Event(op: Operation, now: int)

  function Perform(t: Table, e: Event): Table {
    match e.op
    case DoRegister(s, h, p) => Register(t, s, h, p, e.now)
    case DoUnregister(s, h, p) => Unregister(t, s, h, p)
    case DoHeartbeat(s, h, p) => Heartbeat(t, s, h, p, e.now)
    case DoSweep => Sweep(t, e.now)
    case Ignored => t
  }

  function PerformAll(events: seq<Event>): Table {
    if events == [] then map[] else Perform(PerformAll(events[..|events| - 1]), events[|events| - 1])
  }

  // ------------------------------------------------------ the table as a map

  type Key = (string, string, int)

  /** The intended content: one heartbeat per service, host and port. */
  function Intended(m: map<Key, int>, e: Event): map<Key, int> {
    match e.op
    case DoRegister(s, h, p) => m[(s, h, p) := e.now]
    case DoUnregister(s, h, p) => m - {(s, h, p)}
    case DoHeartbeat(s, h, p) => if (s, h, p) in m then m[(s, h, p) := e.now] else m
    case DoSweep => map k | k in m && e.now - m[k] <= 30_000_000_000 :: m[k]
    case Ignored => m
  }

  function IntendedAll(events: seq<Event>): map<Key, int> {
    if events == [] then map[] else Intended(IntendedAll(events[..|events| - 1]), events[|events| - 1])
  }

  ghost predicate NoDuplicates(v: seq<Instance>) {
    forall i, j :: 0 <= i < j < |v| ==> !Is(v[j], v[i].host, v[i].port)
  }

  ghost predicate TableInv(t: Table) {
    forall s :: s in t ==> t[s] != [] && NoDuplicates(t[s])
  }

  function Lookup(v: seq<Instance>, host: string, port: int): Option<int> {
    var i := Find(v, host, port);
    if i < |v| then Some(v[i].lastHeartbeat) else None
  }

  function Get(m: map<Key, int>, k: Key): Option<int> {
    if k in m then Some(m[k]) else None
  }

  ghost predicate Implements(t: Table, m: map<Key, int>) {
    && TableInv(t)
    && forall s: string, h: string, p: int :: Lookup(Instances(t, s), h, p) == Get(m, (s, h, p))
  }

  // ------------------------------------------------------- facts on vectors

  lemma FindUnique(v: seq<Instance>, host: string, port: int, i: nat)
    requires i < |v| && Is(v[i], host, port) && forall j :: 0 <= j < i ==> !Is(v[j], host, port)
    ensures Find(v, host, port) == i
  {
  }

  lemma FindNone(v: seq<Instance>, host: string, port: int)
    requires forall j :: 0 <= j < |v| ==> !Is(v[j], host, port)
    ensures Find(v, host, port) == |v|
  {
  }

  lemma FindSnoc(v: seq<Instance>, e: Instance, host: string, port: int)
    ensures Find(v + [e], host, port)
         == if Find(v, host, port) < |v| then Find(v, host, port) else if Is(e, host, port) then |v| else |v| + 1
  {
    var i := Find(v, host, port);
    if i < |v| {
      FindUnique(v + [e], host, port, i);
    } else if Is(e, host, port) {
      FindUnique(v + [e], host, port, |v|);
    } else {
      FindNone(v + [e], host, port);
    }
  }

  lemma {:induction false} FilterMembers(v: seq<Instance>, keep: Instance -> bool)
    ensures forall e :: e in Filter(v, keep) <==> e in v && keep(e)
  {
    if v != [] {
      FilterMembers(v[..|v| - 1], keep);
      assert v == v[..|v| - 1] + [v[|v| - 1]];
    }
  }

  lemma {:induction false} FilterNoDuplicates(v: seq<Instance>, keep: Instance -> bool)
    requires NoDuplicates(v)
    ensures NoDuplicates(Filter(v, keep))
  {
    if v != [] {
      var rest, last := v[..|v| - 1], v[|v| - 1];
      FilterNoDuplicates(rest, keep);
      FilterMembers(rest, keep);
      var f := Filter(rest, keep);
      forall i | 0 <= i < |f| ensures !Is(last, f[i].host, f[i].port) {
        assert f[i] in f && f[i] in rest;
      }
    }
  }

  /** A filtered vector answers for what is kept, as before, and for nothing else. */
  lemma {:induction false} FilterLookup(v: seq<Instance>, keep: Instance -> bool, host: string, port: int)
    requires NoDuplicates(v)
    ensures var i := Find(v, host, port);
      Lookup(Filter(v, keep), host, port) == if i < |v| && keep(v[i]) then Some(v[i].lastHeartbeat) else None
  {
    if v != [] {
      var rest, last := v[..|v| - 1], v[|v| - 1];
      assert v == rest + [last];
      FilterLookup(rest, keep, host, port);
      FindSnoc(rest, last, host, port);
      FindSnoc(Filter(rest, keep), last, host, port);
      var i := Find(rest, host, port);
      assert i < |rest| ==> !Is(last, v[i].host, v[i].port);
      assert Filter(rest, keep) + [] == Filter(rest, keep);
    }
  }

  lemma FindTouched(v: seq<Instance>, host: string, port: int, now: int, h: string, p: int)
    ensures Find(Touch(v, host, port, now), h, p) == Find(v, h, p)
  {
    var v', j := Touch(v, host, port, now), Find(v, h, p);
    if j < |v| {
      FindUnique(v', h, p, j);
    } else {
      FindNone(v', h, p);
    }
  }

  lemma TouchLookup(v: seq<Instance>, host: string, port: int, now: int, h: string, p: int)
    ensures Lookup(Touch(v, host, port, now), h, p)
         == if h == host && p == port && Lookup(v, h, p).Some? then Some(now) else Lookup(v, h, p)
  {
    FindTouched(v, host, port, now, h, p);
  }

  lemma UpsertLookup(v: seq<Instance>, host: string, port: int, now: int, h: string, p: int)
    ensures Lookup(Upsert(v, host, port, now), h, p) == if h == host && p == port then Some(now) else Lookup(v, h, p)
  {
    TouchLookup(v, host, port, now, h, p);
    FindSnoc(v, Instance(host, port, now), h, p);
  }

  /** Registration keeps the order: a known instance stays where it is with a new heartbeat, a new
      one goes last, and no other instance is touched. */
  lemma UpsertKeepsOrder(v: seq<Instance>, host: string, port: int, now: int)
    ensures var v', known := Upsert(v, host, port, now), exists j :: 0 <= j < |v| && Is(v[j], host, port);
      && |v'| == |v| + (if known then 0 else 1)
      && (forall j :: 0 <= j < |v| ==> v'[j].host == v[j].host && v'[j].port == v[j].port)
      && (forall j :: 0 <= j < |v| && !Is(v[j], host, port) ==> v'[j] == v[j])
      && (!known ==> v' == v + [Instance(host, port, now)])
  {
  }

  lemma UpsertNoDuplicates(v: seq<Instance>, host: string, port: int, now: int)
    requires NoDuplicates(v)
    ensures NoDuplicates(Upsert(v, host, port, now)) && NoDuplicates(Touch(v, host, port, now))
  {
    assert Find(v, host, port) == |v| ==> forall j :: 0 <= j < |v| ==> !Is(v[j], host, port);
  }

  // ------------------------------------------------------------- refinement

  /** What an operation does to the vector of one service. */
  function PerformOn(v: seq<Instance>, service: string, e: Event): seq<Instance> {
    match e.op
    case DoRegister(s, h, p) => if s == service then Upsert(v, h, p, e.now) else v
    case DoUnregister(s, h, p) => if s == service then Filter(v, x => !Is(x, h, p)) else v
    case DoHeartbeat(s, h, p) => if s == service then Touch(v, h, p, e.now) else v
    case DoSweep => Fresh(v, e.now)
    case Ignored => v
  }

  lemma PerformVector(t: Table, e: Event, s: string)
    ensures Instances(Perform(t, e), s) == PerformOn(Instances(t, s), s, e)
  {
  }

  lemma VectorImplements(v: seq<Instance>, m: map<Key, int>, e: Event, s: string, h: string, p: int)
    requires NoDuplicates(v) && Lookup(v, h, p) == Get(m, (s, h, p))
    ensures Lookup(PerformOn(v, s, e), h, p) == Get(Intended(m, e), (s, h, p))
  {
    match e.op
    case DoRegister(_, host, port) => UpsertLookup(v, host, port, e.now, h, p);
    case DoUnregister(_, host, port) => FilterLookup(v, x => !Is(x, host, port), h, p);
    case DoHeartbeat(_, host, port) => TouchLookup(v, host, port, e.now, h, p);
    case DoSweep => FilterLookup(v, x => !Expired(x, e.now), h, p);
    case Ignored =>
  }

  /** Each operation keeps the table free of duplicates and of empty services, and does to the
      intended map what it should. A sweep keeps exactly the instances of age at most 30 s. */
  lemma PerformImplements(t: Table, m: map<Key, int>, e: Event)
    requires Implements(t, m)
    ensures Implements(Perform(t, e), Intended(m, e))
  {
    hide Perform, Intended, PerformOn, Lookup, NoDuplicates;
    PerformKeepsInv(t, e);
    forall s: string, h: string, p: int
      ensures Lookup(Instances(Perform(t, e), s), h, p) == Get(Intended(m, e), (s, h, p))
    {
      PerformVector(t, e, s);
      NoDuplicatesIn(t, s);
      VectorImplements(Instances(t, s), m, e, s, h, p);
    }
  }

  lemma NoDuplicatesIn(t: Table, s: string)
    requires TableInv(t)
    ensures NoDuplicates(Instances(t, s))
  {
  }

  lemma PerformKeepsInv(t: Table, e: Event)
    requires TableInv(t)
    ensures TableInv(Perform(t, e))
  {
    match e.op
    case DoRegister(s, h, p) => UpsertNoDuplicates(Instances(t, s), h, p, e.now);
    case DoUnregister(s, h, p) => if s in t { FilterNoDuplicates(t[s], x => !Is(x, h, p)); }
    case DoHeartbeat(s, h, p) => if s in t { UpsertNoDuplicates(t[s], h, p, e.now); }
    case DoSweep =>
      forall s | s in t ensures NoDuplicates(Fresh(t[s], e.now)) {
        FilterNoDuplicates(t[s], x => !Expired(x, e.now));
      }
    case Ignored =>
  }

  /** On every run from empty the vectors implement a map from (service, host, port) to the
      heartbeat time, with no duplicate instance and no empty service. */
  lemma {:induction false} TableRefines(events: seq<Event>)
    ensures Implements(PerformAll(events), IntendedAll(events))
  {
    if events != [] {
      TableRefines(events[..|events| - 1]);
      PerformImplements(PerformAll(events[..|events| - 1]), IntendedAll(events[..|events| - 1]), events[|events| - 1]);
    }
  }

  /** A sweep keeps, in their order, exactly the instances that are not older than 30 seconds. */
  lemma {:induction false} SweepKeepsOrder(v: seq<Instance>, now: int, e1: Instance, e2: Instance, i: nat, j: nat)
    requires i < j < |v| && v[i] == e1 && v[j] == e2 && !Expired(e1, now) && !Expired(e2, now)
    ensures exists i', j' :: 0 <= i' < j' < |Fresh(v, now)| && Fresh(v, now)[i'] == e1 && Fresh(v, now)[j'] == e2
  {
    var rest, last := v[..|v| - 1], v[|v| - 1];
    var keep := (e: Instance) => !Expired(e, now);
    assert Fresh(v, now) == Fresh(rest, now) + (if keep(last) then [last] else []);
    if j < |v| - 1 {
      SweepKeepsOrder(rest, now, e1, e2, i, j);
      var i', j' :| 0 <= i' < j' < |Fresh(rest, now)| && Fresh(rest, now)[i'] == e1 && Fresh(rest, now)[j'] == e2;
      assert Fresh(v, now)[i'] == e1 && Fresh(v, now)[j'] == e2;
    } else {
      FilterMembers(rest, keep);
      assert rest[i] == e1;
      assert e1 in Fresh(rest, now);
      var i' :| 0 <= i' < |Fresh(rest, now)| && Fresh(rest, now)[i'] == e1;
      assert Fresh(v, now)[i'] == e1 && Fresh(v, now)[|Fresh(rest, now)|] == e2;
    }
  }
}
