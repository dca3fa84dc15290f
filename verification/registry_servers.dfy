/** The two implementations of the service table: the replicated state machine and the
    stand-alone registry server. Both change their map in place; both are proved against the
    functions of RegistryTable. */
module RegistryServers {
  import opened Common
  import opened RaftSpec
  import opened RegistryTable
  import opened RegistrySnapshot

  datatype ServiceOperation = ServiceOperation(operationType: string, service: string, host: string, port: int)

  /** What a log entry asks for. `parse` stands for protobuf's ParseFromString. */
  function Requested(entry: Entry, parse: string -> Option<ServiceOperation>): Operation {
    if entry.operation != "service_operation" then Ignored
    else match parse(entry.data)
      case None => Ignored
      case Some(op) =>
        if op.operationType == "register" then DoRegister(op.service, op.host, op.port)
        else if op.operationType == "unregister" then DoUnregister(op.service, op.host, op.port)
        else if op.operationType == "heartbeat" then DoHeartbeat(op.service, op.host, op.port)
        else Ignored
  }

  /** The heartbeat of an instance after an operation on it. */
  function HeartbeatAfter(before: Option<int>, operationType: string, now: int): Option<int> {
    if operationType == "register" then Some(now)
    else if operationType == "unregister" then None
    else if operationType == "heartbeat" && before.Some? then Some(now)
    else before
  }

  /** An operation changes the instance it names, by its type, and no other. */
  ghost predicate TakesEffect(t: Table, t': Table, op: ServiceOperation, now: int) {
    forall s: string, h: string, p: int ::
      Lookup(Instances(t', s), h, p)
      == if (s, h, p) == (op.service, op.host, op.port)
         then HeartbeatAfter(Lookup(Instances(t, s), h, p), op.operationType, now)
         else Lookup(Instances(t, s), h, p)
  }

  lemma OperationTakesEffect(t: Table, op: ServiceOperation, entry: Entry, parse: string -> Option<ServiceOperation>,
                             now: int)
    requires TableInv(t) && entry.operation == "service_operation" && parse(entry.data) == Some(op)
    ensures TakesEffect(t, Perform(t, Event(Requested(entry, parse), now)), op, now)
  {
    hide Lookup, Perform, TableInv;
    var e := Event(Requested(entry, parse), now);
    forall s: string, h: string, p: int
      ensures Lookup(Instances(Perform(t, e), s), h, p)
           == if (s, h, p) == (op.service, op.host, op.port)
              then HeartbeatAfter(Lookup(Instances(t, s), h, p), op.operationType, now)
              else Lookup(Instances(t, s), h, p)
    {
      PerformVector(t, e, s);
      NoDuplicatesIn(t, s);
      var v := Instances(t, s);
      match e.op {
        case DoRegister(_, host, port) => UpsertLookup(v, host, port, now, h, p);
        case DoUnregister(_, host, port) =>
          FilterLookup(v, x => !Is(x, host, port), h, p);
          LookupFinds(v, h, p);
        case DoHeartbeat(_, host, port) => TouchLookup(v, host, port, now, h, p);
        case Ignored =>
      }
    }
  }

  lemma LookupFinds(v: seq<Instance>, h: string, p: int)
    ensures var i := Find(v, h, p);
      if i < |v| then Is(v[i], h, p) && Lookup(v, h, p) == Some(v[i].lastHeartbeat) else Lookup(v, h, p) == None
  {
  }

  /** The loop of std::remove_if with erase; keep is the negation of its predicate. */
  method Retain(v: seq<Instance>, keep: Instance -> bool) returns (kept: seq<Instance>)
    ensures kept == Filter(v, keep)
  {
    kept := [];
    for i := 0 to |v|
      invariant kept == Filter(v[..i], keep)
    {
      assert v[..i + 1][..i] == v[..i];
      if keep(v[i]) {
        kept := kept + [v[i]];
      }
    }
    assert v[..|v|] == v;
  }

  /** The inner loop of getSnapshot, over the instances of one service. */
  method SectionText(name: string, v: seq<Instance>) returns (oss: string)
    ensures oss == Section(name, v)
  {
    oss := SectionHead(name, |v|) + "\n";
    for i := 0 to |v|
      invariant oss == SectionHead(name, |v|) + "\n" + Lines(v[..i])
    {
      assert v[..i + 1][..i] == v[..i];
      Assoc(SectionHead(name, |v|) + "\n", Lines(v[..i]), LineText(v[i]) + "\n");
      oss := oss + (LineText(v[i]) + "\n");
    }
    assert v[..|v|] == v;
  }

  lemma SectionAppended(t: Table, order: seq<string>, before: string)
    requires order != [] && (forall s :: s in order ==> s in t)
    requires before == Show(|t|) + "\n" + Sections(t, order[..|order| - 1])
    ensures before + Section(order[|order| - 1], t[order[|order| - 1]]) == Show(|t|) + "\n" + Sections(t, order)
  {
    hide Show, Section;
    Assoc(Show(|t|) + "\n", Sections(t, order[..|order| - 1]), Section(order[|order| - 1], t[order[|order| - 1]]));
  }

  /** The inner loop of restoreFromSnapshot. */
  method ReadInstances(start: string, count: nat) returns (instances: seq<Instance>, iss: string)
    requires ParseLines(start, count).Some?
    ensures ParseLines(start, count) == Some((instances, iss))
  {
    hide ReadWord, ReadInt;
    instances, iss := [], start;
    for j := 0 to count
      invariant ParseLines(start, j) == Some((instances, iss))
    {
      LinesPrefix(start, j + 1, count);
      var (host, s1) := ReadWord(iss).value;
      var (port, s2) := ReadInt(s1).value;
      var (timestamp, s3) := ReadInt(s2).value;
      iss := s3;
      instances := instances + [Instance(host, port, timestamp * 1_000_000)];
    }
  }

  lemma {:induction false} LinesPrefix(s: string, i: nat, n: nat)
    requires i <= n && ParseLines(s, n).Some?
    ensures ParseLines(s, i).Some?
  {
    hide ParseLine;
    if i < n {
      LinesPrefix(s, i, n - 1);
    }
  }

  lemma {:induction false} SectionsPrefix(s: string, i: nat, n: nat)
    requires i <= n && ParseSections(s, n).Some?
    ensures ParseSections(s, i).Some?
  {
    hide ParseSection;
    if i < n {
      SectionsPrefix(s, i, n - 1);
    }
  }

  class RegistryStateMachine {
    var services: Table

    constructor ()
      ensures services == map[]
    {
      services := map[];
    }

    method ApplyLogEntry(entry: Entry, parse: string -> Option<ServiceOperation>, now: int)
      modifies this
      ensures services == Perform(old(services), Event(Requested(entry, parse), now))
      ensures entry.operation != "service_operation" || parse(entry.data) == None ==> services == old(services)
      ensures entry.operation == "service_operation" && parse(entry.data).Some? && TableInv(old(services)) ==>
        TableInv(services) && TakesEffect(old(services), services, parse(entry.data).value, now)
    {
      ghost var e := Event(Requested(entry, parse), now);
      if TableInv(services) {
        PerformKeepsInv(services, e);
        if entry.operation == "service_operation" && parse(entry.data).Some? {
          OperationTakesEffect(services, parse(entry.data).value, entry, parse, now);
        }
      }
      if entry.operation == "service_operation" {
        var operation := parse(entry.data);
        if operation.Some? {
          ApplyServiceOperation(operation.value, now);
        }
      }
    }

    method ApplyServiceOperation(op: ServiceOperation, now: int)
      modifies this
      ensures services == (
        if op.operationType == "register" then Register(old(services), op.service, op.host, op.port, now)
        else if op.operationType == "unregister" then Unregister(old(services), op.service, op.host, op.port)
        else if op.operationType == "heartbeat" then Heartbeat(old(services), op.service, op.host, op.port, now)
        else old(services))
    {
      if op.operationType == "register" {
        RegisterService(op.service, op.host, op.port, now);
      } else if op.operationType == "unregister" {
        UnregisterService(op.service, op.host, op.port);
      } else if op.operationType == "heartbeat" {
        UpdateHeartbeat(op.service, op.host, op.port, now);
      }
    }

    method RegisterService(service: string, host: string, port: int, now: int)
      modifies this
      ensures services == Register(old(services), service, host, port, now)
    {
      if service !in services {
        services := services[service := []];
      }
      var v := services[service];
      for i := 0 to |v|
        invariant forall j :: 0 <= j < i ==> !Is(v[j], host, port)
      {
        if v[i].host == host && v[i].port == port {
          FindUnique(v, host, port, i);
          services := services[service := v[i := v[i].(lastHeartbeat := now)]];
          return;
        }
      }
      FindNone(v, host, port);
      services := services[service := v + [Instance(host, port, now)]];
    }

    method UnregisterService(service: string, host: string, port: int)
      modifies this
      ensures services == Unregister(old(services), service, host, port)
    {
      if service in services {
        var keep := (e: Instance) => !(e.host == host && e.port == port);
        var kept := Retain(services[service], keep);
        SameFilter(services[service], keep, e => !Is(e, host, port));
        services := services[service := kept];
        if services[service] == [] {
          services := services - {service};
          assert services == old(services) - {service};
        }
      }
    }

    method UpdateHeartbeat(service: string, host: string, port: int, now: int)
      modifies this
      ensures services == Heartbeat(old(services), service, host, port, now)
    {
      if service in services {
        var v := services[service];
        for i := 0 to |v|
          invariant forall j :: 0 <= j < i ==> !Is(v[j], host, port)
        {
          if v[i].host == host && v[i].port == port {
            FindUnique(v, host, port, i);
            services := services[service := v[i := v[i].(lastHeartbeat := now)]];
            return;
          }
        }
        FindNone(v, host, port);
        assert services[service := v] == services;
      }
    }

    /** One pass that erases names while it iterates, in whatever order the map yields them. */
    method RemoveExpiredServices(now: int)
      modifies this
      ensures services == Sweep(old(services), now)
    {
      var ahead := services.Keys;
      while ahead != {}
        invariant ahead <= services.Keys <= old(services).Keys
        invariant forall s :: s in ahead ==> services[s] == old(services)[s]
        invariant forall s :: s in old(services) && s !in ahead ==>
          (s in services <==> Fresh(old(services)[s], now) != [])
          && (s in services ==> services[s] == Fresh(old(services)[s], now))
      {
        var s :| s in ahead;
        ahead := ahead - {s};
        var keep := (e: Instance) => !(now - e.lastHeartbeat > TIMEOUT);
        var kept := Retain(services[s], keep);
        SameFilter(services[s], keep, e => !Expired(e, now));
        services := services[s := kept];
        if services[s] == [] {
          services := services - {s};
        }
      }
    }

    /** The map may yield its names in any order. */
    method GetSnapshot() returns (text: string)
      ensures exists order :: IsOrder(services, order) && text == Snapshot(services, order)
    {
      text := Show(|services|) + "\n";
      ghost var order: seq<string> := [];
      var ahead := services.Keys;
      while ahead != {}
        invariant ahead <= services.Keys && |order| + |ahead| == |services|
        invariant Distinct(order) && forall s :: s in order <==> s in services && s !in ahead
        invariant text == Show(|services|) + "\n" + Sections(services, order)
      {
        var s :| s in ahead;
        ahead := ahead - {s};
        order := order + [s];
        ghost var before := text;
        var section := SectionText(s, services[s]);
        text := text + section;
        SectionAppended(services, order, before);
      }
      assert IsOrder(services, order) && text == Snapshot(services, order);
    }

    /** Extraction that fails leaves variables of the source uninitialised, so callers must pass
        a text that can be read. */
    method RestoreFromSnapshot(text: string)
      requires Restore(text).Some?
      modifies this
      ensures Restore(text) == Some(services)
    {
      hide ReadWord, ReadInt, ParseLines;
      services := map[];
      var (serviceCount, iss) := ReadInt(text).value;
      ghost var start := iss;
      for i := 0 to serviceCount
        invariant ParseSections(start, i) == Some((services, iss))
      {
        SectionsPrefix(start, i + 1, serviceCount);
        var (name, s1) := ReadWord(iss).value;
        var (instanceCount, s2) := ReadInt(s1).value;
        var instances, s3 := ReadInstances(s2, instanceCount);
        iss := s3;
        services := services[name := instances];
      }
    }
  }

  class RegistryServer {
    var services: Table

    constructor ()
      ensures services == map[]
    {
      services := map[];
    }

    method HandleServiceRegister(service: string, host: string, port: int, now: int)
      modifies this
      ensures services == Register(old(services), service, host, port, now)
    {
      var instance := Instance(host, port, now);
      if service !in services {
        services := services[service := []];
      }
      var v, found, i := services[service], false, 0;
      while i < |v|
        invariant 0 <= i <= |v| && !found
        invariant forall j :: 0 <= j < i ==> !Is(v[j], host, port)
      {
        if v[i].host == instance.host && v[i].port == instance.port {
          FindUnique(v, host, port, i);
          v, found := v[i := v[i].(lastHeartbeat := instance.lastHeartbeat)], true;
          break;
        }
        i := i + 1;
      }
      if !found {
        FindNone(v, host, port);
        v := v + [instance];
      }
      services := services[service := v];
    }

    method HandleHeartbeat(service: string, host: string, port: int, now: int) returns (success: bool)
      modifies this
      ensures services == Heartbeat(old(services), service, host, port, now)
      ensures success <==> Lookup(Instances(old(services), service), host, port).Some?
    {
      if service in services {
        var v := services[service];
        for i := 0 to |v|
          invariant forall j :: 0 <= j < i ==> !Is(v[j], host, port)
        {
          if v[i].host == host && v[i].port == port {
            FindUnique(v, host, port, i);
            services := services[service := v[i := v[i].(lastHeartbeat := now)]];
            return true;
          }
        }
        FindNone(v, host, port);
        assert services[service := v] == services;
      }
      success := false;
    }

    /** Two passes: the first drops expired instances everywhere, the second drops the names
        that are left without instances. */
    method CheckHeartbeat(now: int)
      modifies this
      ensures services == Sweep(old(services), now)
    {
      var ahead := services.Keys;
      while ahead != {}
        invariant ahead <= services.Keys == old(services).Keys
        invariant forall s :: s in services ==>
          services[s] == if s in ahead then old(services)[s] else Fresh(old(services)[s], now)
      {
        var s :| s in ahead;
        ahead := ahead - {s};
        var keep := (e: Instance) => !(now - e.lastHeartbeat > TIMEOUT);
        var kept := Retain(services[s], keep);
        SameFilter(services[s], keep, e => !Expired(e, now));
        services := services[s := kept];
      }
      ahead := services.Keys;
      while ahead != {}
        invariant ahead <= services.Keys <= old(services).Keys
        invariant forall s :: s in services ==> services[s] == Fresh(old(services)[s], now)
        invariant forall s :: s in old(services) && s !in ahead ==>
          (s in services <==> Fresh(old(services)[s], now) != [])
      {
        var s :| s in ahead;
        ahead := ahead - {s};
        if services[s] == [] {
          services := services - {s};
        }
      }
    }
  }

  /** The two registries agree: fed the same registrations, heartbeats and sweeps with the same
      clock readings, both hold the table that the events amount to, after every event. */
  method Lockstep(events: seq<Event>) returns (a: RegistryStateMachine, b: RegistryServer)
    requires forall e :: e in events ==> !e.op.DoUnregister?
    ensures fresh(a) && fresh(b) && a.services == b.services == PerformAll(events)
  {
    a := new RegistryStateMachine();
    b := new RegistryServer();
    for i := 0 to |events|
      invariant fresh(a) && fresh(b) && a.services == b.services == PerformAll(events[..i])
    {
      assert events[..i + 1][..i] == events[..i];
      var e := events[i];
      match e.op {
        case DoRegister(s, h, p) =>
          a.RegisterService(s, h, p, e.now);
          b.HandleServiceRegister(s, h, p, e.now);
        case DoHeartbeat(s, h, p) =>
          a.UpdateHeartbeat(s, h, p, e.now);
          var _ := b.HandleHeartbeat(s, h, p, e.now);
        case DoSweep =>
          a.RemoveExpiredServices(e.now);
          b.CheckHeartbeat(e.now);
        case Ignored =>
      }
    }
    assert events[..|events|] == events;
  }

  lemma {:induction false} SameFilter(v: seq<Instance>, f: Instance -> bool, g: Instance -> bool)
    requires forall e :: f(e) == g(e)
    ensures Filter(v, f) == Filter(v, g)
  {
    if v != [] {
      SameFilter(v[..|v| - 1], f, g);
    }
  }
}
