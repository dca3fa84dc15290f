/** HostPool and its shared connection records, changed in place (common/connection_pool.h,
    common/connection_pool.cpp). Each method is one section under the pool's mutex and is proved
    against the function of the same section in ConnectionPool. */
module HostPoolObject {
  import opened Common
  import opened ConnectionPool

  /** Shared between the vector of all connections and the queue of idle ones. */
  class PooledConnection {
    const connection: Conn
    var inUse: bool
    var lastUsed: int

    constructor (connection: Conn, now: int)
      ensures this.connection == connection && !inUse && lastUsed == now
    {
      this.connection, this.inUse, this.lastUsed := connection, false, now;
    }
  }

  ghost function Slots(s: seq<PooledConnection>): (r: seq<Slot>)
    reads s
    ensures |r| == |s| && forall i :: 0 <= i < |s| ==> r[i] == Slot(s[i].connection, s[i].inUse, s[i].lastUsed)
  {
    if s == [] then [] else Slots(s[..|s| - 1]) + [Slot(s[|s| - 1].connection, s[|s| - 1].inUse, s[|s| - 1].lastUsed)]
  }

  ghost function Conns(s: seq<PooledConnection>): (r: seq<Conn>)
    ensures |r| == |s| && forall i :: 0 <= i < |s| ==> r[i] == s[i].connection
  {
    if s == [] then [] else Conns(s[..|s| - 1]) + [s[|s| - 1].connection]
  }

  lemma SlotsErased(s: seq<PooledConnection>, i: nat)
    requires i < |s|
    ensures Slots(s[..i] + s[i + 1..]) == Slots(s)[..i] + Slots(s)[i + 1..]
    ensures forall c :: c in s[..i] + s[i + 1..] ==> c in s
  {
    hide Slots;
    var t := s[..i] + s[i + 1..];
    assert forall k :: 0 <= k < |t| ==> Slots(t)[k] == (Slots(s)[..i] + Slots(s)[i + 1..])[k];
  }

  lemma SlotsPushed(s: seq<PooledConnection>, c: PooledConnection)
    ensures Slots(s + [c]) == Slots(s) + [Slot(c.connection, c.inUse, c.lastUsed)]
    ensures Conns(s + [c]) == Conns(s) + [c.connection]
  {
  }

  lemma ConnsPopped(s: seq<PooledConnection>)
    requires s != []
    ensures Conns(s[1..]) == Conns(s)[1..] && Conns(s)[0] == s[0].connection
  {
  }

  lemma TakeIdleStep(p: Pool, valid: set<Conn>, now: int)
    ensures ConnectionPool.TakeIdle(p, valid, now)
      == if p.idle == [] then (p, None)
         else if p.idle[0] in valid then
           (Pool(Mark(p.all, p.idle[0], true, now), p.idle[1..], p.active + 1), Some(p.idle[0]))
         else ConnectionPool.TakeIdle(Pool(Without(p.all, p.idle[0]), p.idle[1..], p.active), valid, now)
  {
  }

  lemma OthersStay(s: seq<PooledConnection>, i: nat)
    requires i < |s|
    ensures forall c :: c in s && c != s[i] ==> c in s[..i] + s[i + 1..]
  {
  }

  /** In a pool without twins, what is done to a connection by name is done at its position. */
  lemma ByPosition(all: seq<Slot>, i: nat, inUse: bool, now: int)
    requires NoTwins(all) && i < |all|
    ensures Mark(all, all[i].conn, inUse, now) == all[i := Slot(all[i].conn, inUse, now)]
    ensures Without(all, all[i].conn) == all[..i] + all[i + 1..]
  {
  }

  /** std::remove_if with erase over the vector. */
  method RemoveIf(cfg: Settings, all: seq<PooledConnection>, clock: nat -> int) returns (kept: seq<PooledConnection>)
    ensures Slots(kept) == Kept(cfg, |all|, clock, Slots(all)) && forall c :: c in kept ==> c in all
  {
    hide Slots, Conns;
    var total := |all|;
    kept := [];
    for i := 0 to total
      invariant Slots(kept) == Kept(cfg, total, clock, Slots(all)[..i]) && forall c :: c in kept ==> c in all
    {
      var c := all[i];
      assert Slots(all)[..i + 1][..i] == Slots(all)[..i];
      SlotsPushed(kept, c);
      if c.inUse || !(clock(i) - c.lastUsed > cfg.idleTimeout || total > cfg.min) {
        kept := kept + [c];
      }
    }
    assert Slots(all)[..total] == Slots(all);
  }

  /** The idle queue built anew from what is left. */
  method NewQueue(kept: seq<PooledConnection>) returns (queue: seq<PooledConnection>)
    ensures Conns(queue) == FreeOf(Slots(kept)) && forall c :: c in queue ==> c in kept
  {
    hide Slots, Conns;
    queue := [];
    for i := 0 to |kept|
      invariant Conns(queue) == FreeOf(Slots(kept)[..i]) && forall c :: c in queue ==> c in kept
    {
      assert Slots(kept)[..i + 1][..i] == Slots(kept)[..i];
      SlotsPushed(queue, kept[i]);
      if !kept[i].inUse {
        queue := queue + [kept[i]];
      }
    }
    assert Slots(kept)[..|kept|] == Slots(kept);
  }

  datatype Stats = Stats(hosts: nat, total: nat, active: int, idle: nat)

  class HostPool {
    var idleConnections: seq<PooledConnection>
    var allConnections: seq<PooledConnection>
    var activeCount: int

    ghost function View(): Pool
      reads this, allConnections
    {
      Pool(Slots(allConnections), Conns(idleConnections), activeCount)
    }

    ghost predicate Valid()
      reads this, allConnections
    {
      Consistent(View()) && forall c :: c in idleConnections ==> c in allConnections
    }

    constructor ()
      ensures Valid() && View() == EMPTY
    {
      idleConnections, allConnections, activeCount := [], [], 0;
      new;
      NoNames();
    }

    /** Found by address, then erased from the vector. */
    method RemoveConnection(pooled: PooledConnection)
      requires NoTwins(Slots(allConnections))
      modifies this`allConnections
      ensures pooled !in old(allConnections) ==> allConnections == old(allConnections)
      ensures pooled in old(allConnections) ==>
        Slots(allConnections) == Without(old(Slots(allConnections)), pooled.connection)
      ensures forall c :: c in allConnections ==> c in old(allConnections)
      ensures forall c :: c in old(allConnections) && c != pooled ==> c in allConnections
    {
      var i := 0;
      while i < |allConnections| && allConnections[i] != pooled
        invariant 0 <= i <= |allConnections| && pooled !in allConnections[..i]
      {
        i := i + 1;
      }
      if i == |allConnections| {
        assert allConnections[..i] == allConnections;
        return;
      }
      ByPosition(Slots(allConnections), i, false, 0);
      SlotsErased(allConnections, i);
      OthersStay(allConnections, i);
      allConnections := allConnections[..i] + allConnections[i + 1..];
    }

    /** A pooled connection changes hands. */
    method SetUse(pooled: PooledConnection, inUse: bool, now: int)
      requires NoTwins(Slots(allConnections)) && pooled in allConnections
      modifies pooled
      ensures pooled.inUse == inUse
      ensures Slots(allConnections) == Mark(old(Slots(allConnections)), pooled.connection, inUse, now)
    {
      ghost var i :| 0 <= i < |allConnections| && allConnections[i] == pooled;
      ghost var before := Slots(allConnections);
      ByPosition(before, i, inUse, now);
      pooled.inUse := inUse;
      pooled.lastUsed := now;
      forall k | 0 <= k < |before| && k != i ensures allConnections[k] != pooled {
        assert before[k].conn != before[i].conn;
      }
      assert Slots(allConnections) == before[i := Slot(before[i].conn, inUse, now)];
    }

    /** The inner loop of acquire. */
    method TakeIdle(valid: set<Conn>, now: int) returns (found: PooledConnection?)
      requires Valid()
      modifies this, allConnections
      ensures Valid()
      ensures (View(), if found == null then None else Some(found.connection))
           == ConnectionPool.TakeIdle(old(View()), valid, now)
    {
      hide Consistent, Mark, Without, Slots, Conns, ConnectionPool.TakeIdle, Names, InUse, Free, NoTwins, Distinct;
      found := null;
      while idleConnections != []
        invariant Valid() && forall c :: c in allConnections ==> c in old(allConnections)
        invariant ConnectionPool.TakeIdle(View(), valid, now) == ConnectionPool.TakeIdle(old(View()), valid, now)
        decreases |idleConnections|
      {
        FirstIdle(View(), now);
        ConsistentParts(View());
        TakeIdleStep(View(), valid, now);
        ConnsPopped(idleConnections);
        NotQueuedTwice(idleConnections);
        var pooled := idleConnections[0];
        assert pooled in idleConnections && pooled in old(allConnections);
        idleConnections := idleConnections[1..];
        if pooled.connection in valid {
          SetUse(pooled, true, now);
          activeCount := activeCount + 1;
          return pooled;
        }
        RemoveConnection(pooled);
      }
      TakeIdleStep(View(), valid, now);
    }

    /** The first half of acquire: an idle connection, or leave to make a new one. */
    method BeginAcquire(cfg: Settings, valid: set<Conn>, now: int) returns (found: PooledConnection?, connect: bool)
      requires Valid()
      modifies this, allConnections
      ensures Valid()
      ensures (View(), if found == null then None else Some(found.connection))
           == ConnectionPool.TakeIdle(old(View()), valid, now)
      ensures connect <==> found == null && |View().all| < cfg.max
    {
      found := TakeIdle(valid, now);
      connect := found == null && |allConnections| < cfg.max;
    }

    /** The second half, with the connection just made. */
    method FinishAcquire(conn: Conn, now: int) returns (pooled: PooledConnection)
      requires Valid() && conn !in Names(View().all)
      modifies this
      ensures Valid() && fresh(pooled) && pooled.connection == conn
      ensures View() == Insert(old(View()), conn, now)
    {
      hide Consistent, Slots, Conns, Names, InUse;
      InsertKeeps(View(), conn, now);
      pooled := new PooledConnection(conn, now);
      pooled.inUse := true;
      SlotsPushed(allConnections, pooled);
      allConnections := allConnections + [pooled];
      activeCount := activeCount + 1;
    }

    method Release(conn: Conn, valid: bool, now: int)
      requires Valid()
      modifies this, allConnections
      ensures Valid() && View() == Return(old(View()), conn, valid, now)
    {
      hide Consistent, Mark, Without, Slots, Conns, Names, InUse, Free, NoTwins, IndexOf;
      ReturnKeeps(View(), conn, valid, now);
      ConsistentParts(View());
      var i := 0;
      while i < |allConnections| && allConnections[i].connection != conn
        invariant 0 <= i <= |allConnections|
        invariant forall j :: 0 <= j < i ==> allConnections[j].connection != conn
      {
        i := i + 1;
      }
      assert IndexOf(View().all, conn) == i;
      if i < |allConnections| && allConnections[i].inUse {
        var pooled := allConnections[i];
        InUseNotQueued(View(), i);
        NotQueued(idleConnections, pooled);
        SetUse(pooled, false, now);
        activeCount := activeCount - 1;
        if valid {
          SlotsPushed(idleConnections, pooled);
          idleConnections := idleConnections + [pooled];
        } else {
          RemoveConnection(pooled);
        }
      }
    }

    /** One pool's share of a cleanup cycle: remove_if over the vector, then a new queue. */
    method Sweep(cfg: Settings, clock: nat -> int)
      requires Valid()
      modifies this
      ensures Valid() && View() == ConnectionPool.Sweep(cfg, old(View()), clock)
    {
      hide Consistent, Slots, Conns, Kept, FreeOf;
      assert Consistent(ConnectionPool.Sweep(cfg, View(), clock)) by {
        SweepKeeps(cfg, View(), clock);
      }
      var kept := RemoveIf(cfg, allConnections, clock);
      var queue := NewQueue(kept);
      allConnections := kept;
      idleConnections := queue;
    }

    method GetStats() returns (stats: Stats)
      requires Valid()
      ensures stats == Stats(1, |View().all|, View().active, |View().idle|)
      ensures stats.total == stats.active + stats.idle
    {
      StatsAddUp(View());
      stats := Stats(1, |allConnections|, activeCount, |idleConnections|);
    }
  }

  ghost function Sum(pools: seq<HostPool>): Stats
    reads pools
  {
    if pools == [] then Stats(0, 0, 0, 0)
    else
      var s, p := Sum(pools[..|pools| - 1]), pools[|pools| - 1];
      Stats(s.hosts + 1, s.total + |p.allConnections|, s.active + p.activeCount, s.idle + |p.idleConnections|)
  }

  /** getStats over all hosts, in the order in which the map yields them. */
  method GetStats(pools: seq<HostPool>) returns (stats: Stats)
    requires forall p :: p in pools ==> p.Valid()
    ensures stats == Sum(pools) && stats.hosts == |pools|
    ensures stats.total == stats.active + stats.idle
  {
    hide Consistent, Slots, Conns;
    stats := Stats(0, 0, 0, 0);
    for i := 0 to |pools|
      invariant stats == Sum(pools[..i]) && stats.hosts == i && stats.total == stats.active + stats.idle
    {
      assert pools[..i + 1][..i] == pools[..i];
      var one := pools[i].GetStats();
      stats := Stats(stats.hosts + 1, stats.total + one.total, stats.active + one.active, stats.idle + one.idle);
    }
    assert pools[..|pools|] == pools;
  }

  lemma ConsistentParts(p: Pool)
    requires Consistent(p)
    ensures NoTwins(p.all) && Distinct(p.idle)
  {
  }

  lemma InUseNotQueued(p: Pool, i: nat)
    requires Consistent(p) && i < |p.all| && p.all[i].inUse
    ensures p.all[i].conn !in p.idle
  {
  }

  lemma NotQueued(s: seq<PooledConnection>, pooled: PooledConnection)
    requires pooled.connection !in Conns(s)
    ensures pooled !in s
  {
  }

  lemma NotQueuedTwice(s: seq<PooledConnection>)
    requires s != [] && Distinct(Conns(s))
    ensures s[0] !in s[1..]
  {
  }
}
