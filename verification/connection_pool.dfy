/** The connections pooled for one host (common/connection_pool.cpp): what each section under the
    pool's mutex does to them, and the consistency it keeps. */
module ConnectionPool {
  import opened Common

  type Conn = nat

  datatype Settings = Settings(max: nat, min: nat, idleTimeout: int)

  datatype Slot = Slot(conn: Conn, inUse: bool, lastUsed: int)

  datatype Pool = Pool(all: seq<Slot>, idle: seq<Conn>, active: int)

  const EMPTY := Pool([], [], 0)

  // ------------------------------------------------------ sections under the lock

  function IndexOf(all: seq<Slot>, conn: Conn): (i: nat)
    ensures i <= |all| && (i < |all| ==> all[i].conn == conn)
    ensures forall j :: 0 <= j < i ==> all[j].conn != conn
  {
    if all == [] || all[0].conn == conn then 0 else 1 + IndexOf(all[1..], conn)
  }

  function Mark(all: seq<Slot>, conn: Conn, inUse: bool, now: int): seq<Slot> {
    var i := IndexOf(all, conn);
    if i < |all| then all[i := Slot(conn, inUse, now)] else all
  }

  /** removeConnection. */
  function Without(all: seq<Slot>, conn: Conn): seq<Slot> {
    var i := IndexOf(all, conn);
    if i < |all| then all[..i] + all[i + 1..] else all
  }

  /** The inner loop of acquire: the first idle connection that is still valid; the invalid
      ones before it are removed. */
  function TakeIdle(p: Pool, valid: set<Conn>, now: int): (Pool, Option<Conn>)
    decreases |p.idle|
  {
    if p.idle == [] then (p, None)
    else
      var c, rest := p.idle[0], p.idle[1..];
      if c in valid then (Pool(Mark(p.all, c, true, now), rest, p.active + 1), Some(c))
      else TakeIdle(Pool(Without(p.all, c), rest, p.active), valid, now)
  }

  /** The second half of acquire, after a successful connect. */
  function Insert(p: Pool, conn: Conn, now: int): Pool {
    Pool(p.all + [Slot(conn, true, now)], p.idle, p.active + 1)
  }

  function Return(p: Pool, conn: Conn, valid: bool, now: int): Pool {
    var i := IndexOf(p.all, conn);
    if i == |p.all| || !p.all[i].inUse then p
    else
      var all := Mark(p.all, conn, false, now);
      if valid then Pool(all, p.idle + [conn], p.active - 1)
      else Pool(Without(all, conn), p.idle, p.active - 1)
  }

  predicate Keeps(cfg: Settings, total: nat, now: int, slot: Slot) {
    slot.inUse || !(now - slot.lastUsed > cfg.idleTimeout || total > cfg.min)
  }

  /** clock(i) is the reading taken when the i-th connection is examined. */
  function Kept(cfg: Settings, total: nat, clock: nat -> int, all: seq<Slot>): seq<Slot> {
    if all == [] then []
    else
      var front, last := all[..|all| - 1], all[|all| - 1];
      Kept(cfg, total, clock, front) + (if Keeps(cfg, total, clock(|front|), last) then [last] else [])
  }

  function FreeOf(all: seq<Slot>): seq<Conn> {
    if all == [] then []
    else
      var last := all[|all| - 1];
      FreeOf(all[..|all| - 1]) + (if last.inUse then [] else [last.conn])
  }

  /** One pool's share of a cleanup cycle. */
  function Sweep(cfg: Settings, p: Pool, clock: nat -> int): Pool {
    var all := Kept(cfg, |p.all|, clock, p.all);
    Pool(all, FreeOf(all), p.active)
  }

  // ------------------------------------------------------------------ consistency

  ghost function Names(all: seq<Slot>): set<Conn> {
    set i | 0 <= i < |all| :: all[i].conn
  }

  ghost function InUse(all: seq<Slot>): set<Conn> {
    set i | 0 <= i < |all| && all[i].inUse :: all[i].conn
  }

  ghost function Free(all: seq<Slot>): set<Conn> {
    set i | 0 <= i < |all| && !all[i].inUse :: all[i].conn
  }

  ghost predicate NoTwins(all: seq<Slot>) {
    forall i, j :: 0 <= i < j < |all| ==> all[i].conn != all[j].conn
  }

  /** active counts the connections in use, and the idle queue holds each other pooled
      connection exactly once. */
  ghost predicate Consistent(p: Pool) {
    && NoTwins(p.all)
    && Distinct(p.idle)
    && (forall c :: c in p.idle <==> c in Free(p.all))
    && p.active == |InUse(p.all)|
  }

  lemma MarkSets(all: seq<Slot>, c: Conn, inUse: bool, now: int)
    requires NoTwins(all) && c in Names(all)
    ensures NoTwins(Mark(all, c, inUse, now)) && Names(Mark(all, c, inUse, now)) == Names(all)
    ensures InUse(Mark(all, c, inUse, now)) == if inUse then InUse(all) + {c} else InUse(all) - {c}
    ensures Free(Mark(all, c, inUse, now)) == if inUse then Free(all) - {c} else Free(all) + {c}
  {
    var i, all' := IndexOf(all, c), Mark(all, c, inUse, now);
    forall k | 0 <= k < |all|
      ensures all'[k].conn == all[k].conn && (k != i ==> all'[k] == all[k] && all[k].conn != c)
    {
    }
    assert all'[i].inUse == inUse && all'[i].conn == c;
    forall x ensures x in InUse(all') <==> x in (if inUse then InUse(all) + {c} else InUse(all) - {c}) {
      if x != c { SameAt(all, all', i, x); }
    }
    forall x ensures x in Free(all') <==> x in (if inUse then Free(all) - {c} else Free(all) + {c}) {
      if x != c { SameAt(all, all', i, x); }
    }
    forall x ensures x in Names(all') <==> x in Names(all) {
      if x != c { SameAt(all, all', i, x); }
    }
  }

  lemma SameAt(all: seq<Slot>, all': seq<Slot>, i: nat, x: Conn)
    requires |all| == |all'| && i < |all| && all[i].conn == all'[i].conn != x
    requires forall k :: 0 <= k < |all| && k != i ==> all'[k] == all[k]
    ensures x in InUse(all) <==> x in InUse(all')
    ensures x in Free(all) <==> x in Free(all')
    ensures x in Names(all) <==> x in Names(all')
  {
  }

  lemma WithoutSets(all: seq<Slot>, c: Conn)
    requires NoTwins(all)
    ensures NoTwins(Without(all, c)) && Names(Without(all, c)) == Names(all) - {c}
    ensures InUse(Without(all, c)) == InUse(all) - {c} && Free(Without(all, c)) == Free(all) - {c}
  {
    hide Names, InUse, Free, NoTwins;
    var i := IndexOf(all, c);
    if i < |all| {
      var front, back := all[..i], all[i + 1..];
      AroundIndex(all, c);
      SetsConcat(front, [all[i]] + back);
      SetsConcat([all[i]], back);
      SetsConcat(front, back);
      SingleSets(all[i]);
      SetsAbsent(front, c);
      SetsAbsent(back, c);
    } else {
      SetsAbsent(all, c);
    }
  }

  lemma AroundIndex(all: seq<Slot>, c: Conn)
    requires NoTwins(all) && IndexOf(all, c) < |all|
    ensures var i := IndexOf(all, c);
      && all == all[..i] + ([all[i]] + all[i + 1..])
      && NoTwins(all[..i] + all[i + 1..])
      && (forall e :: e in all[..i] ==> e.conn != c)
      && (forall e :: e in all[i + 1..] ==> e.conn != c)
  {
    hide NoTwins;
    var i := IndexOf(all, c);
    OnlyAt(all, i);
    StillNoTwins(all, i);
  }

  lemma OnlyAt(all: seq<Slot>, i: nat)
    requires NoTwins(all) && i < |all|
    ensures forall e :: e in all[i + 1..] ==> e.conn != all[i].conn
  {
  }

  lemma StillNoTwins(all: seq<Slot>, i: nat)
    requires NoTwins(all) && i < |all|
    ensures NoTwins(all[..i] + all[i + 1..])
  {
  }

  lemma SingleSets(e: Slot)
    ensures Names([e]) == {e.conn}
    ensures InUse([e]) == (if e.inUse then {e.conn} else {}) && Free([e]) == (if e.inUse then {} else {e.conn})
  {
    assert [e][0] == e;
    assert e.inUse ==> e.conn in InUse([e]);
    assert !e.inUse ==> e.conn in Free([e]);
  }

  lemma SetsConcat(a: seq<Slot>, b: seq<Slot>)
    ensures Names(a + b) == Names(a) + Names(b)
    ensures InUse(a + b) == InUse(a) + InUse(b) && Free(a + b) == Free(a) + Free(b)
  {
    var s := a + b;
    assert forall k :: 0 <= k < |a| ==> s[k] == a[k];
    assert forall k :: 0 <= k < |b| ==> s[|a| + k] == b[k];
    assert forall k :: |a| <= k < |s| ==> s[k] == b[k - |a|];
  }

  lemma SetsAbsent(all: seq<Slot>, c: Conn)
    requires forall e :: e in all ==> e.conn != c
    ensures c !in Names(all) && c !in InUse(all) && c !in Free(all)
  {
  }

  lemma SetsRelate(all: seq<Slot>)
    requires NoTwins(all)
    ensures InUse(all) + Free(all) == Names(all) && InUse(all) !! Free(all) && |Names(all)| == |all|
  {
    NamesSize(all);
  }

  lemma NoNames()
    ensures Names([]) == {} && InUse([]) == {} && Free([]) == {}
  {
  }

  lemma {:induction false} NamesSize(all: seq<Slot>)
    requires NoTwins(all)
    ensures |Names(all)| == |all|
  {
    hide Names;
    if all != [] {
      var front, last := all[..|all| - 1], all[|all| - 1];
      assert all == front + [last];
      NamesSize(front);
      SetsConcat(front, [last]);
      SingleSets(last);
      SetsAbsent(front, last.conn);
    } else {
      NoNames();
    }
  }

  /** What the counters say adds up: every pooled connection is active or idle, and none twice. */
  lemma StatsAddUp(p: Pool)
    requires Consistent(p)
    ensures |p.all| == p.active + |p.idle|
  {
    hide Names, InUse, Free;
    SetsRelate(p.all);
    DistinctSize(p.idle);
    var queued := set c | c in p.idle;
    assert queued == Free(p.all);
    assert |InUse(p.all) + queued| == |InUse(p.all)| + |queued|;
  }

  // -------------------------------------------------------- what each section keeps

  /** acquire's inner loop hands out a free connection, or empties the queue; whatever it
      removes was free as well. */
  lemma {:induction false} TakeIdleKeeps(p: Pool, valid: set<Conn>, now: int)
    requires Consistent(p)
    ensures var (p', found) := TakeIdle(p, valid, now);
      && Consistent(p') && |p'.all| <= |p.all| && Names(p'.all) <= Names(p.all)
      && match found
         case Some(c) => c in Free(p.all) && c in valid && InUse(p'.all) == InUse(p.all) + {c}
         case None => p'.idle == [] && InUse(p'.all) == InUse(p.all)
    decreases |p.idle|
  {
    hide InUse, Free, Names, Consistent, Mark, Without;
    if p.idle != [] {
      FirstIdle(p, now);
      if p.idle[0] !in valid {
        TakeIdleKeeps(Pool(Without(p.all, p.idle[0]), p.idle[1..], p.active), valid, now);
      }
    }
  }

  /** The head of the queue, lent or removed. */
  lemma FirstIdle(p: Pool, now: int)
    requires Consistent(p) && p.idle != []
    ensures var c, rest := p.idle[0], p.idle[1..];
      var lent, less := Mark(p.all, c, true, now), Without(p.all, c);
      && c in Free(p.all)
      && Consistent(Pool(lent, rest, p.active + 1)) && Names(lent) == Names(p.all) && |lent| == |p.all|
      && InUse(lent) == InUse(p.all) + {c}
      && Consistent(Pool(less, rest, p.active)) && Names(less) <= Names(p.all) && |less| <= |p.all|
      && InUse(less) == InUse(p.all) && Free(less) <= Free(p.all)
  {
    hide InUse, Free, Names, NoTwins, Mark, Without;
    var c, rest := p.idle[0], p.idle[1..];
    assert p.idle == [c] + rest && c in p.idle && c !in rest;
    FreeNames(p.all);
    MarkLengths(p.all, c, now);
    MarkSets(p.all, c, true, now);
    WithoutSets(p.all, c);
  }

  lemma FreeNames(all: seq<Slot>)
    requires NoTwins(all)
    ensures Free(all) <= Names(all) && InUse(all) <= Names(all) && InUse(all) !! Free(all)
  {
  }

  lemma MarkLengths(all: seq<Slot>, c: Conn, now: int)
    ensures |Mark(all, c, true, now)| == |Mark(all, c, false, now)| == |all|
    ensures |Without(all, c)| <= |all|
  {
  }

  lemma InsertKeeps(p: Pool, c: Conn, now: int)
    requires Consistent(p) && c !in Names(p.all)
    ensures Consistent(Insert(p, c, now)) && InUse(Insert(p, c, now).all) == InUse(p.all) + {c}
  {
    hide Names, InUse, Free;
    SetsConcat(p.all, [Slot(c, true, now)]);
    SingleSets(Slot(c, true, now));
    FreeNames(p.all);
    NamesHold(p.all);
  }

  lemma NamesHold(all: seq<Slot>)
    ensures forall k :: 0 <= k < |all| ==> all[k].conn in Names(all)
  {
  }

  lemma ReturnKeeps(p: Pool, c: Conn, valid: bool, now: int)
    requires Consistent(p)
    ensures var p' := Return(p, c, valid, now);
      Consistent(p') && InUse(p'.all) == InUse(p.all) - {c} && |p'.all| <= |p.all|
  {
    hide NoTwins, Mark, Without, Names, InUse, Free;
    FreeNames(p.all);
    SlotOf(p.all, c);
    if c in InUse(p.all) {
      MarkSets(p.all, c, false, now);
      var all := Mark(p.all, c, false, now);
      WithoutSets(all, c);
      MarkLengths(p.all, c, now);
      MarkLengths(all, c, now);
    }
  }

  lemma SlotOf(all: seq<Slot>, c: Conn)
    requires NoTwins(all)
    ensures c in InUse(all) <==> IndexOf(all, c) < |all| && all[IndexOf(all, c)].inUse
    ensures c in Names(all) <==> IndexOf(all, c) < |all|
  {
  }

  lemma NothingIdle(p: Pool)
    requires Consistent(p) && forall e :: e in p.all ==> e.inUse
    ensures p.idle == []
  {
    assert forall i :: 0 <= i < |p.all| ==> p.all[i] in p.all;
    assert Free(p.all) == {};
    DistinctSize(p.idle);
    assert (set c | c in p.idle) == {};
  }

  /** A sweep removes no connection in use; of the others it keeps those that are not too old,
      and none at all when the pool is over its minimum. */
  lemma SweepKeeps(cfg: Settings, p: Pool, clock: nat -> int)
    requires Consistent(p)
    ensures var p' := Sweep(cfg, p, clock);
      && Consistent(p') && InUse(p'.all) == InUse(p.all) && |p'.all| <= |p.all|
      && (forall e :: e in p'.all <==>
            exists i :: 0 <= i < |p.all| && p.all[i] == e
                        && (e.inUse || (clock(i) - e.lastUsed <= cfg.idleTimeout && |p.all| <= cfg.min)))
      && (|p.all| > cfg.min ==> p'.idle == [])
  {
    hide InUse, NoTwins;
    KeptSlots(cfg, |p.all|, clock, p.all);
    FreeQueue(Kept(cfg, |p.all|, clock, p.all));
    if |p.all| > cfg.min {
      NothingIdle(Sweep(cfg, p, clock));
    }
  }

  /** acquire's inner loop takes the first idle connection that is valid, if there is one. */
  lemma {:induction false} TakeIdleIsFirst(p: Pool, valid: set<Conn>, now: int)
    ensures match TakeIdle(p, valid, now).1
      case Some(c) =>
        (exists i :: 0 <= i < |p.idle| && p.idle[i] == c && c in valid
                     && TakeIdle(p, valid, now).0.idle == p.idle[i + 1..]
                     && forall j :: 0 <= j < i ==> p.idle[j] !in valid)
      case None => forall c :: c in p.idle ==> c !in valid
    decreases |p.idle|
  {
    hide Mark, Without;
    if p.idle != [] && p.idle[0] !in valid {
      var rest := p.idle[1..];
      var q := Pool(Without(p.all, p.idle[0]), rest, p.active);
      TakeIdleIsFirst(q, valid, now);
      match TakeIdle(q, valid, now).1 {
        case Some(c) =>
          var i :| 0 <= i < |rest| && rest[i] == c && TakeIdle(q, valid, now).0.idle == rest[i + 1..]
            && forall j :: 0 <= j < i ==> rest[j] !in valid;
          assert p.idle[i + 1] == c && rest[i + 1..] == p.idle[i + 2..];
          assert forall j :: 0 < j < i + 1 ==> p.idle[j] == rest[j - 1];
        case None => assert p.idle == [p.idle[0]] + rest;
      }
    }
  }

  /** Whoever takes a connection leaves its record in use and stamped with the time, and touches no
      other record that stays. */
  lemma {:induction false} TakeIdleStamps(p: Pool, valid: set<Conn>, now: int)
    requires Consistent(p)
    ensures var (p', found) := TakeIdle(p, valid, now);
      && (found.Some? ==> Slot(found.value, true, now) in p'.all)
      && forall e :: e in p'.all && Some(e.conn) != found ==> e in p.all
    decreases |p.idle|
  {
    hide InUse, Free, Names, Consistent, Mark, Without;
    if p.idle != [] {
      FirstIdle(p, now);
      PartsOf(p);
      MarkStamps(p.all, p.idle[0], true, now);
      WithoutKeeps(p.all, p.idle[0]);
      if p.idle[0] !in valid {
        TakeIdleStamps(Pool(Without(p.all, p.idle[0]), p.idle[1..], p.active), valid, now);
      }
    }
  }

  lemma PartsOf(p: Pool)
    requires Consistent(p)
    ensures NoTwins(p.all) && Free(p.all) <= Names(p.all) && InUse(p.all) <= Names(p.all)
    ensures InUse(p.all) !! Free(p.all) && forall c :: c in p.idle ==> c in Names(p.all)
  {
    FreeNames(p.all);
  }

  lemma MarkStamps(all: seq<Slot>, c: Conn, inUse: bool, now: int)
    requires c in Names(all)
    ensures Slot(c, inUse, now) in Mark(all, c, inUse, now)
    ensures forall e :: e in Mark(all, c, inUse, now) && e.conn != c ==> e in all
  {
    var i, all' := IndexOf(all, c), Mark(all, c, inUse, now);
    assert i < |all| && all'[i] == Slot(c, inUse, now);
    assert forall k :: 0 <= k < |all| && k != i ==> all'[k] == all[k];
  }

  lemma WithoutKeeps(all: seq<Slot>, c: Conn)
    ensures forall e :: e in Without(all, c) ==> e in all
  {
  }

  /** A released connection that is still usable goes to the back of the queue, its record free and
      stamped with the time; nothing overtakes it and nothing else changes. */
  lemma ReturnQueuesLast(p: Pool, c: Conn, now: int)
    requires Consistent(p)
    ensures var p' := Return(p, c, true, now);
      if c in InUse(p.all) then
        && p'.idle == p.idle + [c] && Slot(c, false, now) in p'.all && |p'.all| == |p.all|
        && p'.active == p.active - 1 && forall e :: e in p'.all && e.conn != c ==> e in p.all
      else p' == p
  {
    hide InUse, Free, Names, Mark;
    PartsOf(p);
    SlotOf(p.all, c);
    if c in InUse(p.all) {
      MarkStamps(p.all, c, false, now);
      MarkLengths(p.all, c, now);
    }
  }

  /** A released connection that is broken leaves the pool; the queue and all other records stay. */
  lemma ReturnDropsBroken(p: Pool, c: Conn, now: int)
    requires Consistent(p)
    ensures var p' := Return(p, c, false, now);
      if c in InUse(p.all) then
        && c !in Names(p'.all) && Names(p'.all) == Names(p.all) - {c} && p'.idle == p.idle
        && p'.active == p.active - 1 && forall e :: e in p'.all ==> e in p.all
      else p' == p
  {
    hide InUse, Free, Names, Mark, Without, NoTwins;
    PartsOf(p);
    SlotOf(p.all, c);
    if c in InUse(p.all) {
      var all := Mark(p.all, c, false, now);
      MarkSets(p.all, c, false, now);
      MarkStamps(p.all, c, false, now);
      WithoutSets(all, c);
      WithoutKeeps(all, c);
      NamesHold(Without(all, c));
      forall e | e in Without(all, c) ensures e in p.all {
        var i :| 0 <= i < |Without(all, c)| && Without(all, c)[i] == e;
        assert e.conn != c;
      }
    }
  }

  /** A new connection is last in the vector, in use, stamped with the time. */
  lemma InsertStamps(p: Pool, c: Conn, now: int)
    ensures var p' := Insert(p, c, now);
      p'.all == p.all + [Slot(c, true, now)] && p'.idle == p.idle && p'.active == p.active + 1
  {
  }

  /** After a sweep the queue lists what is free in the order of the vector. */
  lemma {:induction false} FreeInOrder(all: seq<Slot>, i: nat, j: nat)
    requires i < j < |all| && !all[i].inUse && !all[j].inUse
    ensures exists x, y :: 0 <= x < y < |FreeOf(all)| && FreeOf(all)[x] == all[i].conn && FreeOf(all)[y] == all[j].conn
  {
    var front, last := all[..|all| - 1], all[|all| - 1];
    if j < |all| - 1 {
      FreeInOrder(front, i, j);
      var x, y :| 0 <= x < y < |FreeOf(front)|
                  && FreeOf(front)[x] == front[i].conn && FreeOf(front)[y] == front[j].conn;
      assert FreeOf(all)[x] == all[i].conn && FreeOf(all)[y] == all[j].conn;
    } else {
      FreeIsListed(front, i);
      var x :| 0 <= x < |FreeOf(front)| && FreeOf(front)[x] == front[i].conn;
      assert FreeOf(all)[x] == all[i].conn && FreeOf(all)[|FreeOf(front)|] == last.conn;
    }
  }

  lemma {:induction false} FreeIsListed(all: seq<Slot>, i: nat)
    requires i < |all| && !all[i].inUse
    ensures exists x :: 0 <= x < |FreeOf(all)| && FreeOf(all)[x] == all[i].conn
  {
    var front := all[..|all| - 1];
    if i < |all| - 1 {
      FreeIsListed(front, i);
      var x :| 0 <= x < |FreeOf(front)| && FreeOf(front)[x] == front[i].conn;
      assert FreeOf(all)[x] == all[i].conn;
    } else {
      assert FreeOf(all)[|FreeOf(front)|] == all[i].conn;
    }
  }

  /** A sweep keeps what it keeps in the order of the vector. */
  lemma {:induction false} KeptInOrder(cfg: Settings, total: nat, clock: nat -> int, all: seq<Slot>, i: nat, j: nat)
    requires i < j < |all| && Keeps(cfg, total, clock(i), all[i]) && Keeps(cfg, total, clock(j), all[j])
    ensures exists x, y :: 0 <= x < y < |Kept(cfg, total, clock, all)|
                           && Kept(cfg, total, clock, all)[x] == all[i] && Kept(cfg, total, clock, all)[y] == all[j]
  {
    hide Keeps;
    var front := all[..|all| - 1];
    var kept, all' := Kept(cfg, total, clock, front), Kept(cfg, total, clock, all);
    if j < |all| - 1 {
      KeptInOrder(cfg, total, clock, front, i, j);
      var x, y :| 0 <= x < y < |kept| && kept[x] == front[i] && kept[y] == front[j];
      assert all'[x] == all[i] && all'[y] == all[j];
    } else {
      IsKept(cfg, total, clock, front, i);
      var x :| 0 <= x < |kept| && kept[x] == front[i];
      assert all'[x] == all[i] && all'[|kept|] == all[j];
    }
  }

  lemma {:induction false} IsKept(cfg: Settings, total: nat, clock: nat -> int, all: seq<Slot>, i: nat)
    requires i < |all| && Keeps(cfg, total, clock(i), all[i])
    ensures exists x :: 0 <= x < |Kept(cfg, total, clock, all)| && Kept(cfg, total, clock, all)[x] == all[i]
  {
    hide Keeps;
    var front := all[..|all| - 1];
    var kept, all' := Kept(cfg, total, clock, front), Kept(cfg, total, clock, all);
    if i < |all| - 1 {
      IsKept(cfg, total, clock, front, i);
      var x :| 0 <= x < |kept| && kept[x] == front[i];
      assert all'[x] == all[i];
    } else {
      assert all'[|kept|] == all[i];
    }
  }

  lemma {:induction false} KeptSlots(cfg: Settings, total: nat, clock: nat -> int, all: seq<Slot>)
    requires NoTwins(all)
    ensures var kept := Kept(cfg, total, clock, all);
      && NoTwins(kept) && InUse(kept) == InUse(all) && |kept| <= |all|
      && forall e :: e in kept <==> exists i :: 0 <= i < |all| && all[i] == e && Keeps(cfg, total, clock(i), e)
  {
    hide InUse, Keeps;
    if all != [] {
      var front, last := all[..|all| - 1], all[|all| - 1];
      assert all == front + [last];
      KeptSlots(cfg, total, clock, front);
      var kept := Kept(cfg, total, clock, front);
      forall i | 0 <= i < |kept| ensures kept[i].conn != last.conn {
        assert kept[i] in kept && kept[i] in front;
      }
      assert kept + [] == kept;
      SetsConcat(front, [last]);
      SetsConcat(kept, [last]);
      SingleSets(last);
      InUseIsKept(cfg, total, clock(|front|), last);
      KeptSnoc(cfg, total, clock, all);
    }
  }

  lemma KeptSnoc(cfg: Settings, total: nat, clock: nat -> int, all: seq<Slot>)
    requires all != []
    requires var front := all[..|all| - 1]; forall e :: e in Kept(cfg, total, clock, front) <==>
      (exists i :: 0 <= i < |front| && front[i] == e && Keeps(cfg, total, clock(i), e))
    ensures forall e :: e in Kept(cfg, total, clock, all) <==>
      exists i :: 0 <= i < |all| && all[i] == e && Keeps(cfg, total, clock(i), e)
  {
    hide Keeps;
    var front, last := all[..|all| - 1], all[|all| - 1];
    var kept := Kept(cfg, total, clock, front);
    forall e ensures e in Kept(cfg, total, clock, all) <==>
      exists i :: 0 <= i < |all| && all[i] == e && Keeps(cfg, total, clock(i), e)
    {
      assert e in Kept(cfg, total, clock, all) <==> e in kept || (e == last && Keeps(cfg, total, clock(|front|), e));
      assert forall i :: 0 <= i < |front| ==> all[i] == front[i];
    }
  }

  lemma InUseIsKept(cfg: Settings, total: nat, now: int, slot: Slot)
    ensures slot.inUse ==> Keeps(cfg, total, now, slot)
  {
  }

  lemma {:induction false} FreeQueue(all: seq<Slot>)
    requires NoTwins(all)
    ensures Distinct(FreeOf(all)) && forall c :: c in FreeOf(all) <==> c in Free(all)
  {
    hide Free;
    if all != [] {
      var front, last := all[..|all| - 1], all[|all| - 1];
      assert all == front + [last];
      FreeQueue(front);
      assert FreeOf(front) + [] == FreeOf(front);
      SetsConcat(front, [last]);
      SingleSets(last);
      FreeNames(front);
      SetsAbsent(front, last.conn);
    } else {
      NoNames();
    }
  }
}
