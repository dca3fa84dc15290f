/** The threads that share one host's connections (common/connection_pool.cpp). Each step is one
    section under the pool's mutex; acquire gives the mutex up while it connects, so anything may
    happen between the two halves. */
module PoolThreads {
  import opened Common
  import opened ConnectionPool

  datatype Stage = Outside | Waiting | Connecting

  /** `lent` holds the connections that nobody has given to release since they were last handed out.
      `holders` says who: a thread holds what it acquired until it releases it itself. The pool
      keeps neither; release takes a connection from any thread. */
  datatype Sys = Sys(pool: Pool, callers: seq<Stage>, lent: set<Conn>, holders: set<(nat, Conn)>)

  datatype Action =
    | Enter(t: nat)
    | Look(t: nat, valid: set<Conn>, now: int)
    | Connected(t: nat, conn: Conn, now: int)
    | ConnectFailed(t: nat)
    | GiveUp(t: nat)  // timeout or shutdown
    | Release(t: nat, conn: Conn, usable: bool, now: int)
    | Cleanup(clock: nat -> int)

  function Start(k: nat): Sys {
    Sys(EMPTY, seq(k, _ => Outside), {}, {})
  }

  /** A connection just made is none of those in the pool. */
  ghost predicate Enabled(s: Sys, a: Action) {
    match a
    case Enter(t) => t < |s.callers| && s.callers[t] == Outside
    case Look(t, _, _) => t < |s.callers| && s.callers[t] == Waiting
    case Connected(t, c, _) => t < |s.callers| && s.callers[t] == Connecting && c !in Names(s.pool.all)
    case ConnectFailed(t) => t < |s.callers| && s.callers[t] == Connecting
    case GiveUp(t) => t < |s.callers| && s.callers[t] == Waiting
    case Release(_, _, _, _) => true
    case Cleanup(_) => true
  }

  /** The connection that a step hands to its caller. */
  function HandedOut(s: Sys, a: Action): Option<Conn> {
    match a
    case Look(_, valid, now) => TakeIdle(s.pool, valid, now).1
    case Connected(_, c, _) => Some(c)
    case _ => None
  }

  ghost function Step(cfg: Settings, s: Sys, a: Action): Sys
    requires Enabled(s, a)
  {
    match a
    case Enter(t) => s.(callers := s.callers[t := Waiting])
    case Look(t, valid, now) =>
      var (p, found) := TakeIdle(s.pool, valid, now);
      (match found
       case Some(c) => Sys(p, s.callers[t := Outside], s.lent + {c}, s.holders + {(t, c)})
       case None => s.(pool := p, callers := s.callers[t := if |p.all| < cfg.max then Connecting else Waiting]))
    case Connected(t, c, now) =>
      Sys(Insert(s.pool, c, now), s.callers[t := Outside], s.lent + {c}, s.holders + {(t, c)})
    case ConnectFailed(t) => s.(callers := s.callers[t := Waiting])
    case GiveUp(t) => s.(callers := s.callers[t := Outside])
    case Release(t, c, usable, now) =>
      s.(pool := Return(s.pool, c, usable, now), lent := s.lent - {c}, holders := s.holders - {(t, c)})
    case Cleanup(clock) => s.(pool := Sweep(cfg, s.pool, clock))
  }

  /** The state after a run from s; None if one of its steps could not be taken. */
  ghost function From(cfg: Settings, s: Sys, run: seq<Action>): Option<Sys> {
    if run == [] then Some(s)
    else
      match From(cfg, s, run[..|run| - 1])
      case None => None
      case Some(m) => if Enabled(m, run[|run| - 1]) then Some(Step(cfg, m, run[|run| - 1])) else None
  }

  ghost function After(cfg: Settings, k: nat, run: seq<Action>): Option<Sys> {
    From(cfg, Start(k), run)
  }

  ghost function InProgress(callers: seq<Stage>): (r: set<nat>)
    ensures r <= Below(|callers|)
  {
    set t: nat | t < |callers| && callers[t] == Connecting
  }

  ghost predicate Good(cfg: Settings, k: nat, s: Sys) {
    && Consistent(s.pool)
    && s.lent == InUse(s.pool.all)
    && |s.callers| == k && (forall h :: h in s.holders ==> h.0 < k)
    && (k > 0 ==> |s.pool.all| + |InProgress(s.callers)| <= cfg.max + k - 1)
  }

  lemma StageChange(callers: seq<Stage>, t: nat, to: Stage)
    requires t < |callers|
    ensures |InProgress(callers[t := to])|
      == |InProgress(callers)| + (if to == Connecting then 1 else 0) - (if callers[t] == Connecting then 1 else 0)
  {
    hide InProgress;
    StageElsewhere(callers, t, to);
    WithoutOne(InProgress(callers), t);
    WithoutOne(InProgress(callers[t := to]), t);
  }

  lemma StageElsewhere(callers: seq<Stage>, t: nat, to: Stage)
    requires t < |callers|
    ensures InProgress(callers[t := to]) - {t} == InProgress(callers) - {t}
    ensures t in InProgress(callers) <==> callers[t] == Connecting
    ensures t in InProgress(callers[t := to]) <==> to == Connecting
  {
  }

  lemma WithoutOne(a: set<nat>, t: nat)
    ensures |a - {t}| == |a| - (if t in a then 1 else 0)
  {
  }

  lemma InProgressBound(callers: seq<Stage>)
    ensures |InProgress(callers)| <= |callers|
  {
    SubsetSize(InProgress(callers), Below(|callers|));
  }

  lemma StepKeepsGood(cfg: Settings, k: nat, s: Sys, a: Action)
    requires Good(cfg, k, s) && Enabled(s, a)
    ensures Good(cfg, k, Step(cfg, s, a))
  {
    hide Consistent, InUse, Names, Insert, Return, Sweep, TakeIdle, InProgress;
    match a
    case Enter(t) => StageChange(s.callers, t, Waiting);
    case Look(t, valid, now) => LookKeepsGood(cfg, k, s, t, valid, now);
    case Connected(t, c, now) =>
      InsertKeeps(s.pool, c, now);
      InsertLength(s.pool, c, now);
      StageChange(s.callers, t, Outside);
    case ConnectFailed(t) => StageChange(s.callers, t, Waiting);
    case GiveUp(t) => StageChange(s.callers, t, Outside);
    case Release(_, c, usable, now) => ReturnKeeps(s.pool, c, usable, now);
    case Cleanup(clock) => SweepKeeps(cfg, s.pool, clock);
  }

  lemma InsertLength(p: Pool, c: Conn, now: int)
    ensures |Insert(p, c, now).all| == |p.all| + 1
  {
  }

  lemma LookKeepsGood(cfg: Settings, k: nat, s: Sys, t: nat, valid: set<Conn>, now: int)
    requires Good(cfg, k, s) && Enabled(s, Look(t, valid, now))
    ensures Good(cfg, k, Step(cfg, s, Look(t, valid, now)))
  {
    hide Consistent, InUse, Names, TakeIdle, InProgress, Free;
    TakeIdleKeeps(s.pool, valid, now);
    StageChange(s.callers, t, Outside);
    StageChange(s.callers, t, Connecting);
    StageChange(s.callers, t, Waiting);
    InProgressBound(s.callers[t := Connecting]);
  }

  lemma {:induction false} StaysGood(cfg: Settings, k: nat, s: Sys, run: seq<Action>)
    requires Good(cfg, k, s)
    ensures match From(cfg, s, run) case Some(m) => Good(cfg, k, m) case None => true
  {
    hide Good, Step;
    if run != [] {
      var front, a := run[..|run| - 1], run[|run| - 1];
      StaysGood(cfg, k, s, front);
      match From(cfg, s, front) {
        case None =>
        case Some(m) => if Enabled(m, a) { StepKeepsGood(cfg, k, m, a); }
      }
    }
  }

  /** Consistency of the pool in every interleaving, and the bound on connections: with k
      threads in acquire, pooled and half-made connections together never exceed
      max + k - 1, so they stay within max when only one thread acquires at a time. */
  lemma RunsAreGood(cfg: Settings, k: nat, run: seq<Action>)
    ensures match After(cfg, k, run) case Some(s) => Good(cfg, k, s) case None => true
  {
    hide Good, From;
    StartIsGood(cfg, k);
    StaysGood(cfg, k, Start(k), run);
  }

  lemma StartIsGood(cfg: Settings, k: nat)
    ensures Good(cfg, k, Start(k))
  {
  }

  /** No step hands out a connection that nobody has released since it was last handed out. */
  lemma NeverLentTwice(cfg: Settings, k: nat, run: seq<Action>, a: Action)
    ensures match After(cfg, k, run)
      case Some(s) => Enabled(s, a) ==> (match HandedOut(s, a) case Some(c) => c !in s.lent case None => true)
      case None => true
  {
    RunsAreGood(cfg, k, run);
    match After(cfg, k, run) {
      case None =>
      case Some(s) =>
        if Enabled(s, a) {
          FreeNames(s.pool.all);
          match a {
            case Look(_, valid, now) => TakeIdleKeeps(s.pool, valid, now);
            case _ =>
          }
        }
    }
  }

  // ------------------------------------------------------------------ one holder

  ghost predicate OneHolder(s: Sys) {
    forall t: nat, u: nat, c: Conn :: (t, c) in s.holders && (u, c) in s.holders ==> t == u
  }

  /** Every connection in use has its one holder. */
  ghost predicate Owned(s: Sys) {
    OneHolder(s) && forall c: Conn :: c in InUse(s.pool.all) <==> exists t: nat :: (t, c) in s.holders
  }

  /** A thread releases only what it holds, or what nobody holds. */
  ghost predicate Careful(s: Sys, a: Action) {
    a.Release? ==> (a.t, a.conn) in s.holders || forall u: nat :: (u, a.conn) !in s.holders
  }

  ghost predicate CarefulRun(cfg: Settings, s: Sys, run: seq<Action>) {
    run == []
    || (CarefulRun(cfg, s, run[..|run| - 1])
        && match From(cfg, s, run[..|run| - 1])
           case Some(m) => Careful(m, run[|run| - 1])
           case None => true)
  }

  lemma StepKeepsOwned(cfg: Settings, s: Sys, a: Action)
    requires Consistent(s.pool) && Owned(s) && Enabled(s, a) && Careful(s, a)
    ensures Owned(Step(cfg, s, a))
  {
    hide Consistent, InUse, Names, Free, Insert, Return, Sweep, TakeIdle;
    PartsOf(s.pool);
    match a
    case Look(t, valid, now) => TakeIdleKeeps(s.pool, valid, now);
    case Connected(t, c, now) => InsertKeeps(s.pool, c, now);
    case Release(t, c, usable, now) => ReturnKeeps(s.pool, c, usable, now);
    case Cleanup(clock) => SweepKeeps(cfg, s.pool, clock);
    case _ =>
  }

  /** From a state in which every connection in use has its one holder, careful threads keep it so. */
  lemma {:induction false} StaysOwned(cfg: Settings, k: nat, s: Sys, run: seq<Action>)
    requires Good(cfg, k, s) && Owned(s) && CarefulRun(cfg, s, run)
    ensures match From(cfg, s, run) case Some(m) => Owned(m) case None => true
  {
    hide Good, Owned, Step, Careful;
    if run != [] {
      var front, a := run[..|run| - 1], run[|run| - 1];
      StaysOwned(cfg, k, s, front);
      StaysGood(cfg, k, s, front);
      match From(cfg, s, front) {
        case None =>
        case Some(m) => if Enabled(m, a) { GoodParts(cfg, k, m); StepKeepsOwned(cfg, m, a); }
      }
    }
  }

  lemma GoodParts(cfg: Settings, k: nat, s: Sys)
    requires Good(cfg, k, s)
    ensures Consistent(s.pool)
  {
  }

  /** No connection ever has two holders while every thread releases only what it holds, or what
      nobody holds. */
  lemma OneHolderThroughout(cfg: Settings, k: nat, run: seq<Action>)
    requires CarefulRun(cfg, Start(k), run)
    ensures match After(cfg, k, run) case Some(s) => Owned(s) case None => true
  {
    hide From, CarefulRun, Good;
    StartIsGood(cfg, k);
    NoNames();
    StaysOwned(cfg, k, Start(k), run);
  }

  lemma Onward(cfg: Settings, s: Sys, run: seq<Action>, a: Action)
    requires From(cfg, s, run).Some? && Enabled(From(cfg, s, run).value, a)
    ensures From(cfg, s, run + [a]) == Some(Step(cfg, From(cfg, s, run).value, a))
    ensures CarefulRun(cfg, s, run) && !a.Release? ==> CarefulRun(cfg, s, run + [a])
  {
    assert (run + [a])[..|run|] == run;
  }

  /** A thread that may take the mutex for its look at the idle queue soon will. */
  lemma ComesToLook(cfg: Settings, s: Sys, w: nat) returns (run: seq<Action>)
    requires w < |s.callers|
    ensures CarefulRun(cfg, s, run) && From(cfg, s, run) == Some(s.(callers := s.callers[w := Waiting]))
  {
    run := [];
    assert From(cfg, s, []) == Some(s);
    match s.callers[w] {
      case Waiting => assert s.callers[w := Waiting] == s.callers;
      case Outside =>
        Onward(cfg, s, [], Enter(w));
        run := [] + [Enter(w)];
      case Connecting =>
        Onward(cfg, s, [], ConnectFailed(w));
        run := [] + [ConnectFailed(w)];
    }
  }

  /** A queued connection can be handed to any thread. */
  lemma HandedTo(cfg: Settings, s: Sys, w: nat, c: Conn) returns (run: seq<Action>)
    requires w < |s.callers| && c in s.pool.idle
    ensures CarefulRun(cfg, s, run)
    ensures var m := From(cfg, s, run); m.Some? && (w, c) in m.value.holders && s.holders <= m.value.holders
  {
    hide TakeIdle;
    run := ComesToLook(cfg, s, w);
    TakeIdleIsFirst(s.pool, {c}, 0);
    Onward(cfg, s, run, Look(w, {c}, 0));
    run := run + [Look(w, {c}, 0)];
  }

  /** One careless release suffices. Whatever has happened before, as long as it was careful:
      releasing a usable connection is harmless, however careful threads go on, exactly when the
      releasing thread holds it or nobody does (or there is only one thread). */
  lemma ReleaseIsHarmlessExactly(cfg: Settings, k: nat, past: seq<Action>, s: Sys, t: nat, c: Conn, now: int)
    requires CarefulRun(cfg, Start(k), past) && After(cfg, k, past) == Some(s)
    ensures Careful(s, Release(t, c, true, now)) || k <= 1 <==>
      forall run :: Harmless(cfg, Step(cfg, s, Release(t, c, true, now)), run)
  {
    hide From, CarefulRun, Good, Owned, OneHolder, Return;
    var a := Release(t, c, true, now);
    OneHolderThroughout(cfg, k, past);
    RunsAreGood(cfg, k, past);
    StepKeepsGood(cfg, k, s, a);
    var s' := Step(cfg, s, a);
    if Careful(s, a) || k <= 1 {
      if Careful(s, a) {
        GoodParts(cfg, k, s);
        StepKeepsOwned(cfg, s, a);
      }
      forall run ensures Harmless(cfg, s', run) {
        HarmlessWhen(cfg, k, s', run);
      }
    } else {
      var u: nat :| (u, c) in s.holders;
      CarelessQueues(cfg, k, s, t, u, c, now);
      var w := if u == 0 then 1 else 0;
      assert |s'.callers| == k by { CallersOf(cfg, k, s'); }
      var run := HandedTo(cfg, s', w, c);
      TwoHold(From(cfg, s', run).value, u, w, c);
      assert !Harmless(cfg, s', run);
    }
  }

  ghost predicate Harmless(cfg: Settings, s: Sys, run: seq<Action>) {
    CarefulRun(cfg, s, run) ==> match From(cfg, s, run) case Some(m) => OneHolder(m) case None => true
  }

  lemma HarmlessWhen(cfg: Settings, k: nat, s: Sys, run: seq<Action>)
    requires Good(cfg, k, s) && (Owned(s) || k <= 1)
    ensures Harmless(cfg, s, run)
  {
    StaysGood(cfg, k, s, run);
    if Owned(s) && CarefulRun(cfg, s, run) {
      StaysOwned(cfg, k, s, run);
    }
  }

  lemma CallersOf(cfg: Settings, k: nat, s: Sys)
    requires Good(cfg, k, s)
    ensures |s.callers| == k
  {
  }

  lemma TwoHold(s: Sys, u: nat, w: nat, c: Conn)
    requires u != w && (u, c) in s.holders && (w, c) in s.holders
    ensures !OneHolder(s)
  {
  }

  /** A usable connection released by another thread than its holder is queued, and held. */
  lemma CarelessQueues(cfg: Settings, k: nat, s: Sys, t: nat, u: nat, c: Conn, now: int)
    requires Good(cfg, k, s) && Owned(s) && t != u && (u, c) in s.holders
    ensures var s' := Step(cfg, s, Release(t, c, true, now)); c in s'.pool.idle && (u, c) in s'.holders
  {
    hide Mark;
    GoodParts(cfg, k, s);
    ConsistentSlot(s.pool, c);
  }

  lemma ConsistentSlot(p: Pool, c: Conn)
    requires Consistent(p) && c in InUse(p.all)
    ensures IndexOf(p.all, c) < |p.all| && p.all[IndexOf(p.all, c)].inUse
  {
    SlotOf(p.all, c);
  }

  // The careless run of two threads and connection 7.

  const USED := Pool([Slot(7, true, 0)], [], 1)
  const QUEUED := Pool([Slot(7, false, 0)], [7], 0)

  lemma Seven()
    ensures TakeIdle(EMPTY, {}, 0) == (EMPTY, None) && Insert(EMPTY, 7, 0) == USED && 7 !in Names([])
    ensures Return(USED, 7, true, 0) == QUEUED && TakeIdle(QUEUED, {7}, 0) == (USED, Some(7))
  {
    assert QUEUED.idle[1..] == [] && Mark(QUEUED.all, 7, true, 0) == USED.all;
  }

  lemma Then(cfg: Settings, run: seq<Action>, s: Sys, a: Action, s': Sys)
    requires After(cfg, 2, run) == Some(s) && Enabled(s, a) && Step(cfg, s, a) == s'
    ensures After(cfg, 2, run + [a]) == Some(s')
  {
    Onward(cfg, Start(2), run, a);
  }

  const FIRST_USE := [Enter(0), Look(0, {}, 0), Connected(0, 7, 0), Release(0, 7, true, 0)]
  const SECOND_USE := FIRST_USE + [Enter(1), Look(1, {7}, 0)]

  lemma FirstUse(cfg: Settings)
    requires cfg.max > 0
    ensures After(cfg, 2, FIRST_USE) == Some(Sys(QUEUED, [Outside, Outside], {}, {}))
  {
    Seven();
    hide TakeIdle, Insert, Return, Names, From;
    assert After(cfg, 2, []) == Some(Sys(EMPTY, [Outside, Outside], {}, {})) by {
      NoSteps(cfg);
    }
    Then(cfg, [], Sys(EMPTY, [Outside, Outside], {}, {}), Enter(0), Sys(EMPTY, [Waiting, Outside], {}, {}));
    assert [] + [Enter(0)] == FIRST_USE[..1] && FIRST_USE[..1] + [FIRST_USE[1]] == FIRST_USE[..2];
    assert FIRST_USE[..2] + [FIRST_USE[2]] == FIRST_USE[..3] && FIRST_USE[..3] + [FIRST_USE[3]] == FIRST_USE;
    Then(cfg, FIRST_USE[..1], Sys(EMPTY, [Waiting, Outside], {}, {}), Look(0, {}, 0),
      Sys(EMPTY, [Connecting, Outside], {}, {}));
    Then(cfg, FIRST_USE[..2], Sys(EMPTY, [Connecting, Outside], {}, {}), Connected(0, 7, 0),
      Sys(USED, [Outside, Outside], {7}, {(0, 7)}));
    Then(cfg, FIRST_USE[..3], Sys(USED, [Outside, Outside], {7}, {(0, 7)}), Release(0, 7, true, 0),
      Sys(QUEUED, [Outside, Outside], {}, {}));
  }

  lemma NoSteps(cfg: Settings)
    ensures After(cfg, 2, []) == Some(Sys(EMPTY, [Outside, Outside], {}, {}))
  {
    assert seq(2, _ => Outside) == [Outside, Outside];
  }

  lemma SecondUse(cfg: Settings)
    requires cfg.max > 0
    ensures After(cfg, 2, SECOND_USE) == Some(Sys(USED, [Outside, Outside], {7}, {(1, 7)}))
  {
    Seven();
    FirstUse(cfg);
    hide TakeIdle, Insert, Return, Names, From;
    Then(cfg, FIRST_USE, Sys(QUEUED, [Outside, Outside], {}, {}), Enter(1), Sys(QUEUED, [Outside, Waiting], {}, {}));
    Then(cfg, FIRST_USE + [Enter(1)], Sys(QUEUED, [Outside, Waiting], {}, {}), Look(1, {7}, 0),
      Sys(USED, [Outside, Outside], {7}, {(1, 7)}));
    assert FIRST_USE + [Enter(1)] + [Look(1, {7}, 0)] == SECOND_USE;
  }

  /** A concrete run: thread 0 acquires a connection and releases it twice, the second time after
      thread 1 has got it, as the client's exception path may. Then both hold it. */
  lemma SecondReleaseShares(cfg: Settings)
    requires cfg.max > 0
    ensures After(cfg, 2, SECOND_USE + [Release(0, 7, true, 0), Enter(0), Look(0, {7}, 0)])
         == Some(Sys(USED, [Outside, Outside], {7}, {(0, 7), (1, 7)}))
  {
    Seven();
    SecondUse(cfg);
    hide TakeIdle, Insert, Return, Names, From;
    var release, queued := SECOND_USE + [Release(0, 7, true, 0)], Sys(QUEUED, [Outside, Outside], {}, {(1, 7)});
    Then(cfg, SECOND_USE, Sys(USED, [Outside, Outside], {7}, {(1, 7)}), Release(0, 7, true, 0), queued);
    Then(cfg, release, queued, Enter(0), queued.(callers := [Waiting, Outside]));
    Then(cfg, release + [Enter(0)], queued.(callers := [Waiting, Outside]), Look(0, {7}, 0),
      Sys(USED, [Outside, Outside], {7}, {(0, 7), (1, 7)}));
    assert release + [Enter(0)] + [Look(0, {7}, 0)]
        == SECOND_USE + [Release(0, 7, true, 0), Enter(0), Look(0, {7}, 0)];
  }

  // ------------------------------------------------------------- the bound is exact

  /** n connections, all in use. */
  function Busy(n: nat): Pool {
    Pool(seq(n, i requires 0 <= i < n => Slot(i, true, 0)), [], n)
  }

  /** The first t of k callers are in stage a, the others in stage b. */
  function Split(k: nat, t: nat, a: Stage, b: Stage): seq<Stage> {
    seq(k, i => if i < t then a else b)
  }

  /** n connections, all in use, and the callers in these stages. */
  ghost predicate Holds(s: Option<Sys>, n: nat, callers: seq<Stage>) {
    s.Some? && s.value.pool == Busy(n) && s.value.callers == callers
  }

  lemma BusyNames(n: nat)
    ensures n !in Names(Busy(n).all) && Insert(Busy(n), n, 0) == Busy(n + 1)
  {
  }

  lemma StartEmpty(cfg: Settings, k: nat) returns (run: seq<Action>)
    ensures Holds(After(cfg, k, run), 0, Split(k, 0, Connecting, Outside))
  {
    run := [];
    assert Start(k).pool == Busy(0) && Start(k).callers == Split(k, 0, Connecting, Outside);
  }

  /** One caller acquires n connections and keeps them. */
  lemma {:induction false} FillUp(cfg: Settings, k: nat, n: nat) returns (run: seq<Action>)
    requires k > 0 && n <= cfg.max
    ensures Holds(After(cfg, k, run), n, Split(k, 0, Connecting, Outside))
  {
    hide After, Busy, Below;
    if n == 0 {
      run := StartEmpty(cfg, k);
    } else {
      run := FillUp(cfg, k, n - 1);
      run := StartConnecting(cfg, k, n - 1, 0, run);
      assert Split(k, 1, Connecting, Outside)[0 := Outside] == Split(k, 0, Connecting, Outside);
      run := Connects(cfg, k, n - 1, 0, Split(k, 1, Connecting, Outside), run);
    }
  }

  /** Caller t comes back with a connection. */
  lemma Connects(cfg: Settings, k: nat, n: nat, t: nat, callers: seq<Stage>, run: seq<Action>)
    returns (run': seq<Action>)
    requires t < |callers| && callers[t] == Connecting
    requires Holds(After(cfg, k, run), n, callers)
    ensures Holds(After(cfg, k, run'), n + 1, callers[t := Outside])
  {
    hide Busy, Insert, Names;
    BusyNames(n);
    run' := run + [Connected(t, n, 0)];
    Onward(cfg, Start(k), run, Connected(t, n, 0));
  }

  /** Caller t finds room in the pool and goes off to connect. */
  lemma StartConnecting(cfg: Settings, k: nat, n: nat, t: nat, run: seq<Action>) returns (run': seq<Action>)
    requires t < k && n < cfg.max
    requires Holds(After(cfg, k, run), n, Split(k, t, Connecting, Outside))
    ensures Holds(After(cfg, k, run'), n, Split(k, t + 1, Connecting, Outside))
  {
    Onward(cfg, Start(k), run, Enter(t));
    run' := run + [Enter(t)];
    Onward(cfg, Start(k), run', Look(t, {}, 0));
    run' := run' + [Look(t, {}, 0)];
    assert Split(k, t, Connecting, Outside)[t := Waiting][t := Connecting] == Split(k, t + 1, Connecting, Outside);
  }

  lemma {:induction false} AllConnecting(cfg: Settings, k: nat, t: nat) returns (run: seq<Action>)
    requires 0 < k && t <= k && 0 < cfg.max
    ensures Holds(After(cfg, k, run), cfg.max - 1, Split(k, t, Connecting, Outside))
  {
    hide After, Busy, Below;
    if t == 0 {
      run := FillUp(cfg, k, cfg.max - 1);
    } else {
      run := AllConnecting(cfg, k, t - 1);
      run := StartConnecting(cfg, k, cfg.max - 1, t - 1, run);
    }
  }

  lemma {:induction false} AllConnected(cfg: Settings, k: nat, t: nat) returns (run: seq<Action>)
    requires 0 < k && t <= k && 0 < cfg.max
    ensures Holds(After(cfg, k, run), cfg.max - 1 + t, Split(k, t, Outside, Connecting))
  {
    hide After, Busy, Below;
    if t == 0 {
      run := AllConnecting(cfg, k, k);
      assert Split(k, k, Connecting, Outside) == Split(k, 0, Outside, Connecting);
    } else {
      run := AllConnected(cfg, k, t - 1);
      run := Connects(cfg, k, cfg.max - 1 + t - 1, t - 1, Split(k, t - 1, Outside, Connecting), run);
      assert Split(k, t - 1, Outside, Connecting)[t - 1 := Outside] == Split(k, t, Outside, Connecting);
    }
  }

  /** The limit is not checked again after the lock is retaken, and that is felt: some run of
      k callers ends with max + k - 1 pooled connections. With RunsAreGood, every run respects
      the limit exactly when at most one thread acquires at a time (or none ever connects). */
  lemma LimitHoldsExactly(cfg: Settings, k: nat)
    ensures k <= 1 || cfg.max == 0 <==> forall run :: WithinLimit(cfg, After(cfg, k, run))
    ensures k > 0 && cfg.max > 0 ==> exists run :: Pooled(After(cfg, k, run), cfg.max + k - 1)
  {
    if k > 0 && cfg.max > 0 {
      var run := AllConnected(cfg, k, k);
      assert Pooled(After(cfg, k, run), cfg.max + k - 1);
    }
    if k <= 1 || cfg.max == 0 {
      forall run ensures WithinLimit(cfg, After(cfg, k, run)) {
        WithinLimitWhen(cfg, k, run);
      }
    } else {
      var run := AllConnected(cfg, k, k);
      assert !WithinLimit(cfg, After(cfg, k, run));
    }
  }

  ghost predicate Pooled(s: Option<Sys>, n: nat) {
    s.Some? && |s.value.pool.all| == n
  }

  lemma WithinLimitWhen(cfg: Settings, k: nat, run: seq<Action>)
    requires k <= 1 || cfg.max == 0
    ensures WithinLimit(cfg, After(cfg, k, run))
  {
    hide After, Consistent;
    if k == 1 {
      RunsAreGood(cfg, k, run);
    } else {
      NobodyConnects(cfg, k, run);
      match After(cfg, k, run) {
        case None =>
        case Some(s) => assert Unused(k, s) ==> InProgress(s.callers) == {};
      }
    }
  }

  ghost predicate WithinLimit(cfg: Settings, s: Option<Sys>) {
    match s
    case Some(s) => |s.pool.all| + |InProgress(s.callers)| <= cfg.max
    case None => true
  }

  ghost predicate Unused(k: nat, s: Sys) {
    s.pool == EMPTY && |s.callers| == k && forall t :: 0 <= t < k ==> s.callers[t] != Connecting
  }

  lemma StaysUnused(cfg: Settings, k: nat, s: Sys, a: Action)
    requires (k == 0 || cfg.max == 0) && Unused(k, s) && Enabled(s, a)
    ensures Unused(k, Step(cfg, s, a))
  {
    match a
    case Release(_, c, _, _) => assert IndexOf(EMPTY.all, c) == 0;
    case _ =>
  }

  lemma {:induction false} NobodyConnects(cfg: Settings, k: nat, run: seq<Action>)
    requires k == 0 || cfg.max == 0
    ensures match After(cfg, k, run) case Some(s) => Unused(k, s) case None => true
  {
    hide Step, Unused;
    if run == [] {
      StartIsUnused(k);
    } else {
      var front, a := run[..|run| - 1], run[|run| - 1];
      NobodyConnects(cfg, k, front);
      match After(cfg, k, front) {
        case None =>
        case Some(s) => if Enabled(s, a) { StaysUnused(cfg, k, s, a); }
      }
    }
  }

  lemma StartIsUnused(k: nat)
    ensures Unused(k, Start(k))
  {
  }
}
