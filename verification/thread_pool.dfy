/** The task queue and its workers (common/thread_pool.h, common/thread_pool.cpp) as a state
    machine: each step is one section under queue_mutex_, or one access to an atomic counter. */
module ThreadPool {
  import opened Common

  type Task = nat

  /** The fields that the threads share. */
  datatype Shared = Shared(tasks: seq<Task>, stop: bool, active: int, pending: int)

  const NEW := Shared([], false, 0, 0)

  datatype Taken = Sleep | Leave | Got(task: Task)

  // -------------------------------------------------------------------- sections

  function Enqueued(s: Shared, t: Task): (Shared, bool) {
    if s.stop then (s, false) else (s.(tasks := s.tasks + [t], pending := s.pending + 1), true)
  }

  /** What a worker does once it holds the mutex. */
  function TakeNext(s: Shared): (Shared, Taken) {
    if !s.stop && s.tasks == [] then (s, Sleep)
    else if s.tasks == [] then (s, Leave)
    else (s.(tasks := s.tasks[1..], pending := s.pending - 1), Got(s.tasks[0]))
  }

  // ------------------------------------------------------------ the whole system

  datatype Worker =
    | Ready
    | Holding(task: Task)  // taken from the queue, not yet counted as active
    | Running(task: Task)
    | Finishing            // the task has run, the worker still counts as active
    | Done

  /** accepted, taken and ran list the tasks in the order of those events. */
  datatype Sys = Sys(shared: Shared, workers: seq<Worker>, accepted: seq<Task>, taken: seq<Task>, ran: seq<Task>)

  datatype Action =
    | Enqueue(task: Task)
    | Take(w: nat)
    | Begin(w: nat)
    | Run(w: nat)
    | End(w: nat)
    | Stop

  function Start(n: nat): Sys {
    Sys(NEW, seq(n, _ => Ready), [], [], [])
  }

  predicate Enabled(s: Sys, a: Action) {
    match a
    case Enqueue(_) => true
    case Take(w) => w < |s.workers| && s.workers[w].Ready?
    case Begin(w) => w < |s.workers| && s.workers[w].Holding?
    case Run(w) => w < |s.workers| && s.workers[w].Running?
    case End(w) => w < |s.workers| && s.workers[w].Finishing?
    case Stop => true
  }

  function Step(s: Sys, a: Action): Sys
    requires Enabled(s, a)
  {
    match a
    case Enqueue(t) =>
      var (shared, ok) := Enqueued(s.shared, t);
      s.(shared := shared, accepted := if ok then s.accepted + [t] else s.accepted)
    case Take(w) =>
      var (shared, taken) := TakeNext(s.shared);
      (match taken
       case Sleep => s
       case Leave => s.(workers := s.workers[w := Done])
       case Got(t) => s.(shared := shared, workers := s.workers[w := Holding(t)], taken := s.taken + [t]))
    case Begin(w) =>
      s.(shared := s.shared.(active := s.shared.active + 1), workers := s.workers[w := Running(s.workers[w].task)])
    case Run(w) => s.(workers := s.workers[w := Finishing], ran := s.ran + [s.workers[w].task])
    case End(w) => s.(shared := s.shared.(active := s.shared.active - 1), workers := s.workers[w := Ready])
    case Stop => s.(shared := s.shared.(stop := true))
  }

  function After(n: nat, run: seq<Action>): Option<Sys> {
    if run == [] then Some(Start(n))
    else
      match After(n, run[..|run| - 1])
      case None => None
      case Some(s) => if Enabled(s, run[|run| - 1]) then Some(Step(s, run[|run| - 1])) else None
  }

  // ------------------------------------------------------------------ invariants

  function HeldBy(w: Worker): multiset<Task> {
    if w.Holding? || w.Running? then multiset{w.task} else multiset{}
  }

  function Held(ws: seq<Worker>): multiset<Task> {
    if ws == [] then multiset{} else Held(ws[..|ws| - 1]) + HeldBy(ws[|ws| - 1])
  }

  predicate IsActive(w: Worker) {
    w.Running? || w.Finishing?
  }

  function ActiveOf(ws: seq<Worker>): nat {
    if ws == [] then 0 else ActiveOf(ws[..|ws| - 1]) + (if IsActive(ws[|ws| - 1]) then 1 else 0)
  }

  ghost predicate Balanced(ws: seq<Worker>, taken: seq<Task>, ran: seq<Task>) {
    multiset(taken) == Held(ws) + multiset(ran)
  }

  /** Nothing is lost and nothing runs twice: every accepted task is queued, held by a worker or
      has run; the tasks were taken in the order in which they were accepted; the counters say
      what they should; and a worker that has left proves the queue drained for good. */
  ghost predicate Sound(n: nat, s: Sys) {
    && |s.workers| == n
    && s.accepted == s.taken + s.shared.tasks
    && Balanced(s.workers, s.taken, s.ran)
    && s.shared.pending == |s.shared.tasks|
    && s.shared.active == ActiveOf(s.workers)
    && (Done in s.workers ==> s.shared.stop && s.shared.tasks == [])
  }

  lemma Reorder(a: multiset<Task>, b: multiset<Task>, c: multiset<Task>)
    ensures a + b + c == a + c + b
  {
  }

  lemma {:induction false} HeldChange(ws: seq<Worker>, i: nat, x: Worker)
    requires i < |ws|
    ensures Held(ws[i := x]) + HeldBy(ws[i]) == Held(ws) + HeldBy(x)
  {
    hide HeldBy;
    var front, last := ws[..|ws| - 1], ws[|ws| - 1];
    if i == |ws| - 1 {
      assert ws[i := x][..|ws| - 1] == front;
    } else {
      assert ws[i := x][..|ws| - 1] == front[i := x];
      HeldChange(front, i, x);
      Reorder(Held(front[i := x]), HeldBy(last), HeldBy(ws[i]));
      Reorder(Held(front), HeldBy(last), HeldBy(x));
    }
  }

  lemma {:induction false} ActiveChange(ws: seq<Worker>, i: nat, x: Worker)
    requires i < |ws|
    ensures ActiveOf(ws[i := x]) + (if IsActive(ws[i]) then 1 else 0) == ActiveOf(ws) + (if IsActive(x) then 1 else 0)
  {
    var front := ws[..|ws| - 1];
    if i == |ws| - 1 {
      assert ws[i := x][..|ws| - 1] == front;
    } else {
      assert ws[i := x][..|ws| - 1] == front[i := x];
      ActiveChange(front, i, x);
    }
  }

  lemma NoneMore(a: multiset<Task>)
    ensures a + multiset{} == a
  {
  }

  lemma {:induction false} NothingHeld(n: nat)
    ensures Held(seq(n, _ => Ready)) == multiset{} && ActiveOf(seq(n, _ => Ready)) == 0
  {
    if n > 0 {
      assert seq(n, _ => Ready)[..n - 1] == seq(n - 1, _ => Ready);
      NothingHeld(n - 1);
    }
  }

  lemma BalancedMove(ws: seq<Worker>, i: nat, x: Worker, taken: seq<Task>, ran: seq<Task>)
    requires i < |ws| && HeldBy(ws[i]) == HeldBy(x) && Balanced(ws, taken, ran)
    ensures Balanced(ws[i := x], taken, ran)
  {
    hide Held;
    HeldChange(ws, i, x);
    assert Held(ws[i := x]) == Held(ws) + HeldBy(x) - HeldBy(x);
  }

  lemma BalancedTake(ws: seq<Worker>, i: nat, t: Task, taken: seq<Task>, ran: seq<Task>)
    requires i < |ws| && ws[i] == Ready && Balanced(ws, taken, ran)
    ensures Balanced(ws[i := Holding(t)], taken + [t], ran)
  {
    hide Held;
    HeldChange(ws, i, Holding(t));
    NoneMore(Held(ws[i := Holding(t)]));
    Reorder(Held(ws), multiset{t}, multiset(ran));
    assert multiset(taken + [t]) == multiset(taken) + multiset{t};
  }

  lemma BalancedRun(ws: seq<Worker>, i: nat, taken: seq<Task>, ran: seq<Task>)
    requires i < |ws| && ws[i].Running? && Balanced(ws, taken, ran)
    ensures Balanced(ws[i := Finishing], taken, ran + [ws[i].task])
  {
    hide Held;
    HeldChange(ws, i, Finishing);
    NoneMore(Held(ws));
    Reorder(Held(ws[i := Finishing]), multiset{ws[i].task}, multiset(ran));
    assert multiset(ran + [ws[i].task]) == multiset(ran) + multiset{ws[i].task};
  }

  lemma TakeKeepsSound(n: nat, s: Sys, w: nat)
    requires Sound(n, s) && Enabled(s, Take(w))
    ensures Sound(n, Step(s, Take(w)))
  {
    hide ActiveOf, Balanced;
    var (shared, taken) := TakeNext(s.shared);
    match taken
    case Sleep =>
    case Leave =>
      BalancedMove(s.workers, w, Done, s.taken, s.ran);
      ActiveChange(s.workers, w, Done);
    case Got(t) =>
      BalancedTake(s.workers, w, t, s.taken, s.ran);
      ActiveChange(s.workers, w, Holding(t));
      assert s.shared.tasks == [t] + shared.tasks;
  }

  lemma RunKeepsSound(n: nat, s: Sys, w: nat)
    requires Sound(n, s) && Enabled(s, Run(w))
    ensures Sound(n, Step(s, Run(w)))
  {
    hide ActiveOf, Balanced;
    BalancedRun(s.workers, w, s.taken, s.ran);
    ActiveChange(s.workers, w, Finishing);
  }

  lemma CountKeepsSound(n: nat, s: Sys, a: Action)
    requires Sound(n, s) && Enabled(s, a) && (a.Begin? || a.End?)
    ensures Sound(n, Step(s, a))
  {
    hide ActiveOf, Balanced;
    var next := if a.Begin? then Running(s.workers[a.w].task) else Ready;
    BalancedMove(s.workers, a.w, next, s.taken, s.ran);
    ActiveChange(s.workers, a.w, next);
  }

  lemma StepKeepsSound(n: nat, s: Sys, a: Action)
    requires Sound(n, s) && Enabled(s, a)
    ensures Sound(n, Step(s, a))
  {
    hide ActiveOf, Balanced;
    match a
    case Enqueue(_) =>
    case Stop =>
    case Take(w) => TakeKeepsSound(n, s, w);
    case Run(w) => RunKeepsSound(n, s, w);
    case _ => CountKeepsSound(n, s, a);
  }

  /** The conservation and counter invariants hold in every interleaving. */
  lemma {:induction false} RunsAreSound(n: nat, run: seq<Action>)
    ensures match After(n, run) case Some(s) => Sound(n, s) case None => true
  {
    hide Sound, Step;
    if run == [] {
      StartIsSound(n);
    } else {
      RunsAreSound(n, run[..|run| - 1]);
      match After(n, run[..|run| - 1]) {
        case None =>
        case Some(s) => if Enabled(s, run[|run| - 1]) { StepKeepsSound(n, s, run[|run| - 1]); }
      }
    }
  }

  lemma StartIsSound(n: nat)
    ensures Sound(n, Start(n))
  {
    NothingHeld(n);
  }

  ghost predicate AllDone(s: Sys) {
    s.shared.stop && forall i :: 0 <= i < |s.workers| ==> s.workers[i] == Done
  }

  lemma {:induction false} DoneHoldNothing(ws: seq<Worker>)
    requires forall i :: 0 <= i < |ws| ==> ws[i] == Done
    ensures Held(ws) == multiset{}
  {
    if ws != [] {
      DoneHoldNothing(ws[..|ws| - 1]);
      assert ws[|ws| - 1] == Done;
    }
  }

  ghost predicate RanEachOnce(s: Option<Sys>) {
    match s
    case Some(s) => AllDone(s) ==> multiset(s.ran) == multiset(s.accepted)
    case None => true
  }

  /** Drain on stop: when stop is set and every worker has returned, each accepted task has run
      exactly once. This holds of every run exactly when the pool has a worker at all. */
  lemma DrainedExactly(n: nat)
    ensures n > 0 <==> forall run :: RanEachOnce(After(n, run))
  {
    if n > 0 {
      forall run ensures RanEachOnce(After(n, run)) {
        RunsAreSound(n, run);
        match After(n, run) {
          case None =>
          case Some(s) => if AllDone(s) { DrainedState(n, s); }
        }
      }
    } else {
      NeverRun();
    }
  }

  lemma DrainedState(n: nat, s: Sys)
    requires n > 0 && Sound(n, s) && AllDone(s)
    ensures multiset(s.ran) == multiset(s.accepted)
  {
    assert s.workers[0] in s.workers;
    DoneHoldNothing(s.workers);
    assert s.taken + [] == s.taken;
  }

  /** Without workers a task can be accepted, the pool stopped, and the task never run. */
  lemma NeverRun()
    ensures !RanEachOnce(After(0, [Enqueue(0), Stop]))
  {
  }

  // ----------------------------------------------------------------- stop returns

  function Work(w: Worker): nat {
    match w case Ready => 1 case Holding(_) => 4 case Running(_) => 3 case Finishing => 2 case Done => 0
  }

  function WorkOf(ws: seq<Worker>): nat {
    if ws == [] then 0 else WorkOf(ws[..|ws| - 1]) + Work(ws[|ws| - 1])
  }

  function Remaining(s: Sys): nat {
    4 * |s.shared.tasks| + WorkOf(s.workers)
  }

  lemma {:induction false} WorkChange(ws: seq<Worker>, i: nat, x: Worker)
    requires i < |ws|
    ensures WorkOf(ws[i := x]) + Work(ws[i]) == WorkOf(ws) + Work(x)
  {
    var front := ws[..|ws| - 1];
    if i == |ws| - 1 {
      assert ws[i := x][..|ws| - 1] == front;
    } else {
      assert ws[i := x][..|ws| - 1] == front[i := x];
      WorkChange(front, i, x);
    }
  }

  predicate IsWork(a: Action) {
    !a.Enqueue? && !a.Stop?
  }

  /** After stop every step of a worker brings the join in stop nearer, and nothing sets it back. */
  lemma StopMakesProgress(s: Sys, a: Action)
    requires s.shared.stop && Enabled(s, a)
    ensures Step(s, a).shared.stop
    ensures if IsWork(a) then Remaining(Step(s, a)) < Remaining(s) else Step(s, a) == s
  {
    hide WorkOf;
    match a
    case Enqueue(_) =>
    case Take(w) => WorkChange(s.workers, w, if s.shared.tasks == [] then Done else Holding(s.shared.tasks[0]));
    case Begin(w) => WorkChange(s.workers, w, Running(s.workers[w].task));
    case Run(w) => WorkChange(s.workers, w, Finishing);
    case End(w) => WorkChange(s.workers, w, Ready);
    case Stop =>
  }

  /** After stop some worker can take a step as long as one has not returned. */
  lemma StopIsNotStuck(s: Sys) returns (a: Action)
    requires s.shared.stop && !AllDone(s)
    ensures Enabled(s, a) && IsWork(a)
  {
    var w: nat :| w < |s.workers| && s.workers[w] != Done;
    a := match s.workers[w]
      case Ready => Take(w)
      case Holding(_) => Begin(w)
      case Running(_) => Run(w)
      case _ => End(w);
  }

  // ---------------------------------------------------------------- waitForCompletion

  /** The condition that waitForCompletion waits for. */
  predicate Idle(s: Sys) {
    s.shared.tasks == [] && s.shared.active == 0
  }

  /** It does not mean that all work is done: exactly the tasks that a worker has taken but not
      yet started to count may be missing. */
  lemma WaitIsExact(n: nat, run: seq<Action>)
    ensures match After(n, run)
      case Some(s) => Idle(s) ==>
        (multiset(s.ran) == multiset(s.accepted) <==> forall w :: w in s.workers ==> !w.Holding?)
      case None => true
  {
    RunsAreSound(n, run);
    match After(n, run) {
      case None =>
      case Some(s) =>
        HeldNone(s.workers);
        assert s.taken + [] == s.taken;
    }
  }

  /** The wait may end while a task is still to run: the worker has it, but counts nowhere. */
  lemma WaitEndsEarly()
    ensures var s := After(1, [Enqueue(0), Take(0)]);
      s.Some? && Idle(s.value) && s.value.accepted == [0] && multiset(s.value.ran) != multiset(s.value.accepted)
  {
    assert [Enqueue(0), Take(0)][..1] == [Enqueue(0)];
  }

  lemma {:induction false} HeldNone(ws: seq<Worker>)
    ensures ActiveOf(ws) == 0 ==> (Held(ws) == multiset{} <==> forall w :: w in ws ==> !w.Holding?)
  {
    if ws != [] {
      var front, last := ws[..|ws| - 1], ws[|ws| - 1];
      assert ws == front + [last];
      HeldNone(front);
    }
  }
}
