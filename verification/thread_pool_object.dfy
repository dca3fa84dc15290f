/** The shared fields of the thread pool, changed in place (common/thread_pool.h,
    common/thread_pool.cpp), against the sections of ThreadPool. */
module ThreadPoolObject {
  import opened ThreadPool

  class TaskPool {
    var tasks: seq<Task>
    var stopped: bool
    var activeThreads: int
    var pendingTasks: int

    ghost function View(): Shared
      reads this
    {
      Shared(tasks, stopped, activeThreads, pendingTasks)
    }

    constructor ()
      ensures View() == NEW
    {
      tasks, stopped, activeThreads, pendingTasks := [], false, 0, 0;
    }

    /** The caller gets an exception when the answer is false. */
    method Enqueue(t: Task) returns (ok: bool)
      modifies this
      ensures (View(), ok) == Enqueued(old(View()), t)
    {
      if stopped {
        return false;
      }
      tasks := tasks + [t];
      pendingTasks := pendingTasks + 1;
      ok := true;
    }

    /** A worker with the mutex in hand: wait, return, or take the oldest task. */
    method NextTask() returns (taken: Taken)
      modifies this
      ensures (View(), taken) == TakeNext(old(View()))
    {
      if !(stopped || tasks != []) {
        return Sleep;
      }
      if stopped && tasks == [] {
        return Leave;
      }
      taken := Got(tasks[0]);
      tasks := tasks[1..];
      pendingTasks := pendingTasks - 1;
    }

    method Stop()
      modifies this
      ensures View() == old(View()).(stop := true)
    {
      if stopped {
        return;
      }
      stopped := true;
    }

    /** The worker loop, left alone until it waits or returns: it runs all that is queued, oldest
        first, and leaves the counters as they should be. */
    method WorkerLoop() returns (executed: seq<Task>, returned: bool)
      requires pendingTasks == |tasks|
      modifies this
      ensures executed == old(tasks) && (returned <==> old(stopped))
      ensures View() == Shared([], old(stopped), old(activeThreads), 0)
    {
      executed := [];
      while true
        invariant executed + tasks == old(tasks) && pendingTasks == |tasks|
        invariant stopped == old(stopped) && activeThreads == old(activeThreads)
        decreases |tasks|
      {
        var taken := NextTask();
        match taken {
          case Sleep => return executed, false;
          case Leave => return executed, true;
          case Got(task) =>
            activeThreads := activeThreads + 1;
            executed := executed + [task];  // the task runs here
            activeThreads := activeThreads - 1;
        }
      }
    }
  }
}
