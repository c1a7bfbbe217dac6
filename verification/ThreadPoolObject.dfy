/** src/util/thread_pool as an object: what one critical section, and a worker left alone, do. */
module ThreadPoolObject {
  import opened Seqs
  import opened ThreadPool

  class Pool {
    var tasks: seq<Task>
    var stop: bool

    constructor ()
      ensures tasks == [] && !stop
    {
      tasks, stop := [], false;
    }

    /** Throws, here `accepted == false`, once the pool has been stopped. */
    method Submit(task: Task) returns (accepted: bool)
      modifies this
      ensures stop == old(stop) && accepted == !old(stop)
      ensures tasks == if accepted then old(tasks) + [task] else old(tasks)
    {
      if stop {
        return false;
      }
      tasks := tasks + [task];
      return true;
    }

    /** The loop of a worker that nobody disturbs: it ends in the wait, or returns once `stop_` is set. */
    method WorkerLoop() returns (ran: seq<Task>, waits: bool)
      modifies this
      ensures ran == old(tasks) && tasks == []
      ensures stop == old(stop) && waits == !stop
    {
      ran := [];
      Nil(tasks);
      while true
        invariant stop == old(stop) && ran + tasks == old(tasks)
        decreases |tasks|
      {
        if !stop && tasks == [] {
          Nil(ran);
          return ran, true;
        }
        if stop && tasks == [] {
          Nil(ran);
          return ran, false;
        }
        var task := tasks[0];
        Uncons(tasks);
        Assoc(ran, [task], tasks[1..]);
        tasks := tasks[1..];
        ran := ran + [task];
      }
    }
  }
}
