/**
 The step system and the critical sections of the thread pool are the same code: what one thread does
 when nobody interrupts it.
 */
module ThreadPoolSolo {
  import opened ThreadPool

  /** The same action n times. */
  function Times(s: State, a: Action, n: nat): State
    decreases n
  {
    if n == 0 then s else Times(Apply(s, a), a, n - 1)
  }

  lemma {:induction false} TimesAdd(s: State, a: Action, m: nat, n: nat)
    ensures Times(s, a, m + n) == Times(Times(s, a, m), a, n)
    decreases m
  {
    if m > 0 {
      TimesAdd(Apply(s, a), a, m - 1, n);
    }
  }

  lemma Twice(s: State, a: Action)
    ensures Times(s, a, 2) == Apply(Apply(s, a), a)
  {
    assert Times(Apply(s, a), a, 1) == Times(Apply(Apply(s, a), a), a, 0);
  }

  lemma SameWorker(ws: seq<Worker>, i: nat, a: Worker, b: Worker)
    requires i < |ws|
    ensures ws[i := a][i := b] == ws[i := b]
  {}

  lemma SameSubmitter(xs: seq<Submitter>, j: nat, a: Submitter, b: Submitter)
    requires j < |xs|
    ensures xs[j := a][j := b] == xs[j := b]
  {}

  /** Locking, testing the predicate and deciding to take: four steps on either path. */
  lemma ReachTake(s: State, i: nat)
    requires i < |s.workers| && s.workers[i].WantLock? && s.owner.Free? && s.tasks != []
    ensures var d := Times(s, StepWorker(i), 2);
      d == s.(owner := ByWorker(i), workers := s.workers[i := if s.stop then PredTrue else TestQueue])
    ensures var d := s.(owner := ByWorker(i), workers := s.workers[i := if s.stop then PredTrue else TestQueue]);
      Times(d, StepWorker(i), 2) == s.(owner := ByWorker(i), workers := s.workers[i := TakeTask])
  {
    var w := StepWorker(i);
    Twice(s, w);
    SameWorker(s.workers, i, TestStop, if s.stop then PredTrue else TestQueue);
    var d := s.(owner := ByWorker(i), workers := s.workers[i := if s.stop then PredTrue else TestQueue]);
    Twice(d, w);
    SameWorker(s.workers, i, if s.stop then PredTrue else TestQueue, if s.stop then TestExit else PredTrue);
    SameWorker(s.workers, i, if s.stop then TestExit else PredTrue, TakeTask);
  }

  lemma TakeAndRun(s: State, i: nat)
    requires i < |s.workers| && s.workers[i].TakeTask? && s.tasks != []
    ensures Times(s, StepWorker(i), 2)
         == s.(owner := Free, tasks := s.tasks[1..], taken := s.taken + [s.tasks[0]],
               workers := s.workers[i := Running(s.tasks[0])])
  {
    var w := StepWorker(i);
    Twice(s, w);
    var s1 := s.(tasks := s.tasks[1..], taken := s.taken + [s.tasks[0]], workers := s.workers[i := Popped(s.tasks[0])]);
    assert Apply(s, w) == s1;
    SameWorker(s.workers, i, Popped(s.tasks[0]), Running(s.tasks[0]));
    assert Apply(s1, w) == s1.(owner := Free, workers := s.workers[i := Running(s.tasks[0])]);
  }

  /** A worker left alone with a non-empty queue takes the oldest task, runs it and comes back. */
  lemma SoloWorker(s: State, i: nat)
    requires i < |s.workers| && s.workers[i].WantLock? && s.owner.Free? && s.tasks != []
    ensures Times(s, StepWorker(i), 7)
         == s.(tasks := s.tasks[1..], taken := s.taken + [s.tasks[0]], ran := s.ran + [s.tasks[0]])
  {
    var w := StepWorker(i);
    ReachTake(s, i);
    TimesAdd(s, w, 2, 2);
    var s4 := Times(s, w, 4);
    TakeAndRun(s4, i);
    SameWorker(s.workers, i, TakeTask, Running(s.tasks[0]));
    TimesAdd(s, w, 4, 2);
    var s6 := Times(s, w, 6);
    TimesAdd(s, w, 6, 1);
    assert Times(s6, w, 1) == Apply(s6, w) by {
      assert Times(Apply(s6, w), w, 0) == Apply(s6, w);
    }
    SameWorker(s.workers, i, Running(s.tasks[0]), WantLock);
    assert s.workers[i := WantLock] == s.workers;
  }

  /** A call of submit without interference, up to its push. */
  lemma ReachPush(s: State, j: nat, task: Task, woken: nat)
    requires j < |s.submitters| && s.submitters[j].Idle? && s.owner.Free?
    ensures var d := Times(Apply(s, Submit(j, task)), StepSubmitter(j, woken), 2);
      d == if s.stop then s else s.(owner := BySubmitter(j), submitters := s.submitters[j := Push(task)])
  {
    Twice(Apply(s, Submit(j, task)), StepSubmitter(j, woken));
    SameSubmitter(s.submitters, j, SubmitLock(task), CheckStop(task));
    SameSubmitter(s.submitters, j, CheckStop(task), if s.stop then Submitter.Idle else Push(task));
    assert s.submitters[j := Submitter.Idle] == s.submitters;
  }

  lemma PushAndUnlock(s: State, j: nat, task: Task, woken: nat)
    requires j < |s.submitters| && s.submitters[j] == Push(task)
    ensures Times(s, StepSubmitter(j, woken), 2)
         == s.(owner := Free, tasks := s.tasks + [task], accepted := s.accepted + [task],
               submitters := s.submitters[j := Notify])
  {
    Twice(s, StepSubmitter(j, woken));
    SameSubmitter(s.submitters, j, SubmitUnlock, Notify);
  }

  /** A stopped pool refuses and is unchanged; otherwise the task is queued last and a sleeper is woken. */
  lemma SoloSubmit(s: State, j: nat, task: Task, woken: nat)
    requires j < |s.submitters| && s.submitters[j].Idle? && s.owner.Free?
    requires SomeAsleep(s.workers) ==> woken < |s.workers| && s.workers[woken].Asleep?
    ensures var call := Apply(s, Submit(j, task));
      if s.stop then Times(call, StepSubmitter(j, woken), 2) == s
      else Times(call, StepSubmitter(j, woken), 5)
           == s.(tasks := s.tasks + [task], accepted := s.accepted + [task],
                 workers := if SomeAsleep(s.workers) then s.workers[woken := WantLock] else s.workers)
  {
    ReachPush(s, j, task, woken);
    if !s.stop {
      var x, call := StepSubmitter(j, woken), Apply(s, Submit(j, task));
      var s2 := Times(call, x, 2);
      PushAndUnlock(s2, j, task, woken);
      SameSubmitter(s.submitters, j, Push(task), Notify);
      TimesAdd(call, x, 2, 2);
      var s4 := Times(call, x, 4);
      TimesAdd(call, x, 4, 1);
      assert Times(s4, x, 1) == Apply(s4, x) by {
        assert Times(Apply(s4, x), x, 0) == Apply(s4, x);
      }
      SameSubmitter(s.submitters, j, Notify, Submitter.Idle);
      assert s.submitters[j := Submitter.Idle] == s.submitters;
    }
  }
}
