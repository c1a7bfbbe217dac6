/**
 When the thread pool's destructor returns. `stop_` is written without the mutex, so a worker that has
 read it as false may go to sleep after `notify_all`. Those workers, and nothing else, can keep the
 destructor waiting; without them shutdown takes a bounded number of steps.
 */
module ThreadPoolShutdown {
  import opened Basics
  import opened Seqs
  import opened Wakeup
  import opened ThreadPool

  /** Has seen `stop_` false and an empty queue, or will: on its way to sleep, or asleep. */
  ghost predicate Sleepy(s: State, w: Worker) {
    w.Asleep? || w.PredFalse? || (w.TestQueue? && s.tasks == [])
  }

  ghost predicate Clear(s: State) {
    s.dtor.Joining? && forall i :: 0 <= i < |s.workers| ==> !Sleepy(s, s.workers[i])
  }

  ghost predicate AllExited(s: State) {
    forall i :: 0 <= i < |s.workers| ==> s.workers[i].Exited?
  }

  lemma WorkerClear(s: State, i: nat)
    requires Inv(s) && Clear(s) && i < |s.workers|
    ensures Clear(WorkerStep(s, i))
  {
    assert !Sleepy(s, s.workers[i]);
  }

  lemma SubmitterClear(s: State, j: nat, woken: nat)
    requires Inv(s) && Clear(s) && j < |s.submitters|
    ensures Clear(SubmitterStep(s, j, woken))
  {}

  lemma ClearStays(s: State, a: Action)
    requires Inv(s) && Clear(s)
    ensures Clear(Apply(s, a))
  {
    match a
    case StepWorker(i) =>
      if i < |s.workers| {
        WorkerClear(s, i);
      }
    case StepSubmitter(j, woken) =>
      if j < |s.submitters| {
        SubmitterClear(s, j, woken);
      }
    case _ =>
  }

  // ---- Without such a worker, shutdown is bounded ------------------------------------------

  function WorkerRank(w: Worker): nat {
    match w
    case Popped(_) => 9
    case Running(_) => 8
    case WantLock => 7
    case TestStop => 6
    case TestQueue => 5
    case PredFalse => 5
    case PredTrue => 4
    case TestExit => 3
    case TakeTask => 2
    case Asleep => 0
    case Exited => 0
  }

  function SubmitterRank(x: Submitter): nat {
    match x
    case SubmitLock(_) => 13
    case CheckStop(_) => 12
    case Push(_) => 11
    case SubmitUnlock => 2
    case Notify => 1
    case Idle => 0
  }

  /** Steps left at most, if no further call of submit arrives. */
  function Measure(s: State): nat {
    8 * |s.tasks| + Sum(s.workers, WorkerRank) + Sum(s.submitters, SubmitterRank)
  }

  lemma WorkerRankDrops(s: State, i: nat)
    requires i < |s.workers| && !Sleepy(s, s.workers[i]) && WorkerStep(s, i) != s && s.stop
    ensures var d := WorkerStep(s, i);
      8 * |d.tasks| + WorkerRank(d.workers[i]) < 8 * |s.tasks| + WorkerRank(s.workers[i])
  {}

  lemma WorkerDecreases(s: State, i: nat)
    requires Inv(s) && Clear(s) && i < |s.workers| && WorkerStep(s, i) != s
    ensures Measure(WorkerStep(s, i)) < Measure(s)
  {
    assert !Sleepy(s, s.workers[i]);
    WorkerRankDrops(s, i);
    WorkerMovesAlone(s, i);
    SumUpdate(s.workers, i, WorkerStep(s, i).workers[i], WorkerRank);
  }

  lemma SubmitterRankDrops(s: State, j: nat, woken: nat)
    requires j < |s.submitters| && SubmitterStep(s, j, woken) != s && !SomeAsleep(s.workers)
    ensures var d := SubmitterStep(s, j, woken);
      && d.workers == s.workers && d.submitters == s.submitters[j := d.submitters[j]]
      && 8 * |d.tasks| + SubmitterRank(d.submitters[j]) < 8 * |s.tasks| + SubmitterRank(s.submitters[j])
  {}

  lemma SubmitterDecreases(s: State, j: nat, woken: nat)
    requires Clear(s) && j < |s.submitters| && SubmitterStep(s, j, woken) != s
    ensures Measure(SubmitterStep(s, j, woken)) < Measure(s)
  {
    assert forall i :: 0 <= i < |s.workers| ==> !Sleepy(s, s.workers[i]);
    SubmitterRankDrops(s, j, woken);
    SumUpdate(s.submitters, j, SubmitterStep(s, j, woken).submitters[j], SubmitterRank);
  }

  lemma StepDecreases(s: State, a: Action)
    requires Inv(s) && Clear(s) && Apply(s, a) != s
    ensures Measure(Apply(s, a)) < Measure(s) + if a.Submit? then 14 else 0
  {
    match a
    case StepWorker(i) =>
      WorkerDecreases(s, i);
    case StepSubmitter(j, woken) =>
      SubmitterDecreases(s, j, woken);
    case Submit(j, task) =>
      SumUpdate(s.submitters, j, SubmitLock(task), SubmitterRank);
    case Spurious(i) =>
      assert Sleepy(s, s.workers[i]);
    case _ =>
  }

  /** As long as a worker has not exited, somebody can make a step. */
  lemma Progress(s: State) returns (a: Action)
    requires Inv(s) && Clear(s) && !AllExited(s)
    ensures !a.Submit? && Apply(s, a) != s
  {
    match s.owner
    case ByWorker(i) =>
      assert s.workers[i].Locked() && Knows(s, s.workers[i]);
      a := StepWorker(i);
      assert WorkerStep(s, i).workers[i] != s.workers[i];
    case BySubmitter(j) =>
      assert s.submitters[j].Locked();
      a := StepSubmitter(j, 0);
      assert SubmitterStep(s, j, 0).submitters[j] != s.submitters[j];
    case Free =>
      var i :| 0 <= i < |s.workers| && !s.workers[i].Exited?;
      assert !Sleepy(s, s.workers[i]) && !s.workers[i].Locked();
      a := StepWorker(i);
      assert WorkerStep(s, i).workers[i] != s.workers[i];
  }

  /** Every action of the run changes the state. */
  ghost predicate Effective(s: State, acts: seq<Action>)
    decreases |acts|
  {
    acts == [] || (Apply(s, acts[0]) != s && Effective(Apply(s, acts[0]), acts[1..]))
  }

  function Submits(acts: seq<Action>): nat {
    if acts == [] then 0 else (if acts[0].Submit? then 1 else 0) + Submits(acts[1..])
  }

  ghost predicate Stuck(s: State) {
    forall a: Action :: a.Submit? || Apply(s, a) == s
  }

  /**
   With no worker on its way to sleep at `notify_all`, every run is at most as long as the measure
   allows, 14 more steps for each late call of submit, and can only stop when all workers have exited.
   */
  lemma {:induction false} ShutdownBounded(s: State, acts: seq<Action>)
    requires Inv(s) && Clear(s) && Effective(s, acts)
    ensures |acts| + Measure(Exec(s, acts)) <= Measure(s) + 14 * Submits(acts)
    ensures Stuck(Exec(s, acts)) ==> AllExited(Exec(s, acts))
    decreases |acts|
  {
    if acts == [] {
      if !AllExited(s) {
        var a := Progress(s);
      }
    } else {
      StepInv(s, acts[0]);
      ClearStays(s, acts[0]);
      StepDecreases(s, acts[0]);
      ShutdownBounded(Apply(s, acts[0]), acts[1..]);
    }
  }

  // ---- With such a worker, the destructor can wait for ever --------------------------------

  /** Worker i sleeps, and nobody will notify it any more. */
  ghost predicate Hung(s: State, i: nat) {
    && i < |s.workers| && s.workers[i].Asleep? && s.dtor.Joining? && s.stop
    && forall j :: 0 <= j < |s.submitters| ==> !s.submitters[j].Push? && !Owes(s.submitters[j])
  }

  lemma HungStays(s: State, i: nat, a: Action)
    requires Hung(s, i) && a != Spurious(i)
    ensures Hung(Apply(s, a), i)
  {}

  /** Only a spurious wakeup can end it. */
  lemma {:induction false} HungForever(s: State, i: nat, acts: seq<Action>)
    requires Hung(s, i) && forall a :: a in acts ==> a != Spurious(i)
    ensures Hung(Exec(s, acts), i)
    decreases |acts|
  {
    if acts != [] {
      assert acts[0] in acts && forall a :: a in acts[1..] ==> a in acts;
      HungStays(s, i, acts[0]);
      HungForever(Apply(s, acts[0]), i, acts[1..]);
    }
  }

  ghost predicate NoSpurious(acts: seq<Action>) {
    forall a :: a in acts ==> !a.Spurious?
  }

  ghost predicate CanHang(s: State) {
    exists i, acts :: NoSpurious(acts) && Hung(Exec(s, acts), i)
  }

  lemma {:induction false} ExecClear(s: State, acts: seq<Action>)
    requires Inv(s) && Clear(s)
    ensures Clear(Exec(s, acts))
    decreases |acts|
  {
    if acts != [] {
      StepInv(s, acts[0]);
      ClearStays(s, acts[0]);
      ExecClear(Apply(s, acts[0]), acts[1..]);
    }
  }

  /** Owed notifications that find nobody asleep are gone. */
  lemma {:induction false} SpendNotifications(s: State, i: nat) returns (acts: seq<Action>)
    requires Inv(s) && s.dtor.Joining? && i < |s.workers| && s.workers[i].Locked()
    requires forall k :: 0 <= k < |s.workers| ==> !s.workers[k].Asleep?
    ensures NoSpurious(acts)
    ensures var d := Exec(s, acts);
      && Inv(d) && d.dtor.Joining? && d.workers == s.workers && d.tasks == s.tasks
      && forall j :: 0 <= j < |d.submitters| ==> !d.submitters[j].Push? && !Owes(d.submitters[j])
    decreases Count(s.submitters, Owes)
  {
    if j :| 0 <= j < |s.submitters| && Owes(s.submitters[j]) {
      assert s.submitters[j].Notify?;
      var d := Apply(s, StepSubmitter(j, 0));
      StepInv(s, StepSubmitter(j, 0));
      CountUpdate(s.submitters, j, Idle, Owes);
      assert d == s.By(j, Idle);
      var tail := SpendNotifications(d, i);
      acts := [StepSubmitter(j, 0)] + tail;
      assert acts[1..] == tail;
    } else {
      acts := [];
    }
  }

  /** From a sleepy worker to a hang: at most two steps. */
  lemma FallAsleep(s: State, i: nat) returns (acts: seq<Action>)
    requires Inv(s) && s.dtor.Joining? && i < |s.workers| && Sleepy(s, s.workers[i])
    requires forall j :: 0 <= j < |s.submitters| ==> !s.submitters[j].Push? && !Owes(s.submitters[j])
    ensures NoSpurious(acts) && Hung(Exec(s, acts), i)
  {
    var w := StepWorker(i);
    if s.workers[i].TestQueue? {
      acts := [w, w];
      assert acts[1..] == [w] && [w][1..] == [];
      assert Apply(s, w).workers[i].PredFalse?;
      assert Exec(s, acts) == Exec(Apply(s, w), [w]) == Apply(Apply(s, w), w);
    } else if s.workers[i].PredFalse? {
      acts := [w];
      assert Exec(s, acts) == Apply(s, w);
    } else {
      acts := [];
    }
  }

  lemma {:induction false} ExecAppend(s: State, a: seq<Action>, b: seq<Action>)
    ensures Exec(s, a + b) == Exec(Exec(s, a), b)
    decreases |a|
  {
    if a == [] {
      Nil(b);
    } else {
      HeadTail(a, b);
      ExecAppend(Apply(s, a[0]), a[1..], b);
    }
  }

  lemma SleepyCanHang(s: State, i: nat)
    requires Inv(s) && s.dtor.Joining? && i < |s.workers| && Sleepy(s, s.workers[i])
    requires forall k :: 0 <= k < |s.workers| ==> !s.workers[k].Asleep?
    ensures CanHang(s)
  {
    var a := SpendNotifications(s, i);
    var b := FallAsleep(Exec(s, a), i);
    ExecAppend(s, a, b);
    assert NoSpurious(a + b) && Hung(Exec(s, a + b), i);
  }

  lemma ClearCannotHang(s: State)
    requires Inv(s) && Clear(s)
    ensures !CanHang(s)
  {
    forall i: nat, acts | NoSpurious(acts)
      ensures !Hung(Exec(s, acts), i)
    {
      ExecClear(s, acts);
      if i < |Exec(s, acts).workers| {
        assert !Sleepy(Exec(s, acts), Exec(s, acts).workers[i]);
      }
    }
  }

  /** Has read `stop_` as false and, with the queue empty, has not slept yet. */
  ghost predicate Dozing(s: State, w: Worker) {
    w.PredFalse? || (w.TestQueue? && s.tasks == [])
  }

  ghost predicate SomeDozing(s: State) {
    exists i :: 0 <= i < |s.workers| && Dozing(s, s.workers[i])
  }

  /** Judged when `notify_all` has just run. */
  lemma ShutdownExact(s: State)
    requires Inv(s) && s.dtor.Stopping?
    ensures CanHang(Apply(s, NotifyAll)) <==> SomeDozing(Apply(s, NotifyAll))
  {
    var d := Apply(s, NotifyAll);
    StepInv(s, NotifyAll);
    if i :| 0 <= i < |d.workers| && Dozing(d, d.workers[i]) {
      SleepyCanHang(d, i);
    } else {
      ClearCannotHang(d);
    }
  }

  // ---- Judged when the destructor is called ------------------------------------------------

  /** `stop_` is set and nobody dozes; sleepers are still to be notified, or there are none. */
  ghost predicate Alert(s: State) {
    s.stop && !SomeDozing(s) && (s.dtor.Stopping? || Clear(s))
  }

  lemma AlertWorker(s: State, i: nat)
    requires Inv(s) && Alert(s) && s.dtor.Stopping? && i < |s.workers|
    ensures Alert(WorkerStep(s, i))
  {
    var d := WorkerStep(s, i);
    WorkerMovesAlone(s, i);
    assert !Dozing(s, s.workers[i]);
    forall k | 0 <= k < |d.workers|
      ensures !Dozing(d, d.workers[k])
    {
      assert !Dozing(s, s.workers[k]);
    }
  }

  lemma AlertSubmitter(s: State, j: nat, woken: nat)
    requires Inv(s) && Alert(s) && s.dtor.Stopping? && j < |s.submitters|
    ensures Alert(SubmitterStep(s, j, woken))
  {
    var d := SubmitterStep(s, j, woken);
    forall k | 0 <= k < |d.workers|
      ensures !Dozing(d, d.workers[k])
    {
      assert !Dozing(s, s.workers[k]);
    }
  }

  /** With the stop flag set, no worker starts to doze. */
  lemma AlertStays(s: State, a: Action)
    requires Inv(s) && Alert(s)
    ensures Alert(Apply(s, a))
  {
    if s.dtor.Joining? {
      ClearStays(s, a);
      assert forall k :: 0 <= k < |Apply(s, a).workers| ==> !Sleepy(Apply(s, a), Apply(s, a).workers[k]);
    } else {
      match a
      case StepWorker(i) =>
        if i < |s.workers| {
          AlertWorker(s, i);
        }
      case StepSubmitter(j, woken) =>
        if j < |s.submitters| {
          AlertSubmitter(s, j, woken);
        }
      case _ =>
        assert forall k :: 0 <= k < |s.workers| ==> !Dozing(s, s.workers[k]);
    }
  }

  lemma {:induction false} ExecAlert(s: State, acts: seq<Action>)
    requires Inv(s) && Alert(s)
    ensures Alert(Exec(s, acts))
    decreases |acts|
  {
    if acts != [] {
      StepInv(s, acts[0]);
      AlertStays(s, acts[0]);
      ExecAlert(Apply(s, acts[0]), acts[1..]);
    }
  }

  lemma AlertCannotHang(s: State)
    requires Inv(s) && Alert(s)
    ensures !CanHang(s)
  {
    forall i: nat, acts | NoSpurious(acts)
      ensures !Hung(Exec(s, acts), i)
    {
      ExecAlert(s, acts);
      if i < |Exec(s, acts).workers| {
        assert Clear(Exec(s, acts)) ==> !Sleepy(Exec(s, acts), Exec(s, acts).workers[i]);
      }
    }
  }

  lemma CanHangLater(s: State, a: Action)
    requires !a.Spurious? && CanHang(Apply(s, a))
    ensures CanHang(s)
  {
    var i, acts :| NoSpurious(acts) && Hung(Exec(Apply(s, a), acts), i);
    HeadTail([a], acts);
    Nil(acts);
    assert Hung(Exec(s, [a] + acts), i);
  }

  /**
   Exactly when the destructor can wait for ever, judged when it sets `stop_`: some worker has read the
   flag as false and, with the queue empty, has not slept yet.
   */
  lemma {:induction false} DestructorExact(s: State)
    requires Inv(s) && s.dtor.Alive?
    ensures CanHang(Apply(s, Stop)) <==> SomeDozing(s)
  {
    var d := Apply(s, Stop);
    StepInv(s, Stop);
    if i :| 0 <= i < |s.workers| && Dozing(s, s.workers[i]) {
      assert Dozing(Apply(d, NotifyAll), Apply(d, NotifyAll).workers[i]);
      ShutdownExact(d);
      CanHangLater(d, NotifyAll);
    } else {
      assert forall i :: 0 <= i < |d.workers| ==> !Dozing(s, s.workers[i]);
      AlertCannotHang(d);
    }
  }

  /** It does happen: a pool that has never been used, destroyed while a worker is about to sleep. */
  lemma DestructorCanHang(workers: pos, submitters: nat) returns (acts: seq<Action>)
    ensures NoSpurious(acts) && Hung(Exec(Init(workers, submitters), acts), 0)
  {
    var s0 := Init(workers, submitters);
    var w := StepWorker(0);
    var lead := [w, w, w];
    var s3 := ReachPredFalse(s0, lead);
    var tail := [Stop, NotifyAll];
    assert Exec(s3, tail) == Apply(Apply(s3, Stop), NotifyAll) by {
      assert tail[1..] == [NotifyAll] && [NotifyAll][1..] == [];
    }
    var s5 := Exec(s3, tail);
    InitInv(workers, submitters);
    ExecInv(s0, lead);
    ExecInv(s3, tail);
    var rest := FallAsleep(s5, 0);
    ExecAppend(s0, lead, tail);
    ExecAppend(s0, lead + tail, rest);
    acts := lead + tail + rest;
  }

  lemma ReachPredFalse(s: State, acts: seq<Action>) returns (d: State)
    requires s.workers != [] && s.workers[0].WantLock? && s.owner.Free? && !s.stop && s.tasks == [] && s.dtor.Alive?
    requires acts == [StepWorker(0), StepWorker(0), StepWorker(0)]
    ensures d == Exec(s, acts)
    ensures d.workers == s.workers[0 := PredFalse] && d.tasks == [] && d.dtor.Alive? && d.submitters == s.submitters
  {
    var w := StepWorker(0);
    assert acts[1..] == [w, w] && [w, w][1..] == [w] && [w][1..] == [];
    var s1 := Apply(s, w);
    assert s1.workers == s.workers[0 := TestStop];
    var s2 := Apply(s1, w);
    assert s2.workers == s.workers[0 := TestQueue];
    d := Apply(s2, w);
    assert d.workers == s.workers[0 := PredFalse];
    assert Exec(s, acts) == Exec(s1, [w, w]) == Exec(s2, [w]) == d;
  }
}
