/**
 src/util/thread_pool as a step system: any number of workers and submitters, one mutex, one
 condition variable, and a destructor that sets `stop_` without the mutex. Each test of `stop_` and
 of the queue is a step of its own. An action that is not enabled does nothing.
 */
module ThreadPool {
  import opened Basics
  import opened Seqs
  import opened Wakeup

  type Task = int

  datatype Worker =
    | WantLock              // about to lock the mutex, at the top of the loop or after waking
    | TestStop              // in the wait predicate, about to read stop_
    | TestQueue             // in the wait predicate: stop_ was false, about to read the queue
    | PredFalse             // predicate false, about to sleep and release the mutex
    | PredTrue              // predicate true, about to read stop_ again
    | TestExit              // stop_ was true, about to read the queue
    | TakeTask              // about to pop
    | Popped(task: Task)    // about to unlock
    | Running(task: Task)
    | Asleep
    | Exited
  {
    predicate Locked() {
      TestStop? || TestQueue? || PredFalse? || PredTrue? || TestExit? || TakeTask? || Popped?
    }
  }

  datatype Submitter =
    | Idle
    | SubmitLock(task: Task)
    | CheckStop(task: Task)
    | Push(task: Task)
    | SubmitUnlock
    | Notify
  {
    predicate Locked() {
      CheckStop? || Push? || SubmitUnlock?
    }
  }

  /** Alive until `stop_` is set; then `notify_all`; then joining. */
  datatype Destructor = Alive | Stopping | Joining

  datatype Owner = Free | ByWorker(i: nat) | BySubmitter(j: nat)

  /** `accepted`, `taken` and `ran` are history: tasks pushed, popped, and run to the end, in order. */
  datatype State = State(tasks: seq<Task>, stop: bool, owner: Owner, workers: seq<Worker>, submitters: seq<Submitter>,
                         dtor: Destructor, accepted: seq<Task>, taken: seq<Task>, ran: seq<Task>)
  {
    function At(i: nat, w: Worker): State
      requires i < |workers|
    {
      this.(workers := workers[i := w])
    }

    function By(j: nat, x: Submitter): State
      requires j < |submitters|
    {
      this.(submitters := submitters[j := x])
    }
  }

  function Init(workers: nat, submitters: nat): State {
    State([], false, Free, seq(workers, _ => WantLock), seq(submitters, _ => Idle), Alive, [], [], [])
  }

  datatype Action =
    | Submit(j: nat, task: Task)         // a thread calls submit
    | StepSubmitter(j: nat, woken: nat)  // `woken` is the sleeper that notify_one picks
    | StepWorker(i: nat)
    | Spurious(i: nat)                   // a sleeper wakes by itself
    | Stop                               // the destructor: stop_ = true
    | NotifyAll                          // the destructor: cv_.notify_all()

  predicate SomeAsleep(ws: seq<Worker>) {
    exists i | 0 <= i < |ws| :: ws[i].Asleep?
  }

  function Wake(w: Worker): Worker {
    if w.Asleep? then WantLock else w
  }

  function WakeAll(ws: seq<Worker>): (r: seq<Worker>)
    ensures |r| == |ws| && forall i :: 0 <= i < |ws| ==> r[i] == Wake(ws[i])
  {
    if ws == [] then [] else [Wake(ws[0])] + WakeAll(ws[1..])
  }

  function Apply(s: State, a: Action): State {
    match a
    case Submit(j, task) => if j < |s.submitters| && s.submitters[j].Idle? then s.By(j, SubmitLock(task)) else s
    case StepSubmitter(j, woken) => if j < |s.submitters| then SubmitterStep(s, j, woken) else s
    case StepWorker(i) => if i < |s.workers| then WorkerStep(s, i) else s
    case Spurious(i) => if i < |s.workers| && s.workers[i].Asleep? then s.At(i, WantLock) else s
    case Stop => if s.dtor.Alive? then s.(stop := true, dtor := Stopping) else s
    case NotifyAll => if s.dtor.Stopping? then s.(workers := WakeAll(s.workers), dtor := Joining) else s
  }

  function SubmitterStep(s: State, j: nat, woken: nat): State
    requires j < |s.submitters|
  {
    match s.submitters[j]
    case Idle => s
    case SubmitLock(task) => if s.owner.Free? then s.By(j, CheckStop(task)).(owner := BySubmitter(j)) else s
    case CheckStop(task) => if s.stop then s.By(j, Idle).(owner := Free) else s.By(j, Push(task))
    case Push(task) => s.By(j, SubmitUnlock).(tasks := s.tasks + [task], accepted := s.accepted + [task])
    case SubmitUnlock => s.By(j, Notify).(owner := Free)
    case Notify =>
      if woken < |s.workers| && s.workers[woken].Asleep? then s.By(j, Idle).At(woken, WantLock)
      else if SomeAsleep(s.workers) then s
      else s.By(j, Idle)
  }

  function WorkerStep(s: State, i: nat): State
    requires i < |s.workers|
  {
    match s.workers[i]
    case WantLock => if s.owner.Free? then s.At(i, TestStop).(owner := ByWorker(i)) else s
    case TestStop => if s.stop then s.At(i, PredTrue) else s.At(i, TestQueue)
    case TestQueue => if s.tasks != [] then s.At(i, PredTrue) else s.At(i, PredFalse)
    case PredFalse => s.At(i, Asleep).(owner := Free)
    case PredTrue => if s.stop then s.At(i, TestExit) else s.At(i, TakeTask)
    case TestExit => if s.tasks == [] then s.At(i, Exited).(owner := Free) else s.At(i, TakeTask)
    case TakeTask =>
      if s.tasks == [] then s
      else s.At(i, Popped(s.tasks[0])).(tasks := s.tasks[1..], taken := s.taken + [s.tasks[0]])
    case Popped(task) => s.At(i, Running(task)).(owner := Free)
    case Running(task) => s.At(i, WantLock).(ran := s.ran + [task])
    case Asleep => s
    case Exited => s
  }

  function Exec(s: State, acts: seq<Action>): State
    decreases |acts|
  {
    if acts == [] then s else Exec(Apply(s, acts[0]), acts[1..])
  }

  // ---- Safety ----------------------------------------------------------------------------

  ghost predicate Exclusion(s: State) {
    && (forall i :: 0 <= i < |s.workers| && s.workers[i].Locked() ==> s.owner == ByWorker(i))
    && (forall j :: 0 <= j < |s.submitters| && s.submitters[j].Locked() ==> s.owner == BySubmitter(j))
    && (s.owner.ByWorker? ==> s.owner.i < |s.workers| && s.workers[s.owner.i].Locked())
    && (s.owner.BySubmitter? ==> s.owner.j < |s.submitters| && s.submitters[s.owner.j].Locked())
  }

  /** What a worker has found out and the mutex, or the one-way flag, keeps true. */
  ghost predicate Knows(s: State, w: Worker) {
    && (w.PredFalse? ==> s.tasks == [])
    && (w.PredTrue? ==> s.stop || s.tasks != [])
    && (w.TestExit? ==> s.stop)
    && (w.TakeTask? ==> s.tasks != [])
  }

  ghost predicate Knowing(s: State) {
    && (forall i :: 0 <= i < |s.workers| ==> Knows(s, s.workers[i]))
    && (s.stop <==> !s.dtor.Alive?)
  }

  /** First in, first out. */
  ghost predicate Fifo(s: State) {
    s.taken + s.tasks == s.accepted
  }

  /** Once a worker has left, nothing is queued and nothing more can be. */
  ghost predicate Drained(s: State) {
    (exists i :: 0 <= i < |s.workers| && s.workers[i].Exited?) ==>
      && s.stop && s.tasks == []
      && forall j :: 0 <= j < |s.submitters| ==> !s.submitters[j].Push?
  }

  function Holds(w: Worker, x: Task): nat {
    if (w.Popped? || w.Running?) && w.task == x then 1 else 0
  }

  /** How many workers have task x in hand. */
  function InHand(ws: seq<Worker>, x: Task): nat {
    if ws == [] then 0 else Holds(ws[0], x) + InHand(ws[1..], x)
  }

  /** Every task taken has been run or is in the hands of a worker, as often as it was taken. */
  ghost predicate AccountedFor(s: State, x: Task) {
    multiset(s.ran)[x] + InHand(s.workers, x) == multiset(s.taken)[x]
  }

  ghost predicate Accounted(s: State) {
    forall x :: AccountedFor(s, x)
  }

  ghost predicate Inv(s: State) {
    Exclusion(s) && Knowing(s) && Fifo(s) && Drained(s) && Accounted(s)
  }

  lemma {:induction false} InHandUpdate(ws: seq<Worker>, i: nat, w: Worker, x: Task)
    requires i < |ws|
    ensures InHand(ws[i := w], x) + Holds(ws[i], x) == InHand(ws, x) + Holds(w, x)
  {
    if i == 0 {
      assert ws[0 := w][1..] == ws[1..];
    } else {
      assert ws[i := w][1..] == ws[1..][i - 1 := w];
      InHandUpdate(ws[1..], i - 1, w, x);
    }
  }

  lemma {:induction false} InHandSame(a: seq<Worker>, b: seq<Worker>, x: Task)
    requires |a| == |b| && forall i :: 0 <= i < |a| ==> Holds(a[i], x) == Holds(b[i], x)
    ensures InHand(a, x) == InHand(b, x)
  {
    if a != [] {
      InHandSame(a[1..], b[1..], x);
    }
  }

  lemma {:induction false} InHandNone(ws: seq<Worker>, x: Task)
    requires forall i :: 0 <= i < |ws| ==> Holds(ws[i], x) == 0
    ensures InHand(ws, x) == 0
  {
    if ws != [] {
      InHandNone(ws[1..], x);
    }
  }

  lemma AppendCount(s: seq<Task>, task: Task, x: Task)
    ensures multiset(s + [task])[x] == multiset(s)[x] + if task == x then 1 else 0
  {
    assert multiset(s + [task]) == multiset(s) + multiset{task};
  }

  /** Worker i moves without taking or giving back the mutex. */
  lemma KeepsOwner(s: State, d: State, i: nat)
    requires Exclusion(s) && i < |s.workers| == |d.workers|
    requires d.workers == s.workers[i := d.workers[i]] && d.submitters == s.submitters && d.owner == s.owner
    requires d.workers[i].Locked() <==> s.workers[i].Locked()
    ensures Exclusion(d)
  {}

  /** Worker i takes the free mutex or gives it back. */
  lemma ChangesOwner(s: State, d: State, i: nat)
    requires Exclusion(s) && i < |s.workers| == |d.workers|
    requires d.workers == s.workers[i := d.workers[i]] && d.submitters == s.submitters
    requires if d.workers[i].Locked() then s.owner.Free? && d.owner == ByWorker(i)
             else s.owner == ByWorker(i) && d.owner.Free?
    ensures Exclusion(d)
  {}

  lemma WorkerExclusion(s: State, i: nat)
    requires Exclusion(s) && i < |s.workers|
    ensures Exclusion(WorkerStep(s, i))
  {
    WorkerMovesAlone(s, i);
    if WorkerStep(s, i).owner == s.owner {
      KeepsOwner(s, WorkerStep(s, i), i);
    } else {
      ChangesOwner(s, WorkerStep(s, i), i);
    }
  }

  lemma WorkerMovesAlone(s: State, i: nat)
    requires i < |s.workers|
    ensures var d := WorkerStep(s, i);
      |d.workers| == |s.workers| && d.workers == s.workers[i := d.workers[i]] && d.submitters == s.submitters
      && d.dtor == s.dtor && d.stop == s.stop
  {}

  lemma SubmitterExclusion(s: State, j: nat, woken: nat)
    requires Exclusion(s) && j < |s.submitters|
    ensures Exclusion(SubmitterStep(s, j, woken))
  {}

  lemma WorkerKnowing(s: State, i: nat)
    requires Exclusion(s) && Knowing(s) && i < |s.workers|
    ensures Knowing(WorkerStep(s, i))
  {}

  lemma SubmitterKnowing(s: State, j: nat, woken: nat)
    requires Exclusion(s) && Knowing(s) && j < |s.submitters|
    ensures Knowing(SubmitterStep(s, j, woken))
  {}

  lemma WorkerFifo(s: State, i: nat)
    requires Fifo(s) && i < |s.workers|
    ensures Fifo(WorkerStep(s, i))
  {
    if s.workers[i].TakeTask? && s.tasks != [] {
      Uncons(s.tasks);
      Assoc(s.taken, [s.tasks[0]], s.tasks[1..]);
    }
  }

  lemma WorkerDrained(s: State, i: nat)
    requires Exclusion(s) && Knowing(s) && Drained(s) && i < |s.workers|
    ensures Drained(WorkerStep(s, i))
  {
    assert Knows(s, s.workers[i]);
  }

  lemma TakeAccounted(s: State, i: nat, x: Task)
    requires AccountedFor(s, x) && i < |s.workers| && s.workers[i].TakeTask? && s.tasks != []
    ensures AccountedFor(WorkerStep(s, i), x)
  {
    InHandUpdate(s.workers, i, Popped(s.tasks[0]), x);
    AppendCount(s.taken, s.tasks[0], x);
  }

  lemma RunAccounted(s: State, i: nat, x: Task)
    requires AccountedFor(s, x) && i < |s.workers| && s.workers[i].Running?
    ensures AccountedFor(WorkerStep(s, i), x)
  {
    InHandUpdate(s.workers, i, WantLock, x);
    AppendCount(s.ran, s.workers[i].task, x);
  }

  /** The other steps of a worker: it moves, and no task changes hands. */
  lemma MovesOnly(s: State, i: nat, x: Task)
    requires i < |s.workers| && !s.workers[i].Running? && !(s.workers[i].TakeTask? && s.tasks != [])
    ensures var d := WorkerStep(s, i);
      && d.workers == s.workers[i := d.workers[i]] && d.ran == s.ran && d.taken == s.taken
      && Holds(d.workers[i], x) == Holds(s.workers[i], x)
  {}

  lemma WorkerAccounted(s: State, i: nat, x: Task)
    requires AccountedFor(s, x) && i < |s.workers|
    ensures AccountedFor(WorkerStep(s, i), x)
  {
    if s.workers[i].TakeTask? && s.tasks != [] {
      TakeAccounted(s, i, x);
    } else if s.workers[i].Running? {
      RunAccounted(s, i, x);
    } else {
      MovesOnly(s, i, x);
      InHandUpdate(s.workers, i, WorkerStep(s, i).workers[i], x);
    }
  }

  lemma SubmitterFifo(s: State, j: nat, woken: nat)
    requires Fifo(s) && j < |s.submitters|
    ensures Fifo(SubmitterStep(s, j, woken))
  {
    if s.submitters[j].Push? {
      Assoc(s.taken, s.tasks, [s.submitters[j].task]);
    }
  }

  lemma SubmitterDrained(s: State, j: nat, woken: nat)
    requires Drained(s) && j < |s.submitters|
    ensures Drained(SubmitterStep(s, j, woken))
  {}

  /** Steps that leave the queue, the books and the mutex alone, and at most wake workers up. */
  ghost predicate OnlyWakes(s: State, d: State) {
    && d.tasks == s.tasks && d.owner == s.owner && d.submitters == s.submitters
    && d.accepted == s.accepted && d.taken == s.taken && d.ran == s.ran
    && (s.stop ==> d.stop) && (d.stop <==> !d.dtor.Alive?)
    && |d.workers| == |s.workers|
    && forall i :: 0 <= i < |s.workers| ==>
         d.workers[i] == s.workers[i] || (s.workers[i].Asleep? && d.workers[i].WantLock?)
  }

  lemma OnlyWakesAccounted(s: State, d: State)
    requires Accounted(s) && OnlyWakes(s, d)
    ensures Accounted(d)
  {
    forall x
      ensures AccountedFor(d, x)
    {
      assert AccountedFor(s, x);
      InHandSame(s.workers, d.workers, x);
    }
  }

  lemma OnlyWakesInv(s: State, d: State)
    requires Inv(s) && OnlyWakes(s, d)
    ensures Inv(d)
  {
    OnlyWakesAccounted(s, d);
  }

  lemma SubmitterAccounted(s: State, j: nat, woken: nat, x: Task)
    requires AccountedFor(s, x) && j < |s.submitters|
    ensures AccountedFor(SubmitterStep(s, j, woken), x)
  {
    var d := SubmitterStep(s, j, woken);
    assert d.ran == s.ran && d.taken == s.taken;
    InHandSame(s.workers, d.workers, x);
  }

  lemma SubmitInv(s: State, j: nat, task: Task)
    requires Inv(s)
    ensures Inv(Apply(s, Submit(j, task)))
  {
    forall x
      ensures AccountedFor(Apply(s, Submit(j, task)), x)
    {
      assert AccountedFor(s, x);
    }
  }

  lemma WorkerInv(s: State, i: nat)
    requires Inv(s) && i < |s.workers|
    ensures Inv(WorkerStep(s, i))
  {
    WorkerExclusion(s, i);
    WorkerKnowing(s, i);
    WorkerFifo(s, i);
    WorkerDrained(s, i);
    forall x
      ensures AccountedFor(WorkerStep(s, i), x)
    {
      WorkerAccounted(s, i, x);
    }
  }

  lemma SubmitterInv(s: State, j: nat, woken: nat)
    requires Inv(s) && j < |s.submitters|
    ensures Inv(SubmitterStep(s, j, woken))
  {
    SubmitterExclusion(s, j, woken);
    SubmitterKnowing(s, j, woken);
    SubmitterFifo(s, j, woken);
    SubmitterDrained(s, j, woken);
    forall x
      ensures AccountedFor(SubmitterStep(s, j, woken), x)
    {
      SubmitterAccounted(s, j, woken, x);
    }
  }

  lemma StepInv(s: State, a: Action)
    requires Inv(s)
    ensures Inv(Apply(s, a))
  {
    match a
    case StepWorker(i) =>
      if i < |s.workers| {
        WorkerInv(s, i);
      }
    case StepSubmitter(j, woken) =>
      if j < |s.submitters| {
        SubmitterInv(s, j, woken);
      }
    case Submit(j, task) =>
      SubmitInv(s, j, task);
    case _ =>
      OnlyWakesInv(s, Apply(s, a));
  }

  lemma {:induction false} ExecInv(s: State, acts: seq<Action>)
    requires Inv(s)
    ensures Inv(Exec(s, acts))
    decreases |acts|
  {
    if acts != [] {
      StepInv(s, acts[0]);
      ExecInv(Apply(s, acts[0]), acts[1..]);
    }
  }

  lemma SubmitterSizes(s: State, j: nat, woken: nat)
    requires j < |s.submitters|
    ensures var d := SubmitterStep(s, j, woken);
      |d.workers| == |s.workers| && |d.submitters| == |s.submitters|
  {}

  lemma StepSizes(s: State, a: Action)
    ensures |Apply(s, a).workers| == |s.workers| && |Apply(s, a).submitters| == |s.submitters|
  {
    if a.StepWorker? && a.i < |s.workers| {
      WorkerMovesAlone(s, a.i);
    } else if a.StepSubmitter? && a.j < |s.submitters| {
      SubmitterSizes(s, a.j, a.woken);
    }
  }

  lemma {:induction false} ExecSizes(s: State, acts: seq<Action>)
    ensures |Exec(s, acts).workers| == |s.workers| && |Exec(s, acts).submitters| == |s.submitters|
    decreases |acts|
  {
    if acts != [] {
      StepSizes(s, acts[0]);
      ExecSizes(Apply(s, acts[0]), acts[1..]);
    }
  }

  lemma InitInv(workers: nat, submitters: nat)
    ensures Inv(Init(workers, submitters))
  {
    forall x
      ensures AccountedFor(Init(workers, submitters), x)
    {
      InHandNone(Init(workers, submitters).workers, x);
    }
  }

  lemma AllExited(s: State)
    requires Inv(s) && s.workers != [] && forall i :: 0 <= i < |s.workers| ==> s.workers[i].Exited?
    ensures s.taken == s.accepted && multiset(s.ran) == multiset(s.accepted)
  {
    assert s.workers[0].Exited?;
    Nil(s.taken);
    forall x
      ensures multiset(s.ran)[x] == multiset(s.taken)[x]
    {
      assert AccountedFor(s, x);
      InHandNone(s.workers, x);
    }
  }

  /**
   The drain guarantee, in every run: tasks are taken in the order they were accepted; once any worker
   has exited nothing is queued and no submitter is between its stop check and its push; once all have
   exited, every accepted task has run exactly once.
   */
  lemma {:induction false} DrainGuarantee(workers: pos, submitters: nat, acts: seq<Action>)
    ensures var s := Exec(Init(workers, submitters), acts);
      && s.taken + s.tasks == s.accepted
      && ((exists i :: 0 <= i < |s.workers| && s.workers[i].Exited?) ==>
           s.tasks == [] && forall j :: 0 <= j < |s.submitters| ==> !s.submitters[j].Push?)
      && ((forall i :: 0 <= i < |s.workers| ==> s.workers[i].Exited?) ==>
           s.taken == s.accepted && multiset(s.ran) == multiset(s.accepted))
  {
    var s := Exec(Init(workers, submitters), acts);
    InitInv(workers, submitters);
    ExecInv(Init(workers, submitters), acts);
    ExecSizes(Init(workers, submitters), acts);
    if forall i :: 0 <= i < |s.workers| ==> s.workers[i].Exited? {
      AllExited(s);
    }
  }

  // ---- Work conservation -----------------------------------------------------------------

  predicate EnRoute(w: Worker) {
    w.WantLock? || w.TestStop? || w.TestQueue? || w.PredFalse? || w.PredTrue? || w.TestExit? || w.TakeTask?
  }

  predicate IsAsleep(w: Worker) {
    w.Asleep?
  }

  /** Has pushed and not yet notified. */
  predicate Owes(x: Submitter) {
    x.SubmitUnlock? || x.Notify?
  }

  function View(s: State): Monitor {
    Monitor(|s.tasks|, Count(s.submitters, Owes), Count(s.workers, EnRoute), Count(s.workers, IsAsleep))
  }

  lemma {:induction false} WakeAllCounts(ws: seq<Worker>)
    ensures Count(WakeAll(ws), EnRoute) == Count(ws, EnRoute) + Count(ws, IsAsleep)
    ensures Count(WakeAll(ws), IsAsleep) == 0
  {
    if ws != [] {
      WakeAllCounts(ws[1..]);
      assert WakeAll(ws)[1..] == WakeAll(ws[1..]);
    }
  }

  function Bit(b: bool): int {
    if b then 1 else 0
  }

  /** The counts after worker i has moved to w and the queue has become `tasks`. */
  lemma RecountWorker(s: State, d: State, i: nat)
    requires i < |s.workers| == |d.workers| && d.workers == s.workers[i := d.workers[i]] && d.submitters == s.submitters
    ensures View(d) == Monitor(|d.tasks|, View(s).owed,
      View(s).enroute - Bit(EnRoute(s.workers[i])) + Bit(EnRoute(d.workers[i])),
      View(s).asleep - Bit(IsAsleep(s.workers[i])) + Bit(IsAsleep(d.workers[i])))
    ensures EnRoute(s.workers[i]) ==> View(s).enroute > 0
    ensures IsAsleep(s.workers[i]) ==> View(s).asleep > 0
  {
    CountUpdate(s.workers, i, d.workers[i], EnRoute);
    CountUpdate(s.workers, i, d.workers[i], IsAsleep);
    CountPositive(s.workers, EnRoute);
    CountPositive(s.workers, IsAsleep);
  }

  lemma RecountSubmitter(s: State, d: State, j: nat)
    requires j < |s.submitters| == |d.submitters| && d.submitters == s.submitters[j := d.submitters[j]]
    requires d.workers == s.workers
    ensures View(d) == Monitor(|d.tasks|,
      View(s).owed - Bit(Owes(s.submitters[j])) + Bit(Owes(d.submitters[j])), View(s).enroute, View(s).asleep)
    ensures Owes(s.submitters[j]) ==> View(s).owed > 0
  {
    CountUpdate(s.submitters, j, d.submitters[j], Owes);
    CountPositive(s.submitters, Owes);
  }

  lemma WorkerMoves(s: State, i: nat)
    requires Inv(s) && i < |s.workers|
    ensures Move(View(s), View(WorkerStep(s, i)))
  {
    assert Knows(s, s.workers[i]);
    WorkerMovesAlone(s, i);
    RecountWorker(s, WorkerStep(s, i), i);
  }

  lemma NotifyMoves(s: State, j: nat, woken: nat)
    requires j < |s.submitters| && s.submitters[j].Notify?
    ensures Move(View(s), View(SubmitterStep(s, j, woken)))
  {
    RecountSubmitter(s, s.By(j, Idle), j);
    CountPositive(s.workers, IsAsleep);
    if woken < |s.workers| && s.workers[woken].Asleep? {
      RecountWorker(s.By(j, Idle), s.By(j, Idle).At(woken, WantLock), woken);
    }
  }

  lemma SubmitterMoves(s: State, j: nat, woken: nat)
    requires j < |s.submitters|
    ensures Move(View(s), View(SubmitterStep(s, j, woken)))
  {
    if s.submitters[j].Notify? {
      NotifyMoves(s, j, woken);
    } else {
      RecountSubmitter(s, SubmitterStep(s, j, woken), j);
    }
  }

  /** Every step of the pool is a move of the monitor. */
  lemma StepMoves(s: State, a: Action)
    requires Inv(s)
    ensures Move(View(s), View(Apply(s, a)))
  {
    match a
    case StepWorker(i) =>
      if i < |s.workers| {
        WorkerMoves(s, i);
      }
    case StepSubmitter(j, woken) =>
      if j < |s.submitters| {
        SubmitterMoves(s, j, woken);
      }
    case Spurious(i) =>
      if i < |s.workers| && s.workers[i].Asleep? {
        RecountWorker(s, s.At(i, WantLock), i);
      }
    case NotifyAll =>
      WakeAllCounts(s.workers);
    case Submit(j, task) =>
      if j < |s.submitters| && s.submitters[j].Idle? {
        RecountSubmitter(s, s.By(j, SubmitLock(task)), j);
      }
    case Stop =>
  }

  /** The monitor states of a run. */
  function Views(s: State, acts: seq<Action>): (ms: seq<Monitor>)
    ensures |ms| == |acts| + 1 && ms[0] == View(s)
    decreases |acts|
  {
    if acts == [] then [View(s)] else [View(s)] + Views(Apply(s, acts[0]), acts[1..])
  }

  lemma {:induction false} ViewsRun(s: State, acts: seq<Action>)
    requires Inv(s)
    ensures IsRun(Views(s, acts)) && Views(s, acts)[|acts|] == View(Exec(s, acts))
    decreases |acts|
  {
    if acts != [] {
      var d := Apply(s, acts[0]);
      StepInv(s, acts[0]);
      StepMoves(s, acts[0]);
      ViewsRun(d, acts[1..]);
      var tail := Views(d, acts[1..]);
      RunCons(View(s), tail);
      HeadTail([View(s)], tail);
    }
  }

  /**
   The pool is work-conserving: while some worker sleeps, queued tasks are covered by owed
   notifications and workers on their way. So once none is owed or on the way, a non-empty queue
   means that every worker is busy.
   */
  lemma {:induction false} WorkConserving(workers: nat, submitters: nat, acts: seq<Action>)
    ensures var s := Exec(Init(workers, submitters), acts);
      && (SomeAsleep(s.workers) ==> |s.tasks| <= Count(s.submitters, Owes) + Count(s.workers, EnRoute))
      && (s.tasks != [] && Count(s.submitters, Owes) == 0 && Count(s.workers, EnRoute) == 0 ==>
           forall i :: 0 <= i < |s.workers| ==> s.workers[i].Running? || s.workers[i].Popped?)
  {
    var s0 := Init(workers, submitters);
    var s := Exec(s0, acts);
    InitInv(workers, submitters);
    ExecInv(s0, acts);
    ViewsRun(s0, acts);
    CountPositive(s0.workers, IsAsleep);
    RunKeeps(Views(s0, acts), |acts|);
    CountPositive(s.workers, IsAsleep);
    CountPositive(s.workers, EnRoute);
  }
}
