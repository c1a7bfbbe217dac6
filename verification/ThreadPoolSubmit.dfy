/** A call of submit under any interleaving: its task is accepted, or refused because the pool has stopped. */
module ThreadPoolSubmit {
  import opened ThreadPool

  /** The task a submitter has not pushed yet. */
  predicate Carries(x: Submitter, task: Task) {
    (x.SubmitLock? || x.CheckStop? || x.Push?) && x.task == task
  }

  /**
   A step keeps the task, or pushes it, or gives it up after reading `stop_` as true; from the push on
   the call ends only through its notification.
   */
  lemma SubmitEndsOnlyWhenDecided(s: State, j: nat, woken: nat, task: Task)
    requires j < |s.submitters| && Carries(s.submitters[j], task)
    ensures var d := SubmitterStep(s, j, woken);
      && |d.submitters| == |s.submitters|
      && if Carries(d.submitters[j], task) then d.tasks == s.tasks && d.accepted == s.accepted
         else if d.submitters[j].Idle? then
           s.submitters[j].CheckStop? && s.stop && d.tasks == s.tasks && d.accepted == s.accepted
         else d.submitters[j].SubmitUnlock? && d.tasks == s.tasks + [task] && d.accepted == s.accepted + [task]
  {}

  /** What has become of the task, `before` tasks having been accepted when the call was made. */
  ghost predicate Outcome(s: State, x: Submitter, task: Task, before: nat) {
    || Carries(x, task)
    || (before <= |s.accepted| && task in s.accepted[before..])
    || (x.Idle? && s.stop)
  }

  lemma OutcomeStep(s: State, a: Action, j: nat, task: Task, before: nat)
    requires j < |s.submitters| && before <= |s.accepted| && Outcome(s, s.submitters[j], task, before)
    requires !(a.Submit? && a.j == j)
    ensures var d := Apply(s, a);
      j < |d.submitters| && before <= |d.accepted| && Outcome(d, d.submitters[j], task, before)
  {
    var d := Apply(s, a);
    AcceptedGrows(s, a);
    assert s.accepted[before..] <= d.accepted[before..];
    assert forall x :: x in s.accepted[before..] ==> x in d.accepted[before..];
    if a.StepSubmitter? && a.j == j && Carries(s.submitters[j], task) {
      SubmitEndsOnlyWhenDecided(s, j, a.woken, task);
      if s.submitters[j].Push? {
        assert d.accepted[before..] == s.accepted[before..] + [task];
      }
    } else {
      OtherSubmitter(s, a, j);
    }
  }

  lemma AcceptedGrows(s: State, a: Action)
    ensures s.accepted <= Apply(s, a).accepted && (s.stop ==> Apply(s, a).stop)
  {}

  /** Others leave submitter j where it is; behind its push it never takes up the task again. */
  lemma OtherSubmitter(s: State, a: Action, j: nat)
    requires j < |s.submitters| && !(a.Submit? && a.j == j)
    ensures var d := Apply(s, a);
      && j < |d.submitters|
      && (!(a.StepSubmitter? && a.j == j) ==> d.submitters[j] == s.submitters[j])
      && (s.submitters[j].Idle? ==> d.submitters[j].Idle?)
  {
    StepSizes(s, a);
  }

  /** Every call of submit, whoever else is running: the task is still on its way, accepted, or refused. */
  lemma {:induction false} SubmitOutcome(s: State, acts: seq<Action>, j: nat, task: Task, before: nat)
    requires j < |s.submitters| && before <= |s.accepted| && Outcome(s, s.submitters[j], task, before)
    requires forall a :: a in acts ==> !(a.Submit? && a.j == j)
    ensures var d := Exec(s, acts);
      j < |d.submitters| && Outcome(d, d.submitters[j], task, before)
    decreases |acts|
  {
    if acts != [] {
      assert acts[0] in acts && forall a :: a in acts[1..] ==> a in acts;
      OutcomeStep(s, acts[0], j, task, before);
      SubmitOutcome(Apply(s, acts[0]), acts[1..], j, task, before);
    }
  }
}
