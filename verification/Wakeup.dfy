/**
 Why no wakeup is lost, for any queue guarded by a mutex and one condition variable where producers
 push under the lock and call `notify_one` after releasing it. The thread pool and the connection
 pool are both such queues; each shows that its steps are moves of this monitor.
 */
module Wakeup {
  /** How many elements satisfy p. */
  function Count<T>(s: seq<T>, p: T -> bool): nat {
    if s == [] then 0 else (if p(s[0]) then 1 else 0) + Count(s[1..], p)
  }

  /** An update at one place changes the count by that place alone. */
  lemma {:induction false} CountUpdate<T>(s: seq<T>, i: nat, x: T, p: T -> bool)
    requires i < |s|
    ensures Count(s[i := x], p) + (if p(s[i]) then 1 else 0) == Count(s, p) + (if p(x) then 1 else 0)
  {
    if i == 0 {
      assert s[0 := x][1..] == s[1..];
    } else {
      assert s[i := x][1..] == s[1..][i - 1 := x];
      CountUpdate(s[1..], i - 1, x, p);
    }
  }

  lemma {:induction false} CountPositive<T>(s: seq<T>, p: T -> bool)
    ensures Count(s, p) > 0 <==> exists i :: 0 <= i < |s| && p(s[i])
  {
    if s != [] {
      CountPositive(s[1..], p);
      if exists i :: 0 <= i < |s| && p(s[i]) {
        var i :| 0 <= i < |s| && p(s[i]);
        assert i > 0 ==> p(s[1..][i - 1]);
      }
      if exists i :: 0 <= i < |s[1..]| && p(s[1..][i]) {
        var i :| 0 <= i < |s[1..]| && p(s[1..][i]);
        assert p(s[i + 1]);
      }
    }
  }

  lemma {:induction false} CountBound<T>(s: seq<T>, p: T -> bool)
    ensures Count(s, p) <= |s|
  {
    if s != [] {
      CountBound(s[1..], p);
    }
  }

  /**
   What matters of a queue and its users: queued items, notifications owed by producers that have
   pushed but not yet notified, consumers on their way to the predicate or past it and about to take,
   and consumers asleep.
   */
  datatype Monitor = Monitor(items: int, owed: int, enroute: int, asleep: int)

  ghost predicate Post(m: Monitor, d: Monitor) {
    d == m.(items := m.items + 1, owed := m.owed + 1)
  }

  /** `notify_one`: wakes a sleeper if there is one. */
  ghost predicate NotifyOne(m: Monitor, d: Monitor) {
    && 0 < m.owed
    && d == if m.asleep > 0 then m.(owed := m.owed - 1, asleep := m.asleep - 1, enroute := m.enroute + 1)
            else m.(owed := m.owed - 1)
  }

  /** A sleeper wakes by itself, spuriously or because its time is up. */
  ghost predicate WakeSelf(m: Monitor, d: Monitor) {
    0 < m.asleep && d == m.(asleep := m.asleep - 1, enroute := m.enroute + 1)
  }

  ghost predicate NotifyAll(m: Monitor, d: Monitor) {
    d == m.(asleep := 0, enroute := m.enroute + m.asleep)
  }

  /** A consumer found the queue empty, under the lock, and goes to sleep. */
  ghost predicate Sleep(m: Monitor, d: Monitor) {
    0 < m.enroute && m.items == 0 && d == m.(asleep := m.asleep + 1, enroute := m.enroute - 1)
  }

  ghost predicate Take(m: Monitor, d: Monitor) {
    0 < m.items && 0 < m.enroute && d == m.(items := m.items - 1, enroute := m.enroute - 1)
  }

  ghost predicate Arrive(m: Monitor, d: Monitor) {
    d == m.(enroute := m.enroute + 1)
  }

  /** A consumer found the queue empty, under the lock, and gives up. */
  ghost predicate Leave(m: Monitor, d: Monitor) {
    0 < m.enroute && m.items == 0 && d == m.(enroute := m.enroute - 1)
  }

  ghost predicate Move(m: Monitor, d: Monitor) {
    || m == d || Post(m, d) || NotifyOne(m, d) || WakeSelf(m, d) || NotifyAll(m, d)
    || Sleep(m, d) || Take(m, d) || Arrive(m, d) || Leave(m, d)
  }

  /** While somebody sleeps, queued items are covered by owed notifications and consumers on their way. */
  ghost predicate NoLostWakeup(m: Monitor) {
    && 0 <= m.items && 0 <= m.owed && 0 <= m.enroute && 0 <= m.asleep
    && (m.asleep > 0 ==> m.items <= m.owed + m.enroute)
  }

  /** A run of the monitor: every two neighbours are a move apart. */
  ghost predicate IsRun(ms: seq<Monitor>) {
    forall i :: 0 <= i < |ms| - 1 ==> Move(ms[i], ms[i + 1])
  }

  lemma RunCons(m: Monitor, ms: seq<Monitor>)
    requires IsRun(ms) && ms != [] && Move(m, ms[0])
    ensures IsRun([m] + ms)
  {
    var all := [m] + ms;
    forall i | 0 <= i < |all| - 1
      ensures Move(all[i], all[i + 1])
    {
      assert i > 0 ==> all[i] == ms[i - 1] && all[i + 1] == ms[i];
    }
  }

  lemma RunSnoc(ms: seq<Monitor>, m: Monitor)
    requires IsRun(ms) && ms != [] && Move(ms[|ms| - 1], m)
    ensures IsRun(ms + [m])
  {
    var all := ms + [m];
    forall i | 0 <= i < |all| - 1
      ensures Move(all[i], all[i + 1])
    {
      assert i < |ms| - 1 ==> all[i] == ms[i] && all[i + 1] == ms[i + 1];
    }
  }

  lemma MoveKeeps(m: Monitor, d: Monitor)
    requires NoLostWakeup(m) && Move(m, d)
    ensures NoLostWakeup(d)
  {}

  /** The accounting argument, written once for both pools. */
  lemma {:induction false} RunKeeps(ms: seq<Monitor>, k: nat)
    requires k < |ms| && IsRun(ms) && NoLostWakeup(ms[0])
    ensures NoLostWakeup(ms[k])
  {
    if k > 0 {
      RunKeeps(ms, k - 1);
      MoveKeeps(ms[k - 1], ms[k]);
    }
  }
}
