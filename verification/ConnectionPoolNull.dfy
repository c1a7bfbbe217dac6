/**
 `borrow` returns nullptr after five seconds without a connection. `find_api_key` checks for it; the
 three admin calls do not. Here is exactly when that can matter, and that nobody gives up earlier.
 */
module ConnectionPoolNull {
  import opened Basics
  import opened Wakeup
  import opened ConnectionPool

  predicate HoldsAny(c: Client) {
    c.Holds()
  }

  lemma {:induction false} CountStrict<T>(s: seq<T>, i: nat, p: T -> bool)
    requires i < |s| && !p(s[i])
    ensures Count(s, p) < |s|
  {
    CountBound(s[1..], p);
    if i > 0 {
      CountStrict(s[1..], i - 1, p);
    }
  }

  lemma {:induction false} CountNone<T>(s: seq<T>, p: T -> bool)
    requires forall i :: 0 <= i < |s| ==> !p(s[i])
    ensures Count(s, p) == 0
  {
    CountPositive(s, p);
  }

  /** Nobody waits, or has waited, for a connection. */
  ghost predicate NobodyWaits(s: State) {
    forall t :: 0 <= t < |s.clients| ==> NotWaiting(s.clients[t])
  }

  ghost predicate Enough(created: seq<Conn>, s: State) {
    |s.idle| + Count(s.clients, HoldsAny) == |created|
  }

  /** With nobody asleep, an action moves one client, and the idle queue grows by what it gives up. */
  lemma OneMoves(s: State, a: Action)
    requires s.Shape() && NobodyWaits(s) && a.t < |s.clients|
    ensures var d := Apply(s, a);
      && d.clients == s.clients[a.t := d.clients[a.t]]
      && |d.idle| + (if HoldsAny(d.clients[a.t]) then 1 else 0)
         == |s.idle| + (if HoldsAny(s.clients[a.t]) then 1 else 0)
  {
    if a.Step? && s.clients[a.t].ReturnNotify? {
      assert a.woken < |s.clients| ==> !s.clients[a.woken].Asleep?;
    }
  }

  lemma StepEnough(created: seq<Conn>, s: State, a: Action)
    requires s.Shape() && NobodyWaits(s) && Enough(created, s)
    ensures Enough(created, Apply(s, a))
  {
    if a.t < |s.clients| {
      OneMoves(s, a);
      CountUpdate(s.clients, a.t, Apply(s, a).clients[a.t], HoldsAny);
    }
  }

  ghost predicate NotWaiting(c: Client) {
    && !c.GoToSleep? && !c.Asleep? && !c.TimedOut? && !c.Crashed?
    && (c.BorrowLock? || c.TestIdle? ==> !c.expired)
  }

  lemma MoverNotWaiting(created: seq<Conn>, s: State, a: Action)
    requires s.Shape() && Enough(created, s) && |s.clients| <= |created|
    requires a.t < |s.clients| && NotWaiting(s.clients[a.t])
    ensures NotWaiting(Apply(s, a).clients[a.t])
  {
    if s.clients[a.t].TestIdle? {
      CountStrict(s.clients, a.t, HoldsAny);
    }
  }

  lemma StepNobodyWaits(created: seq<Conn>, s: State, a: Action)
    requires s.Shape() && NobodyWaits(s) && Enough(created, s) && |s.clients| <= |created|
    ensures NobodyWaits(Apply(s, a))
  {
    if a.t < |s.clients| {
      MoverNotWaiting(created, s, a);
      OneMoves(s, a);
    }
  }

  lemma {:induction false} AlwaysEnough(created: seq<Conn>, clients: nat, acts: seq<Action>)
    requires clients <= |created|
    ensures NobodyWaits(Exec(created, clients, acts)) && Enough(created, Exec(created, clients, acts))
    decreases |acts|
  {
    if acts == [] {
      CountNone(Init(created, clients).clients, HoldsAny);
    } else {
      var s, a := Exec(created, clients, acts[..|acts| - 1]), acts[|acts| - 1];
      AlwaysEnough(created, clients, acts[..|acts| - 1]);
      StepEnough(created, s, a);
      StepNobodyWaits(created, s, a);
    }
  }

  // ---- More clients than connections -------------------------------------------------------

  lemma Snoc(created: seq<Conn>, clients: nat, acts: seq<Action>, a: Action)
    ensures Exec(created, clients, acts + [a]) == Apply(Exec(created, clients, acts), a)
  {
    var all := acts + [a];
    assert all[..|all| - 1] == acts && all[|all| - 1] == a;
  }

  /** The first k clients are in their queries, holding the first k connections. */
  ghost predicate Taken(created: seq<Conn>, s: State, k: nat) {
    && s.Shape() && s.owner.None? && k <= |created| && s.idle == created[k..]
    && forall t :: k <= t < |s.clients| ==> s.clients[t].Idle?
  }

  lemma SameAt(s: seq<Client>, t: nat, a: Client, b: Client)
    requires t < |s|
    ensures s[t := a][t := b] == s[t := b]
  {}

  /** A free client, asked to run, reaches the wait predicate. */
  lemma ReachTest(created: seq<Conn>, clients: nat, acts: seq<Action>, t: nat, op: Op) returns (more: seq<Action>)
    requires var s := Exec(created, clients, acts);
      t < |s.clients| && s.clients[t].Idle? && s.owner.None?
    ensures var s, d := Exec(created, clients, acts), Exec(created, clients, more);
      d.clients == s.clients[t := TestIdle(op, false)] && d.owner == Some(t) && d.idle == s.idle
  {
    var s := Exec(created, clients, acts);
    var a1 := acts + [Call(t, op)];
    Snoc(created, clients, acts, Call(t, op));
    more := a1 + [Step(t, true, 0)];
    Snoc(created, clients, a1, Step(t, true, 0));
    SameAt(s.clients, t, BorrowLock(op, false), TestIdle(op, false));
  }

  lemma {:induction false} TakeAll(created: seq<Conn>, clients: nat, k: nat) returns (acts: seq<Action>)
    requires k <= |created| && k < clients
    ensures Taken(created, Exec(created, clients, acts), k)
  {
    if k == 0 {
      acts := [];
      assert created[0..] == created;
    } else {
      var a0 := TakeAll(created, clients, k - 1);
      var t := k - 1;
      var a1 := ReachTest(created, clients, a0, t, FindKey);
      acts := TakeOne(created, clients, a1, t);
      assert created[t..][1..] == created[k..];
    }
  }

  lemma TakeSteps(s: State, t: nat)
    requires s.Shape() && t < |s.clients| && s.clients[t] == TestIdle(FindKey, false)
    requires s.owner == Some(t) && s.idle != []
    ensures var a := Step(t, true, 0);
      Apply(Apply(s, a), a).Shape()
    ensures var a := Step(t, true, 0);
      var d := Apply(Apply(Apply(s, a), a), a);
      d.idle == s.idle[1..] && d.owner.None? && d.clients == s.clients[t := Query(FindKey, s.idle[0])]
  {
    var a := Step(t, true, 0);
    var s1 := Apply(s, a);
    assert s1 == s.At(t, TakeConn(FindKey));
    var s2 := Apply(s1, a);
    SameAt(s.clients, t, TakeConn(FindKey), GotConn(FindKey, s.idle[0]));
    assert s2.clients == s.clients[t := GotConn(FindKey, s.idle[0])] && s2.idle == s.idle[1..];
    SameAt(s.clients, t, GotConn(FindKey, s.idle[0]), Query(FindKey, s.idle[0]));
  }

  lemma TakeOne(created: seq<Conn>, clients: nat, acts: seq<Action>, t: nat) returns (more: seq<Action>)
    requires var s := Exec(created, clients, acts);
      t < |s.clients| && s.clients[t] == TestIdle(FindKey, false) && s.owner == Some(t) && s.idle != []
    ensures var s, d := Exec(created, clients, acts), Exec(created, clients, more);
      d.idle == s.idle[1..] && d.owner.None? && d.clients == s.clients[t := Query(FindKey, s.idle[0])]
  {
    var a := Step(t, true, 0);
    TakeSteps(Exec(created, clients, acts), t);
    Snoc(created, clients, acts, a);
    Snoc(created, clients, acts + [a], a);
    Snoc(created, clients, acts + [a] + [a], a);
    more := acts + [a] + [a] + [a];
  }

  /** A call of this kind has got nullptr: find_api_key reports it, the others go on with it. */
  ghost predicate GotNull(s: State, op: Op) {
    if op.FindKey? then exists r :: r in s.calls && r.op == op && r.refused
    else exists t :: 0 <= t < |s.clients| && s.clients[t] == Crashed(op)
  }

  /** One more client finds nothing, sleeps for five seconds, and gets nullptr. */
  lemma RunOut(created: seq<Conn>, clients: nat, acts: seq<Action>, t: nat, op: Op) returns (more: seq<Action>)
    requires var s := Exec(created, clients, acts);
      t < |s.clients| && s.clients[t] == TestIdle(op, false) && s.owner == Some(t) && s.idle == []
    ensures GotNull(Exec(created, clients, more), op)
  {
    var a := Step(t, true, 0);
    Snoc(created, clients, acts, a);
    var a1 := acts + [a];
    Snoc(created, clients, a1, a);
    var a2 := a1 + [a];
    assert Exec(created, clients, a2).clients[t] == Asleep(op);
    Snoc(created, clients, a2, Timeout(t));
    more := Expire(created, clients, a2 + [Timeout(t)], t, op);
  }

  lemma ExpireSteps(s: State, t: nat, op: Op)
    requires s.Shape() && t < |s.clients| && s.clients[t] == BorrowLock(op, true)
    requires s.owner.None? && s.idle == []
    ensures var a := Step(t, true, 0);
      Apply(Apply(s, a), a).Shape()
    ensures var a := Step(t, true, 0);
      GotNull(Apply(Apply(Apply(s, a), a), a), op)
  {
    var a := Step(t, true, 0);
    var s1 := Apply(s, a);
    assert s1 == s.At(t, TestIdle(op, true)).(owner := Some(t));
    var s2 := Apply(s1, a);
    SameAt(s.clients, t, TestIdle(op, true), TimedOut(op));
    assert s2 == s.At(t, TimedOut(op)).(owner := Some(t));
    var d := Apply(s2, a);
    if op.FindKey? {
      assert d.calls == s.calls + [Record(op, true, s.traces[t])];
      assert d.calls[|s.calls|] in d.calls;
    } else {
      assert d.clients[t] == Crashed(op);
    }
  }

  lemma Expire(created: seq<Conn>, clients: nat, acts: seq<Action>, t: nat, op: Op) returns (more: seq<Action>)
    requires var s := Exec(created, clients, acts);
      t < |s.clients| && s.clients[t] == BorrowLock(op, true) && s.owner.None? && s.idle == []
    ensures GotNull(Exec(created, clients, more), op)
  {
    var a := Step(t, true, 0);
    ExpireSteps(Exec(created, clients, acts), t, op);
    Snoc(created, clients, acts, a);
    Snoc(created, clients, acts + [a], a);
    Snoc(created, clients, acts + [a] + [a], a);
    more := acts + [a] + [a] + [a];
  }

  lemma NullReachable(created: seq<Conn>, clients: nat, op: Op) returns (acts: seq<Action>)
    requires clients > |created|
    ensures GotNull(Exec(created, clients, acts), op)
  {
    var t := |created|;
    var a0 := TakeAll(created, clients, t);
    var a1 := ReachTest(created, clients, a0, t, op);
    acts := RunOut(created, clients, a1, t, op);
  }

  ghost predicate RunGivesNull(created: seq<Conn>, clients: nat, acts: seq<Action>, op: Op) {
    GotNull(Exec(created, clients, acts), op)
  }

  /** For each of the four calls: it can get nullptr if and only if there are more clients than connections. */
  lemma {:induction false} GotNullExact(created: seq<Conn>, clients: nat, op: Op)
    ensures (exists acts :: RunGivesNull(created, clients, acts, op)) <==> clients > |created|
  {
    if clients > |created| {
      var acts := NullReachable(created, clients, op);
      assert RunGivesNull(created, clients, acts, op);
    } else {
      forall acts
        ensures !RunGivesNull(created, clients, acts, op)
      {
        AlwaysEnough(created, clients, acts);
        NeverRefused(created, clients, acts);
      }
    }
  }

  lemma NotRefused(s: State, a: Action)
    requires s.Shape() && (a.t < |s.clients| ==> !s.clients[a.t].TimedOut?)
    ensures var d := Apply(s, a);
      d.calls == s.calls || exists r :: d.calls == s.calls + [r] && !r.refused
  {}

  lemma {:induction false} NeverRefused(created: seq<Conn>, clients: nat, acts: seq<Action>)
    requires clients <= |created|
    ensures forall r :: r in Exec(created, clients, acts).calls ==> !r.refused
    decreases |acts|
  {
    if acts != [] {
      AlwaysEnough(created, clients, acts[..|acts| - 1]);
      NeverRefused(created, clients, acts[..|acts| - 1]);
      NotRefused(Exec(created, clients, acts[..|acts| - 1]), acts[|acts| - 1]);
    }
  }

  // ---- Nobody gives up early ---------------------------------------------------------------

  /** Client t has not been told that its five seconds are over. */
  ghost predicate Patient(c: Client) {
    && !c.TimedOut? && !c.Crashed?
    && (c.BorrowLock? || c.TestIdle? ==> !c.expired)
  }

  lemma PatientMover(s: State, t: nat, ok: bool, woken: nat)
    requires s.Shape() && t < |s.clients| && Patient(s.clients[t])
    ensures var d := ClientStep(s, t, ok, woken);
      t < |d.clients| && Patient(d.clients[t])
  {}

  /** Another client's step leaves client t where it is, or wakes it. */
  lemma PatientOther(s: State, a: Action, t: nat)
    requires s.Shape() && t < |s.clients| && Patient(s.clients[t]) && a.t != t
    ensures var d := Apply(s, a);
      t < |d.clients| && (d.clients[t] == s.clients[t] || d.clients[t] == BorrowLock(s.clients[t].op, false))
  {}

  lemma PatientStep(s: State, a: Action, t: nat)
    requires s.Shape() && t < |s.clients| && Patient(s.clients[t]) && a != Timeout(t)
    ensures var d := Apply(s, a);
      t < |d.clients| && Patient(d.clients[t])
  {
    if a.t != t {
      PatientOther(s, a, t);
    } else if a.Step? {
      PatientMover(s, t, a.ok, a.woken);
    }
  }

  /** Without its timeout no client gives up, however often it is woken and finds nothing. */
  lemma {:induction false} PatientUntilTimeout(created: seq<Conn>, clients: nat, acts: seq<Action>, t: nat)
    requires t < clients && Timeout(t) !in acts
    ensures Patient(Exec(created, clients, acts).clients[t])
    decreases |acts|
  {
    if acts != [] {
      var init, a := acts[..|acts| - 1], acts[|acts| - 1];
      assert a in acts && forall x :: x in init ==> x in acts;
      PatientUntilTimeout(created, clients, init, t);
      PatientStep(Exec(created, clients, init), a, t);
    }
  }

  /**
   A call stays the same call until it ends; it ends with its record, behind its notification or, for
   find_api_key, after its timeout with no connection idle; and it gets nullptr in no other way.
   */
  lemma {:induction false} CallEndsOnlyWhenDecided(created: seq<Conn>, clients: nat, acts: seq<Action>, t: nat,
                                                   ok: bool, woken: nat)
    requires t < clients
    ensures var s := Exec(created, clients, acts);
      var d := ClientStep(s, t, ok, woken);
      && |d.clients| == clients
      && var p, q := s.clients[t], d.clients[t];
         && (!p.Idle? && !q.Idle? ==> q.op == p.op && d.calls == s.calls)
         && (!p.Idle? && q.Idle? ==>
              && d.calls == s.calls + [Record(p.op, p.TimedOut?, s.traces[t])]
              && (p.ReturnNotify? || (p.TimedOut? && p.op.FindKey? && s.idle == [])))
         && (q.Crashed? && !p.Crashed? ==> p.TimedOut? && !p.op.FindKey? && s.idle == [])
  {
    ExecInv(created, clients, acts);
    assert Knows(Exec(created, clients, acts), Exec(created, clients, acts).clients[t]);
  }

  /**
   An admin call can go on with nullptr if and only if there are more clients than connections.
   */
  lemma NullUseExact(created: seq<Conn>, clients: nat)
    ensures (exists acts, t :: 0 <= t < clients && Exec(created, clients, acts).clients[t].Crashed?)
       <==> clients > |created|
  {
    if clients > |created| {
      var acts := NullReachable(created, clients, DisableKey);
      var t :| 0 <= t < clients && Exec(created, clients, acts).clients[t] == Crashed(DisableKey);
      assert Exec(created, clients, acts).clients[t].Crashed?;
    } else {
      forall acts, t | 0 <= t < clients
        ensures !Exec(created, clients, acts).clients[t].Crashed?
      {
        AlwaysEnough(created, clients, acts);
      }
    }
  }

  /** find_api_key never goes on with nullptr. */
  lemma {:induction false} FindNeverUsesNull(created: seq<Conn>, clients: nat, acts: seq<Action>, t: nat)
    requires t < clients
    ensures var c := Exec(created, clients, acts).clients[t];
      c.Crashed? ==> !c.op.FindKey?
  {
    ExecInv(created, clients, acts);
  }
}
