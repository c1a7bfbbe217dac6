/**
 The step system and the sequential calls are the same algorithm: every run in which only one client
 moves, from the start of its call to the end, leaves the pool as the sequential call does.
 */
module ConnectionPoolSolo {
  import opened Basics
  import opened Seqs
  import opened ConnectionPool
  import Repository

  /** The actions one after the other. */
  function RunFrom(s: State, acts: seq<Action>): (d: State)
    requires s.Shape()
    ensures d.Shape() && |d.clients| == |s.clients|
    decreases |acts|
  {
    if acts == [] then s
    else
      StepShape(s, acts[0]);
      RunFrom(Apply(s, acts[0]), acts[1..])
  }

  /** Only client t moves; its query may have any outcome. */
  ghost predicate Alone(acts: seq<Action>, t: nat) {
    forall a :: a in acts ==> a.Step? && a.t == t
  }

  lemma AloneTail(acts: seq<Action>, t: nat)
    requires Alone(acts, t) && acts != []
    ensures acts[0].Step? && acts[0].t == t && Alone(acts[1..], t)
  {
    assert acts[0] in acts && forall a :: a in acts[1..] ==> a in acts;
  }

  lemma RunCons(s: State, a: Action, acts: seq<Action>)
    requires s.Shape()
    ensures Apply(s, a).Shape() && RunFrom(s, [a] + acts) == RunFrom(Apply(s, a), acts)
  {
    StepShape(s, a);
    HeadTail([a], acts);
    Nil(acts);
  }

  /** The notification at the end of a call has woken one sleeper, if there was one. */
  ghost predicate OneWoken(before: seq<Client>, after: seq<Client>) {
    if SomeAsleep(before) then
      exists u :: 0 <= u < |before| && before[u].Asleep? && after == before[u := BorrowLock(before[u].op, false)]
    else after == before
  }

  /** What client t has done to the pool it found in state s, by where it is in its call. */
  ghost predicate Along(s: State, op: Op, d: State, t: nat)
    requires s.Shape() && d.Shape() && t < |s.clients| == |d.clients| && s.idle != []
  {
    var c, conn, trace := d.clients[t], s.idle[0], d.traces[t];
    && d.traces == s.traces[t := trace]
    && (d.owner == if c.Locked() then Some(t) else None)
    && (if c.Idle? then OneWoken(s.clients, d.clients) && d.calls == s.calls + [Record(op, false, trace)]
        else d.clients == s.clients[t := c] && d.calls == s.calls && c.op == op)
    && match c
       case BorrowLock(_, expired) => d.idle == s.idle && trace == Trace([], []) && !expired
       case TestIdle(_, expired) => d.idle == s.idle && trace == Trace([], []) && !expired
       case TakeConn(_) => d.idle == s.idle && trace == Trace([], [])
       case GoToSleep(_) => false
       case Asleep(_) => false
       case TimedOut(_) => false
       case Crashed(_) => false
       case _ =>
         if c.Holds() then c.conn == conn && d.idle == s.idle[1..] && trace == Trace([conn], [])
         else d.idle == Repository.Rotated(s.idle) && trace == Trace([conn], [conn])
  }

  lemma AlongBorrow(s: State, op: Op, d: State, t: nat, ok: bool, woken: nat)
    requires s.Shape() && d.Shape() && t < |s.clients| == |d.clients| && s.idle != []
    requires Along(s, op, d, t) && (d.clients[t].BorrowLock? || d.clients[t].TestIdle? || d.clients[t].TakeConn?)
    ensures var e := ClientStep(d, t, ok, woken);
      e.Shape() && |e.clients| == |d.clients| && Along(s, op, e, t)
  {
    Nil([s.idle[0]]);
  }

  predicate Querying(c: Client) {
    c.GotConn? || c.Query? || c.StoreResult? || c.FetchRow?
  }

  lemma AlongQuery(s: State, op: Op, d: State, t: nat, ok: bool, woken: nat)
    requires s.Shape() && d.Shape() && t < |s.clients| == |d.clients| && s.idle != []
    requires Along(s, op, d, t) && Querying(d.clients[t])
    ensures var e := ClientStep(d, t, ok, woken);
      e.Shape() && |e.clients| == |d.clients| && Along(s, op, e, t)
  {}

  lemma AlongReturn(s: State, op: Op, d: State, t: nat, ok: bool, woken: nat)
    requires s.Shape() && d.Shape() && t < |s.clients| == |d.clients| && s.idle != []
    requires Along(s, op, d, t) && (d.clients[t].ReturnLock? || d.clients[t].ReturnPush? || d.clients[t].ReturnUnlock?)
    ensures var e := ClientStep(d, t, ok, woken);
      e.Shape() && |e.clients| == |d.clients| && Along(s, op, e, t)
  {
    Nil([s.idle[0]]);
  }

  lemma AlongNotify(s: State, op: Op, d: State, t: nat, ok: bool, woken: nat)
    requires s.Shape() && d.Shape() && t < |s.clients| == |d.clients| && s.idle != []
    requires Along(s, op, d, t) && d.clients[t].ReturnNotify? && s.clients[t].Idle?
    ensures var e := ClientStep(d, t, ok, woken);
      e.Shape() && |e.clients| == |d.clients| && Along(s, op, e, t)
  {
    assert forall u :: 0 <= u < |s.clients| && u != t ==> d.clients[u] == s.clients[u];
    assert SomeAsleep(s.clients) <==> SomeAsleep(d.clients) by {
      if u :| 0 <= u < |s.clients| && s.clients[u].Asleep? {
        assert d.clients[u].Asleep?;
      }
    }
    assert s.clients[t := Idle] == s.clients;
  }

  lemma {:induction false} AlongRun(s: State, op: Op, d: State, t: nat, acts: seq<Action>)
    requires s.Shape() && d.Shape() && t < |s.clients| == |d.clients| && s.idle != []
    requires Along(s, op, d, t) && s.clients[t].Idle? && Alone(acts, t)
    ensures Along(s, op, RunFrom(d, acts), t)
    decreases |acts|
  {
    if acts != [] {
      AloneTail(acts, t);
      AlongStep(s, op, d, t, acts[0].ok, acts[0].woken);
      AlongRun(s, op, Apply(d, acts[0]), t, acts[1..]);
    }
  }

  lemma AlongStep(s: State, op: Op, d: State, t: nat, ok: bool, woken: nat)
    requires s.Shape() && d.Shape() && t < |s.clients| == |d.clients| && s.idle != []
    requires Along(s, op, d, t) && s.clients[t].Idle?
    ensures var e := ClientStep(d, t, ok, woken);
      e.Shape() && |e.clients| == |d.clients| && Along(s, op, e, t)
  {
    if d.clients[t].ReturnNotify? {
      AlongNotify(s, op, d, t, ok, woken);
    } else if Querying(d.clients[t]) {
      AlongQuery(s, op, d, t, ok, woken);
    } else if d.clients[t].BorrowLock? || d.clients[t].TestIdle? || d.clients[t].TakeConn? {
      AlongBorrow(s, op, d, t, ok, woken);
    } else if !d.clients[t].Idle? {
      AlongReturn(s, op, d, t, ok, woken);
    }
  }

  lemma CallStarts(s: State, t: nat, op: Op, acts: seq<Action>)
    requires s.Shape() && t < |s.clients| && s.clients[t].Idle? && s.owner.None? && s.idle != [] && Alone(acts, t)
    ensures Along(s, op, RunFrom(s, [Call(t, op)] + acts), t)
  {
    RunCons(s, Call(t, op), acts);
    AlongRun(s, op, Apply(s, Call(t, op)), t, acts);
  }

  /** Every uninterrupted borrow takes the first idle connection and changes nothing else. */
  lemma {:induction false} SoloBorrow(s: State, t: nat, op: Op, acts: seq<Action>)
    requires s.Shape() && t < |s.clients| && s.clients[t].Idle? && s.owner.None? && s.idle != [] && Alone(acts, t)
    requires RunFrom(s, [Call(t, op)] + acts).clients[t].Query?
    ensures RunFrom(s, [Call(t, op)] + acts) == s.(
      idle := s.idle[1..],
      clients := s.clients[t := Query(op, s.idle[0])],
      traces := s.traces[t := Trace([s.idle[0]], [])])
  {
    CallStarts(s, t, op, acts);
  }

  /**
   Every uninterrupted call that ends, whatever the database answers, leaves the idle queue as the
   sequential calls do, has borrowed and returned the first connection, and has woken one sleeper.
   */
  lemma {:induction false} SoloCall(s: State, t: nat, op: Op, acts: seq<Action>)
    requires s.Shape() && t < |s.clients| && s.clients[t].Idle? && s.owner.None? && s.idle != [] && Alone(acts, t)
    requires RunFrom(s, [Call(t, op)] + acts).clients[t].Idle?
    ensures var d := RunFrom(s, [Call(t, op)] + acts);
      && d.idle == Repository.Rotated(s.idle) && d.owner.None? && OneWoken(s.clients, d.clients)
      && d.calls == s.calls + [Record(op, false, Trace([s.idle[0]], [s.idle[0]]))]
  {
    CallStarts(s, t, op, acts);
  }

  function Rank(c: Client): nat {
    match c
    case BorrowLock(_, _) => 11
    case TestIdle(_, _) => 10
    case TakeConn(_) => 9
    case GotConn(_, _) => 8
    case Query(_, _) => 7
    case StoreResult(_, _) => 6
    case FetchRow(_, _) => 5
    case ReturnLock(_, _) => 4
    case ReturnPush(_, _) => 3
    case ReturnUnlock(_) => 2
    case ReturnNotify(_) => 1
    case _ => 0
  }

  /** The outcome of the next step: of the query, of fetching its result; then no further row. */
  function Outcome(c: Client, queryOk: bool, storeOk: bool): bool {
    if c.Query? then queryOk else c.StoreResult? && storeOk
  }

  /** Client t moves alone, and the database answers it as given. */
  ghost predicate Answered(s: State, acts: seq<Action>, t: nat, queryOk: bool, storeOk: bool)
    requires s.Shape() && t < |s.clients|
    decreases |acts|
  {
    acts == [] ||
    (&& acts[0].Step? && acts[0].t == t && acts[0].ok == Outcome(s.clients[t], queryOk, storeOk)
     && (StepShape(s, acts[0]); Answered(Apply(s, acts[0]), acts[1..], t, queryOk, storeOk)))
  }

  lemma {:induction false} AnsweredAlone(s: State, acts: seq<Action>, t: nat, queryOk: bool, storeOk: bool)
    requires s.Shape() && t < |s.clients| && Answered(s, acts, t, queryOk, storeOk)
    ensures Alone(acts, t)
    decreases |acts|
  {
    if acts != [] {
      StepShape(s, acts[0]);
      AnsweredAlone(Apply(s, acts[0]), acts[1..], t, queryOk, storeOk);
    }
  }

  /** A sleeper for notify_one, if there is one. */
  lemma Sleeper(cs: seq<Client>) returns (u: nat)
    ensures SomeAsleep(cs) ==> u < |cs| && cs[u].Asleep?
  {
    u := 0;
    if i :| 0 <= i < |cs| && cs[i].Asleep? {
      u := i;
    }
  }

  lemma RankDrops(s: State, op: Op, d: State, t: nat, queryOk: bool, storeOk: bool, woken: nat)
    requires s.Shape() && d.Shape() && t < |s.clients| == |d.clients| && s.idle != []
    requires Along(s, op, d, t) && !d.clients[t].Idle?
    requires SomeAsleep(d.clients) ==> woken < |d.clients| && d.clients[woken].Asleep?
    ensures var c := d.clients[t];
      Rank(ClientStep(d, t, Outcome(c, queryOk, storeOk), woken).clients[t]) < Rank(c)
  {}

  lemma {:induction false} AlongEnds(s: State, op: Op, d: State, t: nat, queryOk: bool, storeOk: bool)
    returns (acts: seq<Action>)
    requires s.Shape() && d.Shape() && t < |s.clients| == |d.clients| && s.idle != []
    requires Along(s, op, d, t) && s.clients[t].Idle?
    ensures Answered(d, acts, t, queryOk, storeOk) && RunFrom(d, acts).clients[t].Idle?
    decreases Rank(d.clients[t])
  {
    if d.clients[t].Idle? {
      acts := [];
    } else {
      var woken := Sleeper(d.clients);
      var a := Step(t, Outcome(d.clients[t], queryOk, storeOk), woken);
      RankDrops(s, op, d, t, queryOk, storeOk, woken);
      AlongStep(s, op, d, t, a.ok, woken);
      var others := AlongEnds(s, op, Apply(d, a), t, queryOk, storeOk);
      RunCons(d, a, others);
      HeadTail([a], others);
      Nil(others);
      acts := [a] + others;
    }
  }

  /** Such a call ends whatever the database answers. */
  lemma SoloCallEnds(s: State, t: nat, op: Op, queryOk: bool, storeOk: bool) returns (acts: seq<Action>)
    requires s.Shape() && t < |s.clients| && s.clients[t].Idle? && s.owner.None? && s.idle != []
    ensures Answered(Apply(s, Call(t, op)), acts, t, queryOk, storeOk) && Alone(acts, t)
    ensures RunFrom(s, [Call(t, op)] + acts).clients[t].Idle?
  {
    var c := Apply(s, Call(t, op));
    acts := AlongEnds(s, op, c, t, queryOk, storeOk);
    AnsweredAlone(c, acts, t, queryOk, storeOk);
    RunCons(s, Call(t, op), acts);
  }
}
