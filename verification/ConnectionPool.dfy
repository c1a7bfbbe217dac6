/**
 src/db/connection_pool with the repository calls that use it, as a step system: any number of
 clients, waiting with a timeout. Query outcomes are arbitrary. An action that is not enabled does
 nothing.
 */
module ConnectionPool {
  import opened Basics
  import opened Seqs
  import opened Wakeup

  type Conn = int

  datatype Op = FindKey | CreateKey | ListKeys | DisableKey

  /** Where a client is. `expired` says that its five seconds are over. */
  datatype Client =
    | Idle
    // borrow
    | BorrowLock(op: Op, expired: bool)
    | TestIdle(op: Op, expired: bool)
    | GoToSleep(op: Op)
    | Asleep(op: Op)
    | TimedOut(op: Op)
    | TakeConn(op: Op)
    | GotConn(op: Op, conn: Conn)
    // the repository call
    | Query(op: Op, conn: Conn)
    | StoreResult(op: Op, conn: Conn)
    | FetchRow(op: Op, conn: Conn)
    // return_connection
    | ReturnLock(op: Op, conn: Conn)
    | ReturnPush(op: Op, conn: Conn)
    | ReturnUnlock(op: Op)
    | ReturnNotify(op: Op)
    // a call that did not check for nullptr went on with it
    | Crashed(op: Op)
  {
    predicate Locked() {
      TestIdle? || GoToSleep? || TimedOut? || TakeConn? || GotConn? || ReturnPush? || ReturnUnlock?
    }

    predicate Holds() {
      GotConn? || Query? || StoreResult? || FetchRow? || ReturnLock? || ReturnPush?
    }
  }

  /** History of the call a client is in: the connections it has borrowed and returned. */
  datatype Trace = Trace(borrowed: seq<Conn>, returned: seq<Conn>)
  {
    function Borrowing(conn: Conn): Trace {
      this.(borrowed := borrowed + [conn])
    }

    function Returning(conn: Conn): Trace {
      this.(returned := returned + [conn])
    }
  }

  /** History of a finished call: `refused` if borrow returned nullptr. */
  datatype Record = Record(op: Op, refused: bool, trace: Trace)

  datatype State = State(idle: seq<Conn>, owner: Option<nat>, clients: seq<Client>, traces: seq<Trace>,
                         calls: seq<Record>)
  {
    ghost predicate Shape() {
      |clients| == |traces|
    }

    function At(t: nat, c: Client): State
      requires t < |clients|
    {
      this.(clients := clients[t := c])
    }

    function Traced(t: nat, tr: Trace): State
      requires t < |traces|
    {
      this.(traces := traces[t := tr])
    }
  }

  function Init(created: seq<Conn>, clients: nat): State {
    State(created, None, seq(clients, _ => Idle), seq(clients, _ => Trace([], [])), [])
  }

  datatype Action =
    | Call(t: nat, op: Op)
    | Step(t: nat, ok: bool, woken: nat)  // `ok`: the query step succeeds, or another row follows
    | Timeout(t: nat)
    | Spurious(t: nat)

  predicate SomeAsleep(cs: seq<Client>) {
    exists i | 0 <= i < |cs| :: cs[i].Asleep?
  }

  function Apply(s: State, a: Action): State
    requires s.Shape()
  {
    match a
    case Call(t, op) =>
      if t < |s.clients| && s.clients[t].Idle? then s.At(t, BorrowLock(op, false)).Traced(t, Trace([], [])) else s
    case Step(t, ok, woken) => if t < |s.clients| then ClientStep(s, t, ok, woken) else s
    case Timeout(t) => if t < |s.clients| && s.clients[t].Asleep? then s.At(t, BorrowLock(s.clients[t].op, true)) else s
    case Spurious(t) =>
      if t < |s.clients| && s.clients[t].Asleep? then s.At(t, BorrowLock(s.clients[t].op, false)) else s
  }

  function ClientStep(s: State, t: nat, ok: bool, woken: nat): State
    requires s.Shape() && t < |s.clients|
  {
    match s.clients[t]
    case Idle => s
    case BorrowLock(op, expired) => if s.owner.None? then s.At(t, TestIdle(op, expired)).(owner := Some(t)) else s
    case TestIdle(op, expired) =>
      if s.idle != [] then s.At(t, TakeConn(op))
      else if expired then s.At(t, TimedOut(op))
      else s.At(t, GoToSleep(op))
    case GoToSleep(op) => s.At(t, Asleep(op)).(owner := None)
    case Asleep(op) => s
    case TimedOut(op) =>
      if op.FindKey? then s.At(t, Idle).(owner := None, calls := s.calls + [Record(op, true, s.traces[t])])
      else s.At(t, Crashed(op)).(owner := None)
    case TakeConn(op) =>
      if s.idle == [] then s
      else s.At(t, GotConn(op, s.idle[0])).(idle := s.idle[1..]).Traced(t, s.traces[t].Borrowing(s.idle[0]))
    case GotConn(op, conn) => s.At(t, Query(op, conn)).(owner := None)
    case Query(op, conn) =>
      if ok && (op.FindKey? || op.ListKeys?) then s.At(t, StoreResult(op, conn)) else s.At(t, ReturnLock(op, conn))
    case StoreResult(op, conn) => if ok then s.At(t, FetchRow(op, conn)) else s.At(t, ReturnLock(op, conn))
    case FetchRow(op, conn) => if ok && op.ListKeys? then s else s.At(t, ReturnLock(op, conn))
    case ReturnLock(op, conn) => if s.owner.None? then s.At(t, ReturnPush(op, conn)).(owner := Some(t)) else s
    case ReturnPush(op, conn) =>
      s.At(t, ReturnUnlock(op)).(idle := s.idle + [conn]).Traced(t, s.traces[t].Returning(conn))
    case ReturnUnlock(op) => s.At(t, ReturnNotify(op)).(owner := None)
    case ReturnNotify(op) =>
      if woken < |s.clients| && s.clients[woken].Asleep? then
        Finish(s, t, op).At(woken, BorrowLock(s.clients[woken].op, false))
      else if SomeAsleep(s.clients) then s
      else Finish(s, t, op)
    case Crashed(op) => s
  }

  function Finish(s: State, t: nat, op: Op): State
    requires s.Shape() && t < |s.clients|
  {
    s.At(t, Idle).(calls := s.calls + [Record(op, false, s.traces[t])])
  }

  lemma StepShape(s: State, a: Action)
    requires s.Shape()
    ensures Apply(s, a).Shape() && |Apply(s, a).clients| == |s.clients|
  {}

  function Exec(created: seq<Conn>, clients: nat, acts: seq<Action>): (s: State)
    ensures s.Shape() && |s.clients| == clients
    decreases |acts|
  {
    if acts == [] then Init(created, clients)
    else
      var s := Exec(created, clients, acts[..|acts| - 1]);
      StepShape(s, acts[|acts| - 1]);
      Apply(s, acts[|acts| - 1])
  }

  // ---- Conservation ----------------------------------------------------------------------

  ghost predicate Exclusion(s: State) {
    && (forall t :: 0 <= t < |s.clients| && s.clients[t].Locked() ==> s.owner == Some(t))
    && (s.owner.Some? ==> s.owner.value < |s.clients| && s.clients[s.owner.value].Locked())
  }

  /** What the client holding the mutex has found out. */
  ghost predicate Knowing(s: State) {
    forall t :: 0 <= t < |s.clients| ==> Knows(s, s.clients[t])
  }

  function HoldsConn(c: Client, x: Conn): nat {
    if c.Holds() && c.conn == x then 1 else 0
  }

  /** How many clients hold connection x. */
  function Holders(cs: seq<Client>, x: Conn): nat {
    if cs == [] then 0 else HoldsConn(cs[0], x) + Holders(cs[1..], x)
  }

  ghost predicate Conserved(created: seq<Conn>, s: State, x: Conn) {
    multiset(s.idle)[x] + Holders(s.clients, x) == multiset(created)[x]
  }

  /** What a client has done with connections so far in its call. */
  ghost predicate Honest(c: Client, tr: Trace) {
    if c.Holds() then tr == Trace([c.conn], [])
    else if c.ReturnUnlock? || c.ReturnNotify? then |tr.borrowed| == 1 && tr.returned == tr.borrowed
    else !c.Idle? ==> tr == Trace([], [])
  }

  /** Borrowed nothing because borrow gave nullptr, or borrowed one connection and returned it. */
  ghost predicate Settled(r: Record) {
    if r.refused then r.op.FindKey? && r.trace == Trace([], [])
    else |r.trace.borrowed| == 1 && r.trace.returned == r.trace.borrowed
  }

  ghost predicate HonestAll(s: State) {
    && s.Shape()
    && (forall t :: 0 <= t < |s.clients| ==> Honest(s.clients[t], s.traces[t]))
    && (forall t :: 0 <= t < |s.clients| && s.clients[t].Crashed? ==> !s.clients[t].op.FindKey?)
    && (forall r :: r in s.calls ==> Settled(r))
  }

  ghost predicate Inv(created: seq<Conn>, s: State) {
    Exclusion(s) && Knowing(s) && HonestAll(s) && forall x :: Conserved(created, s, x)
  }

  lemma {:induction false} HoldersUpdate(cs: seq<Client>, t: nat, c: Client, x: Conn)
    requires t < |cs|
    ensures Holders(cs[t := c], x) + HoldsConn(cs[t], x) == Holders(cs, x) + HoldsConn(c, x)
  {
    if t == 0 {
      assert cs[0 := c][1..] == cs[1..];
    } else {
      assert cs[t := c][1..] == cs[1..][t - 1 := c];
      HoldersUpdate(cs[1..], t - 1, c, x);
    }
  }

  lemma {:induction false} HoldersNone(cs: seq<Client>, x: Conn)
    requires forall t :: 0 <= t < |cs| ==> HoldsConn(cs[t], x) == 0
    ensures Holders(cs, x) == 0
  {
    if cs != [] {
      HoldersNone(cs[1..], x);
    }
  }

  lemma AppendCount(s: seq<Conn>, conn: Conn, x: Conn)
    ensures multiset(s + [conn])[x] == multiset(s)[x] + if conn == x then 1 else 0
  {
    assert multiset(s + [conn]) == multiset(s) + multiset{conn};
  }

  lemma HeadCount(s: seq<Conn>, x: Conn)
    requires s != []
    ensures multiset(s)[x] == multiset(s[1..])[x] + if s[0] == x then 1 else 0
  {
    Uncons(s);
    assert multiset([s[0]] + s[1..]) == multiset{s[0]} + multiset(s[1..]);
  }

  /** Client t moves, keeping the mutex or staying without it; another may be woken. */
  lemma KeepsOwner(s: State, d: State, t: nat)
    requires Exclusion(s) && t < |s.clients| == |d.clients| && d.owner == s.owner
    requires d.clients[t].Locked() <==> s.clients[t].Locked()
    requires forall u :: 0 <= u < |s.clients| && u != t ==> (d.clients[u].Locked() <==> s.clients[u].Locked())
    ensures Exclusion(d)
  {}

  /** Client t takes the free mutex or gives it back. */
  lemma ChangesOwner(s: State, d: State, t: nat)
    requires Exclusion(s) && t < |s.clients| == |d.clients|
    requires d.clients == s.clients[t := d.clients[t]]
    requires if d.clients[t].Locked() then s.owner.None? && d.owner == Some(t) else s.owner == Some(t) && d.owner.None?
    ensures Exclusion(d)
  {}

  /** What a step does to the mutex. */
  lemma ClientLocks(s: State, t: nat, ok: bool, woken: nat)
    requires s.Shape() && Exclusion(s) && t < |s.clients| && !s.clients[t].ReturnNotify?
    ensures var d := ClientStep(s, t, ok, woken);
      && |d.clients| == |s.clients| && d.clients == s.clients[t := d.clients[t]]
      && (if d.owner == s.owner then d.clients[t].Locked() <==> s.clients[t].Locked()
          else if d.clients[t].Locked() then s.owner.None? && d.owner == Some(t)
          else s.owner == Some(t) && d.owner.None?)
  {}

  lemma NotifyExclusion(s: State, t: nat, ok: bool, woken: nat)
    requires s.Shape() && Exclusion(s) && t < |s.clients| && s.clients[t].ReturnNotify?
    ensures Exclusion(ClientStep(s, t, ok, woken))
  {
    KeepsOwner(s, ClientStep(s, t, ok, woken), t);
  }

  lemma ClientExclusion(s: State, t: nat, ok: bool, woken: nat)
    requires s.Shape() && Exclusion(s) && t < |s.clients|
    ensures Exclusion(ClientStep(s, t, ok, woken))
  {
    if s.clients[t].ReturnNotify? {
      NotifyExclusion(s, t, ok, woken);
    } else {
      var d := ClientStep(s, t, ok, woken);
      ClientLocks(s, t, ok, woken);
      if d.owner == s.owner {
        KeepsOwner(s, d, t);
      } else {
        ChangesOwner(s, d, t);
      }
    }
  }

  /** What client c knows about the idle queue. */
  ghost predicate Knows(s: State, c: Client) {
    && (c.TakeConn? ==> s.idle != [])
    && (c.TimedOut? || c.GoToSleep? ==> s.idle == [])
  }

  lemma ClientKnows(s: State, t: nat, ok: bool, woken: nat)
    requires s.Shape() && t < |s.clients| && Knows(s, s.clients[t])
    ensures var d := ClientStep(s, t, ok, woken);
      t < |d.clients| && Knows(d, d.clients[t])
  {}

  /** Only the client holding the mutex changes the queue; the others know nothing about it. */
  lemma OthersKnow(s: State, t: nat, ok: bool, woken: nat, u: nat)
    requires s.Shape() && Exclusion(s) && t < |s.clients| && u < |s.clients| && t != u && Knows(s, s.clients[u])
    ensures var d := ClientStep(s, t, ok, woken);
      u < |d.clients| && Knows(d, d.clients[u])
  {
    var d := ClientStep(s, t, ok, woken);
    assert d.clients[u] == s.clients[u] || d.clients[u].BorrowLock?;
    assert s.clients[u].Locked() ==> d.idle == s.idle;
  }

  lemma ClientKnowing(s: State, t: nat, ok: bool, woken: nat)
    requires s.Shape() && Exclusion(s) && Knowing(s) && t < |s.clients|
    ensures Knowing(ClientStep(s, t, ok, woken))
  {
    var d := ClientStep(s, t, ok, woken);
    StepShape(s, Step(t, ok, woken));
    forall u | 0 <= u < |d.clients|
      ensures Knows(d, d.clients[u])
    {
      if u == t {
        ClientKnows(s, t, ok, woken);
      } else {
        OthersKnow(s, t, ok, woken, u);
      }
    }
  }

  lemma TakeConserved(created: seq<Conn>, s: State, t: nat, ok: bool, woken: nat, x: Conn)
    requires s.Shape() && Conserved(created, s, x) && t < |s.clients| && s.clients[t].TakeConn? && s.idle != []
    ensures Conserved(created, ClientStep(s, t, ok, woken), x)
  {
    HoldersUpdate(s.clients, t, GotConn(s.clients[t].op, s.idle[0]), x);
    HeadCount(s.idle, x);
  }

  lemma PushConserved(created: seq<Conn>, s: State, t: nat, ok: bool, woken: nat, x: Conn)
    requires s.Shape() && Conserved(created, s, x) && t < |s.clients| && s.clients[t].ReturnPush?
    ensures Conserved(created, ClientStep(s, t, ok, woken), x)
  {
    HoldersUpdate(s.clients, t, ReturnUnlock(s.clients[t].op), x);
    AppendCount(s.idle, s.clients[t].conn, x);
  }

  /** Any other step moves client t, perhaps wakes another, and moves no connection. */
  lemma OtherConserved(created: seq<Conn>, s: State, t: nat, ok: bool, woken: nat, x: Conn)
    requires s.Shape() && Conserved(created, s, x) && t < |s.clients|
    requires !(s.clients[t].TakeConn? && s.idle != []) && !s.clients[t].ReturnPush?
    ensures Conserved(created, ClientStep(s, t, ok, woken), x)
  {
    var d := ClientStep(s, t, ok, woken);
    if s.clients[t].ReturnNotify? {
      if woken < |s.clients| && s.clients[woken].Asleep? {
        HoldersUpdate(s.clients, t, Idle, x);
        HoldersUpdate(s.clients[t := Idle], woken, BorrowLock(s.clients[woken].op, false), x);
      } else if !SomeAsleep(s.clients) {
        HoldersUpdate(s.clients, t, Idle, x);
      }
    } else {
      MovesOnly(s, t, ok, woken, x);
      HoldersUpdate(s.clients, t, d.clients[t], x);
    }
  }

  lemma MovesOnly(s: State, t: nat, ok: bool, woken: nat, x: Conn)
    requires s.Shape() && t < |s.clients| && !s.clients[t].ReturnNotify?
    requires !(s.clients[t].TakeConn? && s.idle != []) && !s.clients[t].ReturnPush?
    ensures var d := ClientStep(s, t, ok, woken);
      && d.clients == s.clients[t := d.clients[t]] && d.idle == s.idle
      && HoldsConn(d.clients[t], x) == HoldsConn(s.clients[t], x)
  {}

  lemma ClientConserved(created: seq<Conn>, s: State, t: nat, ok: bool, woken: nat, x: Conn)
    requires s.Shape() && Conserved(created, s, x) && t < |s.clients|
    ensures Conserved(created, ClientStep(s, t, ok, woken), x)
  {
    if s.clients[t].TakeConn? && s.idle != [] {
      TakeConserved(created, s, t, ok, woken, x);
    } else if s.clients[t].ReturnPush? {
      PushConserved(created, s, t, ok, woken, x);
    } else {
      OtherConserved(created, s, t, ok, woken, x);
    }
  }

  /** Client t moves honestly; another may be woken; at most one settled call is recorded. */
  ghost predicate HonestMove(s: State, d: State, t: nat) {
    && s.Shape() && d.Shape() && t < |s.clients| == |d.clients|
    && Honest(d.clients[t], d.traces[t])
    && (d.clients[t].Crashed? ==> !d.clients[t].op.FindKey?)
    && (forall u :: 0 <= u < |s.clients| && u != t ==>
          && d.traces[u] == s.traces[u]
          && (d.clients[u] == s.clients[u] || (s.clients[u].Asleep? && d.clients[u].BorrowLock?)))
    && (d.calls == s.calls || exists r :: d.calls == s.calls + [r] && Settled(r))
  }

  lemma HonestMoves(s: State, d: State, t: nat)
    requires HonestAll(s) && HonestMove(s, d, t)
    ensures HonestAll(d)
  {
    forall u | 0 <= u < |d.clients|
      ensures Honest(d.clients[u], d.traces[u])
    {
      assert Honest(s.clients[u], s.traces[u]);
    }
  }

  lemma FinishHonest(s: State, t: nat, ok: bool, woken: nat)
    requires HonestAll(s) && t < |s.clients| && (s.clients[t].ReturnNotify? || s.clients[t].TimedOut?)
    ensures HonestMove(s, ClientStep(s, t, ok, woken), t)
  {
    assert Honest(s.clients[t], s.traces[t]);
    var d, r := ClientStep(s, t, ok, woken), Record(s.clients[t].op, s.clients[t].TimedOut?, s.traces[t]);
    assert d.calls == s.calls || (d.calls == s.calls + [r] && Settled(r));
  }

  lemma HolderHonest(s: State, t: nat, ok: bool, woken: nat)
    requires HonestAll(s) && t < |s.clients| && s.clients[t].Holds()
    ensures HonestMove(s, ClientStep(s, t, ok, woken), t)
  {
    assert Honest(s.clients[t], s.traces[t]);
  }

  lemma OtherHonest(s: State, t: nat, ok: bool, woken: nat)
    requires HonestAll(s) && t < |s.clients| && !s.clients[t].Holds()
    requires !s.clients[t].ReturnNotify? && !s.clients[t].TimedOut?
    ensures HonestMove(s, ClientStep(s, t, ok, woken), t)
  {
    assert Honest(s.clients[t], s.traces[t]);
  }

  lemma ClientHonest(s: State, t: nat, ok: bool, woken: nat)
    requires HonestAll(s) && t < |s.clients|
    ensures HonestAll(ClientStep(s, t, ok, woken))
  {
    if s.clients[t].ReturnNotify? || s.clients[t].TimedOut? {
      FinishHonest(s, t, ok, woken);
    } else if s.clients[t].Holds() {
      HolderHonest(s, t, ok, woken);
    } else {
      OtherHonest(s, t, ok, woken);
    }
    HonestMoves(s, ClientStep(s, t, ok, woken), t);
  }

  lemma OutsideConserved(created: seq<Conn>, s: State, a: Action, x: Conn)
    requires s.Shape() && Conserved(created, s, x) && !a.Step?
    ensures Conserved(created, Apply(s, a), x)
  {
    if a.t < |s.clients| {
      HoldersUpdate(s.clients, a.t, Apply(s, a).clients[a.t], x);
    }
  }

  /** A call, a timeout or a spurious wakeup takes client t to the start of borrow. */
  lemma OutsideMoves(s: State, a: Action)
    requires s.Shape() && !a.Step? && a.t < |s.clients|
    ensures var d := Apply(s, a);
      d == s || (&& (s.clients[a.t].Idle? || s.clients[a.t].Asleep?) && d.clients[a.t].BorrowLock?
                 && d == s.At(a.t, d.clients[a.t]).Traced(a.t, d.traces[a.t])
                 && (d.traces[a.t] == Trace([], []) || (s.clients[a.t].Asleep? && d.traces == s.traces)))
  {}

  lemma OutsideHonest(s: State, a: Action)
    requires HonestAll(s) && !a.Step? && a.t < |s.clients|
    ensures HonestAll(Apply(s, a))
  {
    OutsideMoves(s, a);
    assert Honest(s.clients[a.t], s.traces[a.t]);
    if Apply(s, a) != s {
      HonestMoves(s, Apply(s, a), a.t);
    }
  }

  lemma OutsideInv(s: State, a: Action)
    requires Exclusion(s) && Knowing(s) && HonestAll(s) && !a.Step?
    ensures Exclusion(Apply(s, a)) && Knowing(Apply(s, a)) && HonestAll(Apply(s, a))
  {
    if a.t < |s.clients| {
      OutsideMoves(s, a);
      OutsideHonest(s, a);
      KeepsOwner(s, Apply(s, a), a.t);
    }
  }

  lemma StepInv(created: seq<Conn>, s: State, a: Action)
    requires Inv(created, s)
    ensures Inv(created, Apply(s, a))
  {
    if a.Step? {
      if a.t < |s.clients| {
        ClientExclusion(s, a.t, a.ok, a.woken);
        ClientKnowing(s, a.t, a.ok, a.woken);
        ClientHonest(s, a.t, a.ok, a.woken);
        forall x
          ensures Conserved(created, Apply(s, a), x)
        {
          ClientConserved(created, s, a.t, a.ok, a.woken, x);
        }
      }
    } else {
      OutsideInv(s, a);
      forall x
        ensures Conserved(created, Apply(s, a), x)
      {
        OutsideConserved(created, s, a, x);
      }
    }
  }

  lemma {:induction false} ExecInv(created: seq<Conn>, clients: nat, acts: seq<Action>)
    ensures Inv(created, Exec(created, clients, acts))
    decreases |acts|
  {
    if acts == [] {
      forall x
        ensures Conserved(created, Init(created, clients), x)
      {
        HoldersNone(Init(created, clients).clients, x);
      }
    } else {
      ExecInv(created, clients, acts[..|acts| - 1]);
      StepInv(created, Exec(created, clients, acts[..|acts| - 1]), acts[|acts| - 1]);
    }
  }

  ghost predicate Distinct(s: seq<Conn>) {
    forall i, j :: 0 <= i < j < |s| ==> s[i] != s[j]
  }

  lemma {:induction false} DistinctCount(s: seq<Conn>, x: Conn)
    ensures Distinct(s) ==> multiset(s)[x] <= 1
    decreases |s|
  {
    if s != [] && Distinct(s) {
      HeadCount(s, x);
      DistinctCount(s[1..], x);
      assert forall k :: 0 <= k < |s[1..]| ==> s[1..][k] == s[k + 1] != s[0];
      assert multiset(s[1..])[s[0]] == 0;
    }
  }

  lemma {:induction false} CountDistinct(s: seq<Conn>)
    requires forall x :: multiset(s)[x] <= 1
    ensures Distinct(s)
    decreases |s|
  {
    if s != [] {
      forall x
        ensures multiset(s[1..])[x] <= 1
      {
        HeadCount(s, x);
      }
      CountDistinct(s[1..]);
      HeadCount(s, s[0]);
      assert s[0] !in s[1..] by {
        assert multiset(s[1..])[s[0]] == 0;
      }
      forall i, j | 0 <= i < j < |s|
        ensures s[i] != s[j]
      {
        assert s[j] == s[1..][j - 1] && (i > 0 ==> s[i] == s[1..][i - 1]);
        assert s[j] in s[1..];
      }
    }
  }

  lemma OneHolder(cs: seq<Client>, t: nat, x: Conn)
    requires t < |cs| && HoldsConn(cs[t], x) == 1
    ensures Holders(cs, x) >= 1
  {
    HoldersUpdate(cs, t, Idle, x);
  }

  lemma TwoHolders(cs: seq<Client>, t: nat, u: nat, x: Conn)
    requires t < u < |cs| && HoldsConn(cs[t], x) == 1 && HoldsConn(cs[u], x) == 1
    ensures Holders(cs, x) >= 2
  {
    HoldersUpdate(cs, t, Idle, x);
    OneHolder(cs[t := Idle], u, x);
  }

  lemma {:induction false} SomeHolder(cs: seq<Client>, x: Conn)
    requires Holders(cs, x) > 0
    ensures exists t :: 0 <= t < |cs| && HoldsConn(cs[t], x) == 1
  {
    if HoldsConn(cs[0], x) == 0 {
      SomeHolder(cs[1..], x);
      var t :| 0 <= t < |cs[1..]| && HoldsConn(cs[1..][t], x) == 1;
      assert HoldsConn(cs[t + 1], x) == 1;
    }
  }

  /**
   Connection conservation, in every interleaving: the idle and the held connections are together
   the created ones, each exactly once; so no connection has two holders or is held while idle.
   Every finished call returned what it borrowed exactly once, or never had a connection.
   */
  lemma {:induction false} ConnectionConservation(created: seq<Conn>, clients: nat, acts: seq<Action>)
    requires Distinct(created)
    ensures var s := Exec(created, clients, acts);
      && Distinct(s.idle)
      && (forall x :: x in created <==>
           x in s.idle || exists t :: 0 <= t < |s.clients| && HoldsConn(s.clients[t], x) == 1)
      && (forall t :: 0 <= t < |s.clients| && s.clients[t].Holds() ==> s.clients[t].conn !in s.idle)
      && (forall t, u :: 0 <= t < u < |s.clients| && s.clients[t].Holds() && s.clients[u].Holds() ==>
           s.clients[t].conn != s.clients[u].conn)
      && (forall r :: r in s.calls ==> Settled(r))
  {
    var s := Exec(created, clients, acts);
    ExecInv(created, clients, acts);
    forall x
      ensures multiset(s.idle)[x] + Holders(s.clients, x) <= 1
    {
      assert Conserved(created, s, x);
      DistinctCount(created, x);
    }
    CountDistinct(s.idle);
    NoSharing(s);
    forall x
      ensures x in created <==> x in s.idle || exists t :: 0 <= t < |s.clients| && HoldsConn(s.clients[t], x) == 1
    {
      assert Conserved(created, s, x);
      Located(created, s, x);
    }
  }

  lemma NoSharing(s: State)
    requires forall x :: multiset(s.idle)[x] + Holders(s.clients, x) <= 1
    ensures forall t :: 0 <= t < |s.clients| && s.clients[t].Holds() ==> s.clients[t].conn !in s.idle
    ensures forall t, u :: 0 <= t < u < |s.clients| && s.clients[t].Holds() && s.clients[u].Holds() ==>
      s.clients[t].conn != s.clients[u].conn
  {
    forall t | 0 <= t < |s.clients| && s.clients[t].Holds()
      ensures s.clients[t].conn !in s.idle
    {
      OneHolder(s.clients, t, s.clients[t].conn);
      assert multiset(s.idle)[s.clients[t].conn] == 0;
    }
    forall t, u | 0 <= t < u < |s.clients| && s.clients[t].Holds() && s.clients[u].Holds()
      ensures s.clients[t].conn != s.clients[u].conn
    {
      if s.clients[t].conn == s.clients[u].conn {
        TwoHolders(s.clients, t, u, s.clients[t].conn);
      }
    }
  }

  lemma Located(created: seq<Conn>, s: State, x: Conn)
    requires Conserved(created, s, x)
    ensures x in created <==> x in s.idle || exists t :: 0 <= t < |s.clients| && HoldsConn(s.clients[t], x) == 1
  {
    assert x in created <==> multiset(created)[x] > 0;
    assert x in s.idle <==> multiset(s.idle)[x] > 0;
    if Holders(s.clients, x) > 0 {
      SomeHolder(s.clients, x);
    }
    if t :| 0 <= t < |s.clients| && HoldsConn(s.clients[t], x) == 1 {
      OneHolder(s.clients, t, x);
    }
  }

  // ---- Wakeups ---------------------------------------------------------------------------

  predicate EnRoute(c: Client) {
    c.BorrowLock? || c.TestIdle? || c.GoToSleep? || c.TimedOut? || c.TakeConn?
  }

  predicate IsAsleep(c: Client) {
    c.Asleep?
  }

  /** Has pushed a connection and not yet notified. */
  predicate Owes(c: Client) {
    c.ReturnUnlock? || c.ReturnNotify?
  }

  function View(s: State): Monitor {
    Monitor(|s.idle|, Count(s.clients, Owes), Count(s.clients, EnRoute), Count(s.clients, IsAsleep))
  }

  lemma Recount(s: State, t: nat, c: Client)
    requires t < |s.clients|
    ensures forall d: State :: d.clients == s.clients[t := c] && d.idle == s.idle ==>
      View(d) == Monitor(|s.idle|,
                         View(s).owed - (if Owes(s.clients[t]) then 1 else 0) + (if Owes(c) then 1 else 0),
                         View(s).enroute - (if EnRoute(s.clients[t]) then 1 else 0) + (if EnRoute(c) then 1 else 0),
                         View(s).asleep - (if IsAsleep(s.clients[t]) then 1 else 0) + (if IsAsleep(c) then 1 else 0))
  {
    CountUpdate(s.clients, t, c, Owes);
    CountUpdate(s.clients, t, c, EnRoute);
    CountUpdate(s.clients, t, c, IsAsleep);
  }

  lemma NotifyMoves(s: State, t: nat, ok: bool, woken: nat)
    requires s.Shape() && t < |s.clients| && s.clients[t].ReturnNotify?
    ensures Move(View(s), View(ClientStep(s, t, ok, woken)))
  {
    CountPositive(s.clients, Owes);
    CountPositive(s.clients, IsAsleep);
    Recount(s, t, Idle);
    var f := Finish(s, t, s.clients[t].op);
    if woken < |s.clients| && s.clients[woken].Asleep? {
      Recount(f, woken, BorrowLock(s.clients[woken].op, false));
    }
  }

  lemma TakeMoves(s: State, t: nat, ok: bool, woken: nat)
    requires s.Shape() && t < |s.clients| && s.clients[t].TakeConn? && s.idle != []
    ensures Take(View(s), View(ClientStep(s, t, ok, woken)))
  {
    CountPositive(s.clients, EnRoute);
    var c := GotConn(s.clients[t].op, s.idle[0]);
    CountUpdate(s.clients, t, c, Owes);
    CountUpdate(s.clients, t, c, EnRoute);
    CountUpdate(s.clients, t, c, IsAsleep);
  }

  lemma PushMoves(s: State, t: nat, ok: bool, woken: nat)
    requires s.Shape() && t < |s.clients| && s.clients[t].ReturnPush?
    ensures Post(View(s), View(ClientStep(s, t, ok, woken)))
  {
    var c := ReturnUnlock(s.clients[t].op);
    CountUpdate(s.clients, t, c, Owes);
    CountUpdate(s.clients, t, c, EnRoute);
    CountUpdate(s.clients, t, c, IsAsleep);
  }

  lemma GiveUpMoves(s: State, t: nat, ok: bool, woken: nat)
    requires s.Shape() && t < |s.clients| && s.idle == [] && (s.clients[t].GoToSleep? || s.clients[t].TimedOut?)
    ensures Move(View(s), View(ClientStep(s, t, ok, woken)))
  {
    CountPositive(s.clients, EnRoute);
    var d := ClientStep(s, t, ok, woken);
    Recount(s, t, d.clients[t]);
    assert d.clients == s.clients[t := d.clients[t]];
  }

  /** The remaining steps change none of the counts. */
  lemma QuietMoves(s: State, t: nat, ok: bool, woken: nat)
    requires s.Shape() && t < |s.clients| && !s.clients[t].ReturnNotify? && !s.clients[t].ReturnPush?
    requires !(s.clients[t].TakeConn? && s.idle != []) && !s.clients[t].GoToSleep? && !s.clients[t].TimedOut?
    ensures View(s) == View(ClientStep(s, t, ok, woken))
  {
    var d := ClientStep(s, t, ok, woken);
    MovesOnly(s, t, ok, woken, 0);
    Recount(s, t, d.clients[t]);
  }

  lemma ClientMoves(s: State, t: nat, ok: bool, woken: nat)
    requires s.Shape() && Knowing(s) && t < |s.clients| && !s.clients[t].ReturnNotify?
    ensures Move(View(s), View(ClientStep(s, t, ok, woken)))
  {
    if s.clients[t].TakeConn? {
      TakeMoves(s, t, ok, woken);
    } else if s.clients[t].ReturnPush? {
      PushMoves(s, t, ok, woken);
    } else if s.clients[t].GoToSleep? || s.clients[t].TimedOut? {
      GiveUpMoves(s, t, ok, woken);
    } else {
      QuietMoves(s, t, ok, woken);
    }
  }

  /** Every step of the pool is a move of the monitor. */
  lemma StepMoves(s: State, a: Action)
    requires s.Shape() && Exclusion(s) && Knowing(s)
    ensures Move(View(s), View(Apply(s, a)))
  {
    if a.t < |s.clients| {
      if a.Step? {
        if s.clients[a.t].ReturnNotify? {
          NotifyMoves(s, a.t, a.ok, a.woken);
        } else {
          ClientMoves(s, a.t, a.ok, a.woken);
        }
      } else {
        CountPositive(s.clients, IsAsleep);
        Recount(s, a.t, Apply(s, a).clients[a.t]);
        assert Apply(s, a).clients == s.clients[a.t := Apply(s, a).clients[a.t]];
      }
    }
  }

  /** The monitor states of a run. */
  function Views(created: seq<Conn>, clients: nat, acts: seq<Action>): (ms: seq<Monitor>)
    ensures |ms| == |acts| + 1 && ms[|acts|] == View(Exec(created, clients, acts))
    decreases |acts|
  {
    if acts == [] then [View(Exec(created, clients, acts))]
    else Views(created, clients, acts[..|acts| - 1]) + [View(Exec(created, clients, acts))]
  }

  lemma {:induction false} ViewsRun(created: seq<Conn>, clients: nat, acts: seq<Action>)
    ensures IsRun(Views(created, clients, acts)) && Views(created, clients, acts)[0] == View(Init(created, clients))
    decreases |acts|
  {
    if acts != [] {
      var init := acts[..|acts| - 1];
      var s := Exec(created, clients, init);
      ViewsRun(created, clients, init);
      ExecInv(created, clients, init);
      StepMoves(s, acts[|acts| - 1]);
      RunSnoc(Views(created, clients, init), View(Exec(created, clients, acts)));
    }
  }

  /** While some client sleeps, idle connections are covered by owed notifications and clients on their way. */
  lemma {:induction false} WaitersCovered(created: seq<Conn>, clients: nat, acts: seq<Action>)
    ensures var s := Exec(created, clients, acts);
      SomeAsleep(s.clients) ==> |s.idle| <= Count(s.clients, Owes) + Count(s.clients, EnRoute)
  {
    var s, s0 := Exec(created, clients, acts), Init(created, clients);
    ViewsRun(created, clients, acts);
    CountPositive(s0.clients, IsAsleep);
    RunKeeps(Views(created, clients, acts), |acts|);
    CountPositive(s.clients, IsAsleep);
  }
}
