/**
 The step system and the sequential bucket are the same algorithm: every run in which only one thread
 moves, from the start of its call to the end, takes the shared state where the sequential bucket does.
 */
module TokenBucketSolo {
  import opened Basics
  import opened Seqs
  import opened TokenBucketThreads
  import TokenBucket

  function AsBucket(cfg: Config, s: State): TokenBucket.Bucket {
    TokenBucket.Bucket(cfg.ticks, s.capacity, s.rate, s.tokens, s.last)
  }

  function RunFrom(cfg: Config, s: State, acts: seq<Action>): State
    decreases |acts|
  {
    if acts == [] then s else RunFrom(cfg, Apply(cfg, s, acts[0]), acts[1..])
  }

  /** Only thread t moves, and time passes. CAS failures may be spurious. */
  ghost predicate Alone(acts: seq<Action>, t: nat) {
    forall a :: a in acts ==> a.Tick? || (a.Step? && a.t == t)
  }

  lemma AloneTail(acts: seq<Action>, t: nat)
    requires Alone(acts, t) && acts != []
    ensures acts[0].Tick? || (acts[0].Step? && acts[0].t == t)
    ensures Alone(acts[1..], t)
  {
    assert acts[0] in acts && forall a :: a in acts[1..] ==> a in acts;
  }

  lemma RunCons(cfg: Config, s: State, a: Action, acts: seq<Action>)
    ensures RunFrom(cfg, s, [a] + acts) == RunFrom(cfg, Apply(cfg, s, a), acts)
  {
    HeadTail([a], acts);
    Nil(acts);
  }

  lemma Put(s: seq<Pc>, t: nat, a: Pc, b: Pc)
    requires t < |s|
    ensures s[t := a][t := b] == s[t := b]
  {}

  // ---- try_acquire -----------------------------------------------------------------------

  /** The clock reads of a call, as far as they have been made. */
  datatype Reads = Reads(now: int, now2: int)

  /** Where thread t is in its call, and what it has done to the bucket b it found. */
  ghost predicate Along(cfg: Config, b: TokenBucket.Bucket, n: pos, from: int, d: State, t: nat, r: Reads)
    requires t < |d.pcs|
  {
    var e, refilled, pc := AsBucket(cfg, d), b.Refill(r.now, r.now2), d.pcs[t];
    && from <= d.clock
    && (d.lock == if pc.Locked() then Some(t) else None)
    && (!pc.ReadClock? ==> from <= r.now <= b.LastRead(r.now, r.now2) <= d.clock)
    && match pc
       case ReadClock(m) => e == b && m == n
       case Compare(m, now) => e == b && m == n && now == r.now
       case WantLock(m) => e == b && m == n && b.ReadsTwice(r.now)
       case ReadClockLocked(m) => e == b && m == n && b.ReadsTwice(r.now)
       case CompareLocked(m, now2) => e == b && m == n && b.ReadsTwice(r.now) && now2 == r.now2
       case RefillLoad(m, now2, elapsed) =>
         e == b && m == n && now2 == r.now2 && elapsed == b.Seconds(r.now, r.now2) > 0
       case RefillStore(m, now2, elapsed, loaded) =>
         e == b && m == n && now2 == r.now2 && elapsed == b.Seconds(r.now, r.now2) > 0 && loaded == b.tokens
       case WriteLast(m, now2) => e == refilled.(last := b.last) && m == n && now2 == r.now2 == refilled.last
       case RefillUnlock(m) => e == refilled && m == n
       case AcquireLoad(m) => e == refilled && m == n
       case Cas(m, expected, _, _, _) => e == refilled && m == n && expected == e.tokens
       case Idle => e == b.Acquire(n, r.now, r.now2)
       case _ => false
  }

  function Granted(b: TokenBucket.Bucket, n: pos, pc: Pc, r: Reads): nat {
    if pc.Idle? && b.Grants(n, r.now, r.now2) then n else 0
  }

  /** The clock reads after one more step. */
  function NextReads(d: State, t: nat, r: Reads): Reads
    requires t < |d.pcs|
  {
    match d.pcs[t]
    case ReadClock(_) => Reads(d.clock, d.clock)
    case ReadClockLocked(_) => r.(now2 := d.clock)
    case _ => r
  }

  lemma CheckStep(cfg: Config, b: TokenBucket.Bucket, n: pos, from: int, d: State, t: nat, r: Reads, spurious: bool)
    requires t < |d.pcs| && Along(cfg, b, n, from, d, t, r)
    requires d.pcs[t].ReadClock? || d.pcs[t].Compare? || d.pcs[t].WantLock?
    ensures Along(cfg, b, n, from, StepThread(cfg, d, t, spurious), t, NextReads(d, t, r))
    ensures StepThread(cfg, d, t, spurious).ledger == d.ledger && !StepThread(cfg, d, t, spurious).pcs[t].Idle?
  {}

  lemma RefillStep(cfg: Config, b: TokenBucket.Bucket, n: pos, from: int, d: State, t: nat, r: Reads, spurious: bool)
    requires t < |d.pcs| && Along(cfg, b, n, from, d, t, r) && d.pcs[t].Locked()
    ensures Along(cfg, b, n, from, StepThread(cfg, d, t, spurious), t, NextReads(d, t, r))
    ensures var e := StepThread(cfg, d, t, spurious);
      e.ledger.granted == d.ledger.granted && !e.pcs[t].Idle?
  {}

  lemma ConsumeStep(cfg: Config, b: TokenBucket.Bucket, n: pos, from: int, d: State, t: nat, r: Reads, spurious: bool)
    requires t < |d.pcs| && Along(cfg, b, n, from, d, t, r)
    requires d.pcs[t].AcquireLoad? || d.pcs[t].Cas? || d.pcs[t].Idle?
    ensures var e := StepThread(cfg, d, t, spurious);
      && Along(cfg, b, n, from, e, t, r)
      && e.ledger.granted - Granted(b, n, e.pcs[t], r) == d.ledger.granted - Granted(b, n, d.pcs[t], r)
  {}

  lemma OnlyThread(cfg: Config, d: State, t: nat, spurious: bool)
    requires t < |d.pcs|
    ensures var e := StepThread(cfg, d, t, spurious);
      |e.pcs| == |d.pcs| && e.pcs == d.pcs[t := e.pcs[t]] && e.clock == d.clock
  {}

  lemma AlongStep(cfg: Config, b: TokenBucket.Bucket, n: pos, from: int, d: State, t: nat, r: Reads, a: Action)
    requires t < |d.pcs| && Along(cfg, b, n, from, d, t, r) && (a.Tick? || (a.Step? && a.t == t))
    ensures var e, q := Apply(cfg, d, a), if a.Tick? then r else NextReads(d, t, r);
      && e.pcs == d.pcs[t := e.pcs[t]] && Along(cfg, b, n, from, e, t, q)
      && e.ledger.granted - Granted(b, n, e.pcs[t], q) == d.ledger.granted - Granted(b, n, d.pcs[t], r)
  {
    if a.Step? {
      OnlyThread(cfg, d, t, a.spurious);
      if d.pcs[t].Locked() {
        RefillStep(cfg, b, n, from, d, t, r, a.spurious);
      } else if d.pcs[t].AcquireLoad? || d.pcs[t].Cas? || d.pcs[t].Idle? {
        ConsumeStep(cfg, b, n, from, d, t, r, a.spurious);
      } else {
        CheckStep(cfg, b, n, from, d, t, r, a.spurious);
      }
    }
  }

  lemma {:induction false} AlongRun(cfg: Config, b: TokenBucket.Bucket, n: pos, from: int, d: State, t: nat, r: Reads,
                                    acts: seq<Action>) returns (q: Reads)
    requires t < |d.pcs| && Along(cfg, b, n, from, d, t, r) && Alone(acts, t)
    ensures var e := RunFrom(cfg, d, acts);
      && |e.pcs| == |d.pcs| && e.pcs == d.pcs[t := e.pcs[t]] && Along(cfg, b, n, from, e, t, q)
      && e.ledger.granted - Granted(b, n, e.pcs[t], q) == d.ledger.granted - Granted(b, n, d.pcs[t], r)
    decreases |acts|
  {
    if acts == [] {
      q := r;
    } else {
      AloneTail(acts, t);
      AlongStep(cfg, b, n, from, d, t, r, acts[0]);
      var e := Apply(cfg, d, acts[0]);
      q := AlongRun(cfg, b, n, from, e, t, if acts[0].Tick? then r else NextReads(d, t, r), acts[1..]);
      Put(d.pcs, t, e.pcs[t], RunFrom(cfg, d, acts).pcs[t]);
    }
  }

  /**
   Every uninterrupted call, however the clock moves meanwhile and however often the CAS fails
   spuriously, is `Bucket.Acquire` for the clock values it has read.
   */
  lemma {:induction false} SoloCallIsAcquire(cfg: Config, s: State, t: nat, n: pos, acts: seq<Action>)
    returns (now: int, now2: int)
    requires t < |s.pcs| && s.pcs[t].Idle? && s.lock.None? && Alone(acts, t)
    requires var d := RunFrom(cfg, s, [Call(t, n)] + acts);
      t < |d.pcs| && d.pcs[t].Idle?
    ensures var b, d := AsBucket(cfg, s), RunFrom(cfg, s, [Call(t, n)] + acts);
      && s.clock <= now <= b.LastRead(now, now2) <= d.clock
      && d.pcs == s.pcs && d.lock.None?
      && AsBucket(cfg, d) == b.Acquire(n, now, now2)
      && d.ledger.granted == s.ledger.granted + (if b.Grants(n, now, now2) then n else 0)
  {
    var c := Apply(cfg, s, Call(t, n));
    RunCons(cfg, s, Call(t, n), acts);
    var q := AlongRun(cfg, AsBucket(cfg, s), n, s.clock, c, t, Reads(0, 0), acts);
    Put(s.pcs, t, ReadClock(n), Idle);
    assert s.pcs[t := Idle] == s.pcs;
    now, now2 := q.now, q.now2;
  }

  function Rank(pc: Pc): nat {
    match pc
    case ReadClock(_) => 10
    case Compare(_, _) => 9
    case WantLock(_) => 8
    case ReadClockLocked(_) => 7
    case CompareLocked(_, _) => 6
    case RefillLoad(_, _, _) => 5
    case RefillStore(_, _, _, _) => 4
    case WriteLast(_, _) => 3
    case RefillUnlock(_) => 2
    case AcquireLoad(_) => 1
    case ConfigWantLock(_, _) => 6
    case ConfigCapacity(_, _) => 5
    case ConfigRate(_) => 4
    case ConfigLoad => 3
    case ConfigStore(_) => 2
    case ConfigUnlock => 1
    case _ => 0
  }

  lemma RankDrops(cfg: Config, b: TokenBucket.Bucket, n: pos, from: int, d: State, t: nat, r: Reads)
    requires t < |d.pcs| && Along(cfg, b, n, from, d, t, r) && !d.pcs[t].Idle?
    ensures var pc := StepThread(cfg, d, t, false).pcs[t];
      pc.Idle? || Rank(pc) < Rank(d.pcs[t])
  {}

  /** And such a call ends: its thread needs at most eleven steps. */
  lemma {:induction false} AlongEnds(cfg: Config, b: TokenBucket.Bucket, n: pos, from: int, d: State, t: nat, r: Reads)
    returns (acts: seq<Action>)
    requires t < |d.pcs| && Along(cfg, b, n, from, d, t, r)
    ensures Alone(acts, t) && t < |RunFrom(cfg, d, acts).pcs| && RunFrom(cfg, d, acts).pcs[t].Idle?
    decreases !d.pcs[t].Idle?, Rank(d.pcs[t])
  {
    if d.pcs[t].Idle? {
      acts := [];
    } else {
      var a := Step(t, false);
      RankDrops(cfg, b, n, from, d, t, r);
      AlongStep(cfg, b, n, from, d, t, r, a);
      var others := AlongEnds(cfg, b, n, from, Apply(cfg, d, a), t, NextReads(d, t, r));
      RunCons(cfg, d, a, others);
      acts := [a] + others;
    }
  }

  lemma SoloCallEnds(cfg: Config, s: State, t: nat, n: pos) returns (acts: seq<Action>)
    requires t < |s.pcs| && s.pcs[t].Idle? && s.lock.None?
    ensures Alone(acts, t)
    ensures var d := RunFrom(cfg, s, [Call(t, n)] + acts);
      t < |d.pcs| && d.pcs[t].Idle?
  {
    acts := AlongEnds(cfg, AsBucket(cfg, s), n, s.clock, Apply(cfg, s, Call(t, n)), t, Reads(0, 0));
    RunCons(cfg, s, Call(t, n), acts);
  }

  // ---- update_config ---------------------------------------------------------------------

  /** Where thread t is in update_config, and what it has done to the bucket b it found. */
  ghost predicate Configured(cfg: Config, b: TokenBucket.Bucket, c: nat, r: nat, granted: int, d: State, t: nat)
    requires t < |d.pcs|
  {
    var e, pc := AsBucket(cfg, d), d.pcs[t];
    && d.ledger.granted == granted
    && (d.lock == if pc.Locked() then Some(t) else None)
    && match pc
       case ConfigWantLock(x, y) => e == b && x == c && y == r
       case ConfigCapacity(x, y) => e == b && x == c && y == r
       case ConfigRate(y) => e == b.(capacity := c) && y == r
       case ConfigLoad => e == b.(capacity := c, rate := r)
       case ConfigStore(current) => e == b.(capacity := c, rate := r) && b.tokens > c
       case ConfigUnlock => e == b.Reconfigure(c, r)
       case Idle => e == b.Reconfigure(c, r)
       case _ => false
  }

  lemma ConfigStep(cfg: Config, b: TokenBucket.Bucket, c: nat, r: nat, granted: int, d: State, t: nat, a: Action)
    requires t < |d.pcs| && Configured(cfg, b, c, r, granted, d, t) && (a.Tick? || (a.Step? && a.t == t))
    ensures var e := Apply(cfg, d, a);
      e.pcs == d.pcs[t := e.pcs[t]] && Configured(cfg, b, c, r, granted, e, t)
    ensures a.Step? && !d.pcs[t].Idle? ==>
      Apply(cfg, d, a).pcs[t].Idle? || Rank(Apply(cfg, d, a).pcs[t]) < Rank(d.pcs[t])
  {}

  lemma {:induction false} ConfigRun(cfg: Config, b: TokenBucket.Bucket, c: nat, r: nat, granted: int, d: State, t: nat,
                                     acts: seq<Action>)
    requires t < |d.pcs| && Configured(cfg, b, c, r, granted, d, t) && Alone(acts, t)
    ensures var e := RunFrom(cfg, d, acts);
      |e.pcs| == |d.pcs| && e.pcs == d.pcs[t := e.pcs[t]] && Configured(cfg, b, c, r, granted, e, t)
    decreases |acts|
  {
    if acts != [] {
      AloneTail(acts, t);
      ConfigStep(cfg, b, c, r, granted, d, t, acts[0]);
      var e := Apply(cfg, d, acts[0]);
      ConfigRun(cfg, b, c, r, granted, e, t, acts[1..]);
      Put(d.pcs, t, e.pcs[t], RunFrom(cfg, d, acts).pcs[t]);
    }
  }

  /** Every uninterrupted update_config is `Bucket.Reconfigure`. */
  lemma {:induction false} SoloConfigIsReconfigure(cfg: Config, s: State, t: nat, c: nat, r: nat, acts: seq<Action>)
    requires t < |s.pcs| && s.pcs[t].Idle? && s.lock.None? && Alone(acts, t)
    requires var d := RunFrom(cfg, s, [Reconfigure(t, c, r)] + acts);
      t < |d.pcs| && d.pcs[t].Idle?
    ensures var d := RunFrom(cfg, s, [Reconfigure(t, c, r)] + acts);
      && d.pcs == s.pcs && d.lock.None? && d.ledger.granted == s.ledger.granted
      && AsBucket(cfg, d) == AsBucket(cfg, s).Reconfigure(c, r)
  {
    RunCons(cfg, s, Reconfigure(t, c, r), acts);
    ConfigRun(cfg, AsBucket(cfg, s), c, r, s.ledger.granted, Apply(cfg, s, Reconfigure(t, c, r)), t, acts);
    Put(s.pcs, t, ConfigWantLock(c, r), Idle);
    assert s.pcs[t := Idle] == s.pcs;
  }

  lemma {:induction false} ConfigEnds(cfg: Config, b: TokenBucket.Bucket, c: nat, r: nat, granted: int, d: State,
                                      t: nat) returns (acts: seq<Action>)
    requires t < |d.pcs| && Configured(cfg, b, c, r, granted, d, t)
    ensures Alone(acts, t) && t < |RunFrom(cfg, d, acts).pcs| && RunFrom(cfg, d, acts).pcs[t].Idle?
    decreases !d.pcs[t].Idle?, Rank(d.pcs[t])
  {
    if d.pcs[t].Idle? {
      acts := [];
    } else {
      var a := Step(t, false);
      ConfigStep(cfg, b, c, r, granted, d, t, a);
      var others := ConfigEnds(cfg, b, c, r, granted, Apply(cfg, d, a), t);
      RunCons(cfg, d, a, others);
      acts := [a] + others;
    }
  }

  lemma SoloConfigEnds(cfg: Config, s: State, t: nat, c: nat, r: nat) returns (acts: seq<Action>)
    requires t < |s.pcs| && s.pcs[t].Idle? && s.lock.None?
    ensures Alone(acts, t)
    ensures var d := RunFrom(cfg, s, [Reconfigure(t, c, r)] + acts);
      t < |d.pcs| && d.pcs[t].Idle?
  {
    acts := ConfigEnds(cfg, AsBucket(cfg, s), c, r, s.ledger.granted, Apply(cfg, s, Reconfigure(t, c, r)), t);
    RunCons(cfg, s, Reconfigure(t, c, r), acts);
  }
}
