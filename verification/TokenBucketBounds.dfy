/**
 How much the token bucket can really grant when several threads use it: the unconditional bound is
 reached, and the nominal bound capacity + rate * seconds holds in exactly the cases given below.
 */
module TokenBucketBounds {
  import opened Basics
  import opened Arith
  import opened TokenBucketThreads

  lemma Snoc(cfg: Config, acts: seq<Action>, a: Action)
    requires FixedConfig(acts) && !a.Reconfigure?
    ensures Exec(cfg, acts + [a]) == Apply(cfg, Exec(cfg, acts), a) && FixedConfig(acts + [a])
  {
    var all := acts + [a];
    assert all[..|all| - 1] == acts && all[|all| - 1] == a;
  }

  /** The bucket is full, nobody is in a call, and the last refill is now. */
  ghost predicate Rest(cfg: Config, s: State, k: nat) {
    && |s.pcs| == cfg.threads
    && (forall t :: 0 <= t < |s.pcs| ==> s.pcs[t].Idle?)
    && s.lock.None? && s.tokens == s.capacity == cfg.capacity && s.rate == cfg.rate
    && s.last == s.clock == cfg.start + k * cfg.ticks
    && s.ledger.granted == cfg.capacity * k
  }

  lemma NoTimePassed(ticks: pos, t: int)
    ensures ElapsedSeconds(ticks, t, t) == 0 && ElapsedSeconds(ticks, t, t + ticks) == 1
  {
    DivExact(0, ticks);
    DivExact(1, ticks);
  }

  /** Right after a refill, the unlocked check lets thread 1 pass. */
  lemma CheckNotDue(cfg: Config, s: State, n: pos)
    requires 1 < |s.pcs| && s.pcs[1].Idle? && s.clock == s.last
    ensures var d := Apply(cfg, Apply(cfg, Apply(cfg, s, Call(1, n)), Step(1, false)), Step(1, false));
      d == s.Goto(1, AcquireLoad(n))
  {
    NoTimePassed(cfg.ticks, s.last);
    SamePcs(s.pcs, 1, ReadClock(n), Compare(n, s.clock));
    SamePcs(s.pcs, 1, Compare(n, s.clock), AcquireLoad(n));
  }

  /** Thread 1 asks for the whole bucket and stops in front of its CAS. */
  lemma ReachCas(cfg: Config, acts: seq<Action>, k: nat) returns (more: seq<Action>)
    requires FixedConfig(acts) && Rest(cfg, Exec(cfg, acts), k) && cfg.threads >= 2 && cfg.capacity >= 1
    ensures FixedConfig(more)
    ensures var s, r := Exec(cfg, acts), Exec(cfg, acts).ledger.refills;
      Exec(cfg, more) == s.Goto(1, Cas(cfg.capacity, cfg.capacity, r, r, 0))
  {
    var s := Exec(cfg, acts);
    var a1 := acts + [Call(1, cfg.capacity)];
    Snoc(cfg, acts, Call(1, cfg.capacity));
    CheckNotDue(cfg, s, cfg.capacity);
    var a3 := Twice(cfg, a1, 1);
    more := a3 + [Step(1, false)];
    Snoc(cfg, a3, Step(1, false));
    var r := s.ledger.refills;
    SamePcs(s.pcs, 1, AcquireLoad(cfg.capacity), Cas(cfg.capacity, cfg.capacity, r, r, 0));
  }

  /** A second after the last refill, the unlocked check sends thread 0 to the lock. */
  lemma CheckDue(cfg: Config, s: State, n: pos)
    requires 0 < |s.pcs| && s.pcs[0].Idle? && s.clock == s.last + cfg.ticks
    ensures var d := Apply(cfg, Apply(cfg, Apply(cfg, s, Call(0, n)), Step(0, false)), Step(0, false));
      d == s.Goto(0, WantLock(n))
  {
    NoTimePassed(cfg.ticks, s.last);
    SamePcs(s.pcs, 0, ReadClock(n), Compare(n, s.clock));
    SamePcs(s.pcs, 0, Compare(n, s.clock), WantLock(n));
  }

  /** A second later thread 0 starts a refill and stops between its load and its store. */
  lemma ReachStore(cfg: Config, acts: seq<Action>) returns (more: seq<Action>)
    requires FixedConfig(acts) && cfg.threads >= 2
    requires var s := Exec(cfg, acts);
      |s.pcs| == cfg.threads && s.pcs[0].Idle? && s.lock.None? && s.last == s.clock
    ensures FixedConfig(more)
    ensures var s, d := Exec(cfg, acts), Exec(cfg, more);
      && d.pcs == s.pcs[0 := RefillStore(cfg.capacity + 1, s.clock + cfg.ticks, 1, s.tokens)]
      && d.clock == s.clock + cfg.ticks && d.last == s.last && d.lock == Some(0)
      && d.tokens == s.tokens && d.capacity == s.capacity && d.rate == s.rate && d.ledger.granted == s.ledger.granted
  {
    var s := Exec(cfg, acts);
    var n: pos := cfg.capacity + 1;
    var a1 := acts + [Tick(cfg.ticks)];
    Snoc(cfg, acts, Tick(cfg.ticks));
    var a2 := a1 + [Call(0, n)];
    Snoc(cfg, a1, Call(0, n));
    CheckDue(cfg, Exec(cfg, a1), n);
    var a4 := Twice(cfg, a2, 0);
    more := Lock0(cfg, a4, n);
    SamePcs(s.pcs, 0, WantLock(n), RefillStore(n, s.clock + cfg.ticks, 1, s.tokens));
  }

  /** Thread t makes two steps. */
  lemma Twice(cfg: Config, acts: seq<Action>, t: nat) returns (more: seq<Action>)
    requires FixedConfig(acts)
    ensures FixedConfig(more)
    ensures Exec(cfg, more) == Apply(cfg, Apply(cfg, Exec(cfg, acts), Step(t, false)), Step(t, false))
  {
    Snoc(cfg, acts, Step(t, false));
    Snoc(cfg, acts + [Step(t, false)], Step(t, false));
    more := acts + [Step(t, false)] + [Step(t, false)];
  }

  /** Steps of one thread that only move it leave the other threads where they are. */
  lemma SamePcs(s: seq<Pc>, t: nat, a: Pc, b: Pc)
    requires t < |s|
    ensures s[t := a][t := b] == s[t := b]
  {}

  lemma Lock0(cfg: Config, acts: seq<Action>, n: pos) returns (more: seq<Action>)
    requires FixedConfig(acts)
    requires var s := Exec(cfg, acts);
      0 < |s.pcs| && s.pcs[0] == WantLock(n) && s.lock.None? && s.clock == s.last + cfg.ticks
    ensures FixedConfig(more)
    ensures var s, d := Exec(cfg, acts), Exec(cfg, more);
      && d.pcs == s.pcs[0 := RefillStore(n, s.clock, 1, s.tokens)]
      && d.clock == s.clock && d.last == s.last && d.lock == Some(0)
      && d.tokens == s.tokens && d.capacity == s.capacity && d.rate == s.rate && d.ledger.granted == s.ledger.granted
  {
    var s := Exec(cfg, acts);
    var half := Twice(cfg, acts, 0);
    SamePcs(s.pcs, 0, ReadClockLocked(n), CompareLocked(n, s.clock));
    assert Exec(cfg, half) == s.Goto(0, CompareLocked(n, s.clock)).(lock := Some(0));
    NoTimePassed(cfg.ticks, s.last);
    more := Twice(cfg, half, 0);
    SamePcs(s.pcs, 0, CompareLocked(n, s.clock), RefillLoad(n, s.clock, 1));
    SamePcs(s.pcs, 0, RefillLoad(n, s.clock, 1), RefillStore(n, s.clock, 1, s.tokens));
  }

  lemma Grant(cfg: Config, s: State, n: pos, r: nat)
    requires 1 < |s.pcs| && s.pcs[1] == Cas(n, n, r, r, 0) && s.tokens == n
    ensures var d := Apply(cfg, s, Step(1, false));
      && d.pcs == s.pcs[1 := Idle] && d.clock == s.clock && d.lock == s.lock
      && d.capacity == s.capacity && d.rate == s.rate && d.ledger.granted == s.ledger.granted + n
  {}

  /** The grant lands in the window, then the store puts the tokens back. */
  lemma GrantInWindow(cfg: Config, acts: seq<Action>, n: pos, m: pos, loaded: int, now2: int, r: nat)
    returns (more: seq<Action>)
    requires FixedConfig(acts)
    requires var s := Exec(cfg, acts);
      && 1 < |s.pcs| && s.pcs[0] == RefillStore(m, now2, 1, loaded) && s.pcs[1] == Cas(n, n, r, r, 0)
      && s.tokens == n && loaded == s.capacity < m && 0 <= s.rate
    ensures FixedConfig(more)
    ensures var s, d := Exec(cfg, acts), Exec(cfg, more);
      && d.pcs == s.pcs[1 := Idle][0 := Idle] && d.clock == s.clock && d.last == now2 && d.lock.None?
      && d.tokens == d.capacity == s.capacity && d.rate == s.rate && d.ledger.granted == s.ledger.granted + n
  {
    Grant(cfg, Exec(cfg, acts), n, r);
    Snoc(cfg, acts, Step(1, false));
    more := FinishRefill(cfg, acts + [Step(1, false)], m, loaded, now2);
  }

  lemma FinishRefill(cfg: Config, acts: seq<Action>, m: pos, loaded: int, now2: int) returns (more: seq<Action>)
    requires FixedConfig(acts)
    requires var s := Exec(cfg, acts);
      0 < |s.pcs| && s.pcs[0] == RefillStore(m, now2, 1, loaded) && loaded == s.capacity < m && 0 <= s.rate
    ensures FixedConfig(more)
    ensures var s, d := Exec(cfg, acts), Exec(cfg, more);
      && d.pcs == s.pcs[0 := Idle] && d.clock == s.clock && d.last == now2 && d.lock.None?
      && d.tokens == d.capacity == s.capacity && d.rate == s.rate && d.ledger.granted == s.ledger.granted
  {
    var s := Exec(cfg, acts);
    var a1 := Twice(cfg, acts, 0);
    SamePcs(s.pcs, 0, WriteLast(m, now2), RefillUnlock(m));
    var s1 := Exec(cfg, a1);
    assert s1.pcs == s.pcs[0 := RefillUnlock(m)] && s1.tokens == s.capacity && s1.last == now2;
    var a2 := Twice(cfg, a1, 0);
    var r := s1.ledger.refills;
    SamePcs(s.pcs, 0, RefillUnlock(m), AcquireLoad(m));
    SamePcs(s.pcs, 0, AcquireLoad(m), Cas(m, s.capacity, r, r, 0));
    assert Exec(cfg, a2).pcs == s.pcs[0 := Cas(m, s.capacity, r, r, 0)];
    more := a2 + [Step(0, false)];
    Snoc(cfg, a2, Step(0, false));
    SamePcs(s.pcs, 0, Cas(m, s.capacity, r, r, 0), Idle);
  }

  lemma {:induction false} Rounds(cfg: Config, k: nat) returns (acts: seq<Action>)
    requires cfg.threads >= 2 && cfg.capacity >= 1
    ensures FixedConfig(acts) && Rest(cfg, Exec(cfg, acts), k)
  {
    if k == 0 {
      acts := [];
    } else {
      var a0 := Rounds(cfg, k - 1);
      var s := Exec(cfg, a0);
      var r := s.ledger.refills;
      var a1 := ReachCas(cfg, a0, k - 1);
      var a2 := ReachStore(cfg, a1);
      acts := GrantInWindow(cfg, a2, cfg.capacity, cfg.capacity + 1, cfg.capacity, s.clock + cfg.ticks, r);
      Distribute(k - 1, 1, cfg.ticks);
      Distribute(k - 1, 1, cfg.capacity);
    }
  }

  /** With two threads the unconditional bound is reached, whatever the rate. */
  lemma BoundIsTight(cfg: Config, k: nat) returns (acts: seq<Action>)
    requires cfg.threads >= 2 && cfg.capacity >= 1
    ensures FixedConfig(acts)
    ensures var s := Exec(cfg, acts);
      s.ledger.granted == cfg.capacity * (1 + k) && s.clock == cfg.start + k * cfg.ticks
  {
    var a0 := Rounds(cfg, k);
    var a1 := ReachCas(cfg, a0, k);
    acts := a1 + [Step(1, false)];
    Snoc(cfg, a1, Step(1, false));
    Distribute(1, k, cfg.capacity);
  }

  // ---- Exactly when the nominal bound holds ----------------------------------------------

  /** A lone thread cannot grant inside its own window. */
  ghost predicate NoOverwrite(s: State) {
    s.ledger.overwritten == 0 && (s.Holder().Window() ==> s.ledger.sinceLoad == 0)
  }

  lemma {:induction false} AloneNoOverwrite(cfg: Config, acts: seq<Action>)
    requires cfg.threads <= 1 && FixedConfig(acts)
    ensures NoOverwrite(Exec(cfg, acts)) && |Exec(cfg, acts).pcs| <= 1
    decreases |acts|
  {
    if acts != [] {
      var init, a := acts[..|acts| - 1], acts[|acts| - 1];
      assert forall x :: x in init ==> x in acts;
      AloneNoOverwrite(cfg, init);
      AlwaysInv(cfg, init);
      AloneStep(cfg, Exec(cfg, init), a);
    }
  }

  lemma AloneStep(cfg: Config, s: State, a: Action)
    requires Exclusion(s) && NoOverwrite(s) && |s.pcs| <= 1
    ensures NoOverwrite(Apply(cfg, s, a)) && |Apply(cfg, s, a).pcs| <= 1
  {
    if a.Step? && a.t < |s.pcs| && s.pcs[a.t].Locked() {
      assert s.Holder() == s.pcs[a.t];
    }
  }

  ghost predicate Nominal(cfg: Config, s: State) {
    s.ledger.granted <= cfg.capacity + cfg.rate * SecondsPassed(cfg, s)
  }

  /**
   The nominal bound, granted <= capacity + rate * seconds, holds in every interleaving exactly for
   buckets used by at most one thread and buckets that refill completely in one second.
   */
  lemma NominalBoundExact(cfg: Config)
    ensures (forall acts | FixedConfig(acts) :: Nominal(cfg, Exec(cfg, acts)))
       <==> cfg.threads <= 1 || cfg.capacity <= cfg.rate
  {
    if cfg.threads <= 1 || cfg.capacity <= cfg.rate {
      forall acts | FixedConfig(acts)
        ensures Nominal(cfg, Exec(cfg, acts))
      {
        NominalHolds(cfg, acts);
      }
    } else {
      var acts := BoundIsTight(cfg, 1);
      DivExact(1, cfg.ticks);
      assert !Nominal(cfg, Exec(cfg, acts));
    }
  }

  lemma NominalHolds(cfg: Config, acts: seq<Action>)
    requires FixedConfig(acts)
    requires cfg.threads <= 1 || cfg.capacity <= cfg.rate
    ensures Nominal(cfg, Exec(cfg, acts))
  {
    if cfg.threads <= 1 {
      AloneNoOverwrite(cfg, acts);
      NominalBoundWithoutOverwrites(cfg, acts);
    } else {
      var s := Exec(cfg, acts);
      ConcurrentBound(cfg, acts);
      AlwaysFixed(cfg, acts);
      MulMono(0, s.ledger.seconds, cfg.ticks);
      FitsInto(0, s.clock - cfg.start, cfg.ticks);
      MulMono(cfg.capacity, cfg.rate, SecondsPassed(cfg, s));
      Distribute(1, SecondsPassed(cfg, s), cfg.capacity);
    }
  }
}
