/**
 src/middleware/rate_limiter under any interleaving of any number of threads.

 Every access to shared data is a step of its own: the unlocked clock read and comparison, the lock,
 the second clock read and comparison, the token load, the token store, the write of `last_refill_`,
 the unlock, the load before the CAS loop, each CAS, and the parts of `update_config`. Steps take
 effect one at a time. A schedule is any sequence of actions; an action that is not enabled does
 nothing, so every sequence is a run and every run is a sequence.
 */
module TokenBucketThreads {
  import opened Basics
  import opened Seqs
  import opened Arith

  datatype Config = Config(ticks: pos, capacity: nat, rate: nat, start: int, threads: nat)

  /** Where a thread is. `n` is the size of its request. */
  datatype Pc =
    | Idle
    // refill
    | ReadClock(n: pos)
    | Compare(n: pos, now: int)
    | WantLock(n: pos)
    | ReadClockLocked(n: pos)
    | CompareLocked(n: pos, now2: int)
    | RefillLoad(n: pos, now2: int, elapsed: int)
    | RefillStore(n: pos, now2: int, elapsed: int, loaded: int)
    | WriteLast(n: pos, now2: int)
    | RefillUnlock(n: pos)
    // try_acquire; the last three are bookkeeping: refill stores landed when the loop started and
    // when `expected` was last read, and CAS failures that were not spurious
    | AcquireLoad(n: pos)
    | Cas(n: pos, expected: int, since: nat, seen: nat, failures: nat)
    // update_config
    | ConfigWantLock(newCapacity: nat, newRate: nat)
    | ConfigCapacity(newCapacity: nat, newRate: nat)
    | ConfigRate(newRate: nat)
    | ConfigLoad
    | ConfigStore(current: int)
    | ConfigUnlock
  {
    /** Holds `refill_mutex_`. */
    predicate Locked() {
      ReadClockLocked? || CompareLocked? || RefillLoad? || RefillStore? || WriteLast? || RefillUnlock?
      || ConfigCapacity? || ConfigRate? || ConfigLoad? || ConfigStore? || ConfigUnlock?
    }

    predicate Configuring() {
      ConfigWantLock? || ConfigCapacity? || ConfigRate? || ConfigLoad? || ConfigStore? || ConfigUnlock?
    }

    /** Between the capacity write and the truncation of `update_config`. */
    predicate Truncating() {
      ConfigRate? || ConfigLoad? || ConfigStore?
    }

    /** Between a load of the tokens under the lock and the store that overwrites them. */
    predicate Window() {
      RefillStore? || ConfigStore?
    }
  }

  /**
   History, not program state: tokens granted; tokens earned, elapsed * rate for each refill, and the
   part of them clipped at the capacity; the whole seconds they were earned for; refill stores; grants
   overwritten because they landed between a load and its store; tokens cut off by update_config;
   grants since the last load under the lock.
   */
  datatype Ledger = Ledger(granted: int, earned: int, clipped: int, seconds: int, refills: nat, overwritten: int,
                           truncated: int, sinceLoad: int)

  datatype State = State(tokens: int, capacity: int, rate: int, last: int, clock: int, lock: Option<nat>,
                         pcs: seq<Pc>, ledger: Ledger)
  {
    function Goto(t: nat, pc: Pc): State
      requires t < |pcs|
    {
      this.(pcs := pcs[t := pc])
    }

    /** The program counter of the thread holding the lock. */
    ghost function Holder(): Pc {
      if lock.Some? && lock.value < |pcs| then pcs[lock.value] else Idle
    }
  }

  function Init(cfg: Config): State {
    State(cfg.capacity, cfg.capacity, cfg.rate, cfg.start, cfg.start, None,
          seq(cfg.threads, _ => Idle), Ledger(0, 0, 0, 0, 0, 0, 0, 0))
  }

  datatype Action =
    | Tick(d: nat)
    | Call(t: nat, n: pos)
    | Reconfigure(t: nat, newCapacity: nat, newRate: nat)
    | Step(t: nat, spurious: bool)

  function Apply(cfg: Config, s: State, a: Action): State {
    match a
    case Tick(d) => s.(clock := s.clock + d)
    case Call(t, n) => if t < |s.pcs| && s.pcs[t].Idle? then s.Goto(t, ReadClock(n)) else s
    case Reconfigure(t, c, r) => if t < |s.pcs| && s.pcs[t].Idle? then s.Goto(t, ConfigWantLock(c, r)) else s
    case Step(t, spurious) => if t < |s.pcs| then StepThread(cfg, s, t, spurious) else s
  }

  function StepThread(cfg: Config, s: State, t: nat, spurious: bool): State
    requires t < |s.pcs|
  {
    match s.pcs[t]
    case Idle => s
    case ReadClock(n) => s.Goto(t, Compare(n, s.clock))
    case Compare(n, now) =>
      if ElapsedSeconds(cfg.ticks, s.last, now) <= 0 then s.Goto(t, AcquireLoad(n)) else s.Goto(t, WantLock(n))
    case WantLock(n) => if s.lock.None? then s.Goto(t, ReadClockLocked(n)).(lock := Some(t)) else s
    case ReadClockLocked(n) => s.Goto(t, CompareLocked(n, s.clock))
    case CompareLocked(n, now2) =>
      var elapsed := ElapsedSeconds(cfg.ticks, s.last, now2);
      if elapsed <= 0 then s.Goto(t, RefillUnlock(n)) else s.Goto(t, RefillLoad(n, now2, elapsed))
    case RefillLoad(n, now2, elapsed) =>
      s.Goto(t, RefillStore(n, now2, elapsed, s.tokens)).(ledger := s.ledger.(sinceLoad := 0))
    case RefillStore(n, now2, elapsed, loaded) =>
      var refilled := Min(s.capacity, loaded + elapsed * s.rate);
      s.Goto(t, WriteLast(n, now2)).(
        tokens := refilled,
        ledger := s.ledger.(
          earned := s.ledger.earned + elapsed * s.rate,
          clipped := s.ledger.clipped + (loaded + elapsed * s.rate - refilled),
          seconds := s.ledger.seconds + elapsed,
          refills := s.ledger.refills + 1,
          overwritten := s.ledger.overwritten + s.ledger.sinceLoad))
    case WriteLast(n, now2) => s.Goto(t, RefillUnlock(n)).(last := now2)
    case RefillUnlock(n) => s.Goto(t, AcquireLoad(n)).(lock := None)
    case AcquireLoad(n) => s.Goto(t, Cas(n, s.tokens, s.ledger.refills, s.ledger.refills, 0))
    case Cas(n, expected, since, seen, failures) =>
      if expected < n then s.Goto(t, Idle)
      else if s.tokens != expected then s.Goto(t, Cas(n, s.tokens, since, s.ledger.refills, failures + 1))
      else if spurious then s.Goto(t, Cas(n, s.tokens, since, s.ledger.refills, failures))
      else s.Goto(t, Idle).(
        tokens := s.tokens - n,
        ledger := s.ledger.(granted := s.ledger.granted + n, sinceLoad := s.ledger.sinceLoad + n))
    case ConfigWantLock(c, r) => if s.lock.None? then s.Goto(t, ConfigCapacity(c, r)).(lock := Some(t)) else s
    case ConfigCapacity(c, r) => s.Goto(t, ConfigRate(r)).(capacity := c)
    case ConfigRate(r) => s.Goto(t, ConfigLoad).(rate := r)
    case ConfigLoad =>
      (if s.tokens > s.capacity then s.Goto(t, ConfigStore(s.tokens)) else s.Goto(t, ConfigUnlock))
        .(ledger := s.ledger.(sinceLoad := 0))
    case ConfigStore(current) =>
      s.Goto(t, ConfigUnlock).(
        tokens := s.capacity,
        ledger := s.ledger.(
          truncated := s.ledger.truncated + (current - s.capacity),
          overwritten := s.ledger.overwritten + s.ledger.sinceLoad))
    case ConfigUnlock => s.Goto(t, Idle).(lock := None)
  }

  function Exec(cfg: Config, acts: seq<Action>): State
    decreases |acts|
  {
    if acts == [] then Init(cfg) else Apply(cfg, Exec(cfg, acts[..|acts| - 1]), acts[|acts| - 1])
  }

  predicate FixedConfig(acts: seq<Action>) {
    forall a :: a in acts ==> !a.Reconfigure?
  }

  // ---- Invariants ------------------------------------------------------------------------

  /** The mutex excludes: exactly the thread recorded as its owner is inside. */
  ghost predicate Exclusion(s: State) {
    && (forall t :: 0 <= t < |s.pcs| && s.pcs[t].Locked() ==> s.lock == Some(t))
    && (s.lock.Some? ==> s.lock.value < |s.pcs| && s.pcs[s.lock.value].Locked())
  }

  /** Range, with hot reconfiguration. */
  ghost predicate Range(s: State) {
    && 0 <= s.tokens && 0 <= s.capacity && 0 <= s.rate && 0 <= s.ledger.sinceLoad
    && (!s.Holder().Truncating() ==> s.tokens <= s.capacity)
    && (s.Holder().RefillLoad? ==> s.Holder().elapsed > 0)
    && (s.Holder().RefillStore? ==> s.Holder().elapsed > 0 && s.tokens == s.Holder().loaded - s.ledger.sinceLoad)
    && (s.Holder().ConfigStore? ==>
         s.Holder().current > s.capacity && s.tokens == s.Holder().current - s.ledger.sinceLoad)
  }

  /** The exact ledger. */
  ghost predicate Balanced(cfg: Config, s: State) {
    var l := s.ledger;
    && l.granted + s.tokens + l.truncated == cfg.capacity + (l.earned - l.clipped) + l.overwritten
    && 0 <= l.clipped && 0 <= l.truncated && 0 <= l.overwritten
  }

  ghost predicate Inv(cfg: Config, s: State) {
    Exclusion(s) && Range(s) && Balanced(cfg, s)
  }

  /** A step that neither takes nor gives back the mutex. */
  lemma KeepsLock(s: State, d: State, t: nat)
    requires Exclusion(s) && t < |s.pcs| && |d.pcs| == |s.pcs| && d.lock == s.lock
    requires d.pcs == s.pcs[t := d.pcs[t]] && (d.pcs[t].Locked() <==> s.pcs[t].Locked())
    ensures Exclusion(d)
  {}

  /** A step that takes the free mutex or gives it back. */
  lemma ChangesLock(s: State, d: State, t: nat)
    requires Exclusion(s) && t < |s.pcs| && |d.pcs| == |s.pcs| && d.pcs == s.pcs[t := d.pcs[t]]
    requires if d.pcs[t].Locked() then s.lock.None? && d.lock == Some(t) else s.lock == Some(t) && d.lock.None?
    ensures Exclusion(d)
  {}

  lemma ThreadMoves(cfg: Config, s: State, t: nat, spurious: bool)
    requires Exclusion(s) && t < |s.pcs|
    ensures var d := StepThread(cfg, s, t, spurious);
      && |d.pcs| == |s.pcs| && d.pcs == s.pcs[t := d.pcs[t]]
      && (if d.lock == s.lock then d.pcs[t].Locked() <==> s.pcs[t].Locked()
          else if d.pcs[t].Locked() then s.lock.None? && d.lock == Some(t)
          else s.pcs[t].Locked() && d.lock.None?)
  {}

  lemma StepExclusion(cfg: Config, s: State, a: Action)
    requires Exclusion(s)
    ensures Exclusion(Apply(cfg, s, a))
  {
    if a.Step? && a.t < |s.pcs| {
      var d := StepThread(cfg, s, a.t, a.spurious);
      ThreadMoves(cfg, s, a.t, a.spurious);
      if d.lock == s.lock {
        KeepsLock(s, d, a.t);
      } else {
        ChangesLock(s, d, a.t);
      }
    }
  }

  lemma StepInv(cfg: Config, s: State, a: Action)
    requires Inv(cfg, s)
    ensures Inv(cfg, Apply(cfg, s, a))
  {
    StepExclusion(cfg, s, a);
    if a.Step? && a.t < |s.pcs| {
      if s.pcs[a.t].Locked() {
        HolderInv(cfg, s, a.t, a.spurious);
      } else {
        FreeInv(cfg, s, a.t, a.spurious);
      }
    }
  }

  lemma HolderInv(cfg: Config, s: State, t: nat, spurious: bool)
    requires Inv(cfg, s) && t < |s.pcs| && s.pcs[t].Locked()
    ensures Range(StepThread(cfg, s, t, spurious)) && Balanced(cfg, StepThread(cfg, s, t, spurious))
  {
    assert s.Holder() == s.pcs[t];
    if s.pcs[t].RefillStore? {
      MulMono(0, s.pcs[t].elapsed, s.rate);
    }
  }

  lemma FreeInv(cfg: Config, s: State, t: nat, spurious: bool)
    requires Inv(cfg, s) && t < |s.pcs| && !s.pcs[t].Locked()
    ensures Range(StepThread(cfg, s, t, spurious)) && Balanced(cfg, StepThread(cfg, s, t, spurious))
  {}

  lemma {:induction false} AlwaysInv(cfg: Config, acts: seq<Action>)
    ensures Inv(cfg, Exec(cfg, acts))
    decreases |acts|
  {
    if acts != [] {
      AlwaysInv(cfg, acts[..|acts| - 1]);
      StepInv(cfg, Exec(cfg, acts[..|acts| - 1]), acts[|acts| - 1]);
    }
  }

  /**
   Range, in every interleaving with reconfiguration: tokens never go below zero, and stay within the
   capacity unless some thread is between update_config's capacity write and its truncation.
   */
  lemma {:induction false} RangeInvariant(cfg: Config, acts: seq<Action>)
    ensures var s := Exec(cfg, acts);
      && 0 <= s.tokens
      && ((forall t :: 0 <= t < |s.pcs| ==> !s.pcs[t].Truncating()) ==> s.tokens <= s.capacity)
  {
    AlwaysInv(cfg, acts);
  }

  /** The exact ledger, in every interleaving with reconfiguration. */
  lemma {:induction false} ExactLedger(cfg: Config, acts: seq<Action>)
    ensures Balanced(cfg, Exec(cfg, acts))
  {
    AlwaysInv(cfg, acts);
  }

  // ---- Fixed configuration ---------------------------------------------------------------

  /** The time up to which refill stores have credited tokens. */
  ghost function CreditedUpTo(s: State): int {
    if s.Holder().WriteLast? then s.Holder().now2 else s.last
  }

  /** Refills are at least a second apart, and credit no more seconds than have passed. */
  ghost predicate Timed(cfg: Config, s: State) {
    var l, h := s.ledger, s.Holder();
    && s.last <= CreditedUpTo(s) <= s.clock
    && 0 <= l.refills <= l.seconds
    && l.seconds * cfg.ticks <= CreditedUpTo(s) - cfg.start
    && (h.CompareLocked? ==> h.now2 <= s.clock)
    && (h.WriteLast? ==> s.last + cfg.ticks <= h.now2)
    && (h.RefillLoad? || h.RefillStore? ==>
         && s.last <= h.now2 <= s.clock && 0 < h.elapsed == (h.now2 - s.last) / cfg.ticks
         && h.elapsed * cfg.ticks <= h.now2 - s.last)
  }

  ghost predicate Fixed(cfg: Config, s: State) {
    && s.capacity == cfg.capacity && s.rate == cfg.rate && s.ledger.truncated == 0
    && (forall t :: 0 <= t < |s.pcs| ==> !s.pcs[t].Configuring())
  }

  ghost predicate Bounded(cfg: Config, s: State) {
    var l := s.ledger;
    && l.granted + s.tokens <= cfg.capacity * (1 + l.refills)
    && l.earned == cfg.rate * l.seconds
  }

  ghost predicate FixedInv(cfg: Config, s: State) {
    Inv(cfg, s) && Timed(cfg, s) && Fixed(cfg, s) && Bounded(cfg, s)
  }

  lemma StepFixed(cfg: Config, s: State, a: Action)
    requires Inv(cfg, s) && Fixed(cfg, s) && !a.Reconfigure?
    ensures Fixed(cfg, Apply(cfg, s, a))
  {}

  lemma HolderTimed(cfg: Config, s: State, t: nat, spurious: bool)
    requires Inv(cfg, s) && Timed(cfg, s) && t < |s.pcs| && s.pcs[t].Locked()
    ensures Timed(cfg, StepThread(cfg, s, t, spurious))
  {
    assert s.Holder() == s.pcs[t];
    match s.pcs[t]
    case CompareLocked(n, now2) =>
      ElapsedBounds(cfg.ticks, s.last, now2);
    case RefillLoad(n, now2, elapsed) =>
      MulMono(1, elapsed, cfg.ticks);
    case RefillStore(n, now2, elapsed, loaded) =>
      MulMono(1, elapsed, cfg.ticks);
      Distribute(s.ledger.seconds, elapsed, cfg.ticks);
    case _ =>
  }

  /** A thread without the mutex at most takes it. */
  lemma FreeTimed(cfg: Config, s: State, t: nat, spurious: bool)
    requires Inv(cfg, s) && Timed(cfg, s) && t < |s.pcs| && !s.pcs[t].Locked()
    ensures Timed(cfg, StepThread(cfg, s, t, spurious))
  {
    var d := StepThread(cfg, s, t, spurious);
    assert d.lock == s.lock ==> d.Holder() == s.Holder();
  }

  lemma StepTimed(cfg: Config, s: State, a: Action)
    requires Inv(cfg, s) && Timed(cfg, s)
    ensures Timed(cfg, Apply(cfg, s, a))
  {
    if a.Step? && a.t < |s.pcs| {
      if s.pcs[a.t].Locked() {
        HolderTimed(cfg, s, a.t, a.spurious);
      } else {
        FreeTimed(cfg, s, a.t, a.spurious);
      }
    }
  }

  lemma StepBounded(cfg: Config, s: State, a: Action)
    requires FixedInv(cfg, s) && !a.Reconfigure?
    ensures Bounded(cfg, Apply(cfg, s, a))
  {
    if a.Step? && a.t < |s.pcs| && s.pcs[a.t].RefillStore? {
      assert s.Holder() == s.pcs[a.t];
      Distribute(1 + s.ledger.refills, 1, cfg.capacity);
      Distribute(s.ledger.seconds, s.pcs[a.t].elapsed, cfg.rate);
    }
  }

  lemma {:induction false} AlwaysFixed(cfg: Config, acts: seq<Action>)
    requires FixedConfig(acts)
    ensures FixedInv(cfg, Exec(cfg, acts))
    decreases |acts|
  {
    AlwaysInv(cfg, acts);
    if acts != [] {
      var init, a := acts[..|acts| - 1], acts[|acts| - 1];
      assert a in acts && forall x :: x in init ==> x in acts;
      AlwaysFixed(cfg, init);
      StepFixed(cfg, Exec(cfg, init), a);
      StepTimed(cfg, Exec(cfg, init), a);
      StepBounded(cfg, Exec(cfg, init), a);
    }
  }

  /** Whole seconds since the start. */
  function SecondsPassed(cfg: Config, s: State): int {
    (s.clock - cfg.start) / cfg.ticks
  }

  /** The unconditional bound, in every interleaving. */
  lemma {:induction false} ConcurrentBound(cfg: Config, acts: seq<Action>)
    requires FixedConfig(acts)
    ensures var s := Exec(cfg, acts);
      s.ledger.granted <= cfg.capacity * (1 + SecondsPassed(cfg, s))
  {
    AlwaysFixed(cfg, acts);
    var s := Exec(cfg, acts);
    FitsInto(s.ledger.seconds, s.clock - cfg.start, cfg.ticks);
    MulMono(1 + s.ledger.refills, 1 + SecondsPassed(cfg, s), cfg.capacity);
  }

  /** What the ledger says at fixed configuration: only overwritten grants exceed the nominal rate. */
  lemma {:induction false} NominalBound(cfg: Config, acts: seq<Action>)
    requires FixedConfig(acts)
    ensures var s := Exec(cfg, acts);
      && s.ledger.granted + s.tokens == cfg.capacity + (s.ledger.earned - s.ledger.clipped) + s.ledger.overwritten
      && s.ledger.granted <= cfg.capacity + cfg.rate * SecondsPassed(cfg, s) + s.ledger.overwritten
  {
    AlwaysFixed(cfg, acts);
    var s := Exec(cfg, acts);
    FitsInto(s.ledger.seconds, s.clock - cfg.start, cfg.ticks);
    MulMono(s.ledger.seconds, SecondsPassed(cfg, s), cfg.rate);
  }

  /** If no grant was overwritten, the nominal bound holds. */
  lemma {:induction false} NominalBoundWithoutOverwrites(cfg: Config, acts: seq<Action>)
    requires FixedConfig(acts) && Exec(cfg, acts).ledger.overwritten == 0
    ensures var s := Exec(cfg, acts);
      s.ledger.granted <= cfg.capacity + cfg.rate * SecondsPassed(cfg, s)
  {
    NominalBound(cfg, acts);
  }

  // ---- Between refills -------------------------------------------------------------------

  lemma {:induction false} AlwaysTimed(cfg: Config, acts: seq<Action>)
    ensures Inv(cfg, Exec(cfg, acts)) && Timed(cfg, Exec(cfg, acts))
    decreases |acts|
  {
    AlwaysInv(cfg, acts);
    if acts != [] {
      AlwaysTimed(cfg, acts[..|acts| - 1]);
      StepTimed(cfg, Exec(cfg, acts[..|acts| - 1]), acts[|acts| - 1]);
    }
  }

  /** `last_refill_` only ever moves on, and by a second at least. */
  lemma {:induction false} LastMovesOn(cfg: Config, acts: seq<Action>, a: Action)
    ensures var s := Exec(cfg, acts);
      var d := Apply(cfg, s, a);
      d.last == s.last || s.last + cfg.ticks <= d.last
  {
    AlwaysTimed(cfg, acts);
    var s := Exec(cfg, acts);
    if a.Step? && a.t < |s.pcs| && s.pcs[a.t].WriteLast? {
      assert s.Holder() == s.pcs[a.t];
    }
  }

  /** From s to d every refill store took a second at least. */
  ghost predicate Apart(cfg: Config, s: State, d: State) {
    && s.ledger.refills <= d.ledger.refills
    && (d.ledger.refills - s.ledger.refills) * cfg.ticks <= CreditedUpTo(d) - CreditedUpTo(s)
  }

  lemma StepApart(cfg: Config, s: State, a: Action)
    requires Inv(cfg, s) && Timed(cfg, s)
    ensures Apart(cfg, s, Apply(cfg, s, a))
  {
    if a.Step? && a.t < |s.pcs| {
      if s.pcs[a.t].Locked() {
        assert s.Holder() == s.pcs[a.t];
        if s.pcs[a.t].RefillStore? {
          MulMono(1, s.pcs[a.t].elapsed, cfg.ticks);
        }
      } else {
        var d := Apply(cfg, s, a);
        assert d.lock == s.lock ==> d.Holder() == s.Holder();
      }
    }
  }

  lemma ApartThenApart(cfg: Config, s: State, e: State, d: State)
    requires Apart(cfg, s, e) && Apart(cfg, e, d)
    ensures Apart(cfg, s, d)
  {
    Distribute(e.ledger.refills - s.ledger.refills, d.ledger.refills - e.ledger.refills, cfg.ticks);
  }

  lemma ExecSnoc(cfg: Config, pre: seq<Action>, suf: seq<Action>)
    requires suf != []
    ensures Exec(cfg, pre + suf) == Apply(cfg, Exec(cfg, pre + Front(suf)), Last(suf))
  {
    assert (pre + suf)[..|pre + suf| - 1] == pre + Front(suf);
  }

  /** In every part of every interleaving, with reconfiguration, n refill stores take n seconds at least. */
  lemma {:induction false} RefillsApart(cfg: Config, pre: seq<Action>, suf: seq<Action>)
    ensures Apart(cfg, Exec(cfg, pre), Exec(cfg, pre + suf))
    decreases |suf|
  {
    if suf == [] {
      Nil(pre);
    } else {
      RefillsApart(cfg, pre, Front(suf));
      AlwaysTimed(cfg, pre + Front(suf));
      StepApart(cfg, Exec(cfg, pre + Front(suf)), Last(suf));
      ExecSnoc(cfg, pre, suf);
      ApartThenApart(cfg, Exec(cfg, pre), Exec(cfg, pre + Front(suf)), Exec(cfg, pre + suf));
    }
  }

  lemma StepFalls(cfg: Config, s: State, a: Action)
    requires FixedInv(cfg, s) && !a.Reconfigure?
    ensures var d := Apply(cfg, s, a);
      s.ledger.refills <= d.ledger.refills && s.ledger.granted <= d.ledger.granted
      && (d.ledger.refills == s.ledger.refills ==>
           d.tokens + d.ledger.granted == s.tokens + s.ledger.granted)
  {}

  /** Between two refill stores tokens only fall, by exactly what is granted. */
  lemma {:induction false} TokensFall(cfg: Config, pre: seq<Action>, suf: seq<Action>)
    requires FixedConfig(pre + suf)
    ensures var s, d := Exec(cfg, pre), Exec(cfg, pre + suf);
      && s.ledger.refills <= d.ledger.refills && s.ledger.granted <= d.ledger.granted
      && (d.ledger.refills == s.ledger.refills ==> d.tokens == s.tokens - (d.ledger.granted - s.ledger.granted))
    decreases |suf|
  {
    if suf == [] {
      Nil(pre);
    } else {
      var init := pre + Front(suf);
      assert pre + suf == init + [Last(suf)];
      assert forall a :: a in init ==> a in init + [Last(suf)];
      assert Last(suf) in init + [Last(suf)];
      TokensFall(cfg, pre, Front(suf));
      AlwaysFixed(cfg, init);
      StepFalls(cfg, Exec(cfg, init), Last(suf));
      ExecSnoc(cfg, pre, suf);
    }
  }

  // ---- The CAS loop ----------------------------------------------------------------------

  /** The budget of failures of a thread in its CAS loop. */
  ghost predicate LoopBounded(cfg: Config, s: State, pc: Pc) {
    pc.Cas? ==>
      && pc.since <= pc.seen <= s.ledger.refills
      && 0 <= pc.expected <= cfg.capacity
      && (pc.seen == s.ledger.refills ==> s.tokens <= pc.expected)
      && pc.failures <= (pc.seen - pc.since) * (cfg.capacity + 1) + (cfg.capacity - pc.expected)
  }

  ghost predicate LoopsBounded(cfg: Config, s: State) {
    forall t :: 0 <= t < |s.pcs| ==> LoopBounded(cfg, s, s.pcs[t])
  }

  /** A CAS that fails for real, with no refill store since `expected` was read, saw a smaller value. */
  lemma {:induction false} FailureSeesLess(cfg: Config, acts: seq<Action>, t: nat, spurious: bool)
    requires FixedConfig(acts)
    requires var s := Exec(cfg, acts);
      t < |s.pcs| && s.pcs[t].Cas? && s.pcs[t].seen == s.ledger.refills
      && StepThread(cfg, s, t, spurious).pcs[t].Cas?
      && StepThread(cfg, s, t, spurious).pcs[t].failures > s.pcs[t].failures
    ensures var s := Exec(cfg, acts);
      StepThread(cfg, s, t, spurious).pcs[t].expected < s.pcs[t].expected
  {
    AlwaysLoopsBounded(cfg, acts);
  }

  lemma StepLoop(cfg: Config, s: State, t: nat, spurious: bool)
    requires FixedInv(cfg, s) && t < |s.pcs| && LoopBounded(cfg, s, s.pcs[t])
    ensures var d := StepThread(cfg, s, t, spurious);
      LoopBounded(cfg, d, d.pcs[t])
  {
    if s.pcs[t].Cas? {
      var pc := s.pcs[t];
      if pc.seen < s.ledger.refills {
        MulMono(pc.seen - pc.since + 1, s.ledger.refills - pc.since, cfg.capacity + 1);
      }
      MulMono(pc.seen - pc.since, s.ledger.refills - pc.since, cfg.capacity + 1);
      Distribute(pc.seen - pc.since, 1, cfg.capacity + 1);
    }
  }

  lemma StepOthers(cfg: Config, s: State, t: nat, spurious: bool, u: nat)
    requires FixedInv(cfg, s) && t < |s.pcs| && u < |s.pcs| && t != u && LoopBounded(cfg, s, s.pcs[u])
    ensures var d := StepThread(cfg, s, t, spurious);
      LoopBounded(cfg, d, d.pcs[u])
  {
    var d := StepThread(cfg, s, t, spurious);
    assert d.pcs[u] == s.pcs[u];
  }

  lemma ThreadLoops(cfg: Config, s: State, t: nat, spurious: bool)
    requires FixedInv(cfg, s) && t < |s.pcs| && LoopsBounded(cfg, s)
    ensures LoopsBounded(cfg, StepThread(cfg, s, t, spurious))
  {
    var d := StepThread(cfg, s, t, spurious);
    ThreadMoves(cfg, s, t, spurious);
    forall u | 0 <= u < |d.pcs|
      ensures LoopBounded(cfg, d, d.pcs[u])
    {
      if u == t {
        StepLoop(cfg, s, u, spurious);
      } else {
        StepOthers(cfg, s, t, spurious, u);
      }
    }
  }

  lemma {:induction false} AlwaysLoopsBounded(cfg: Config, acts: seq<Action>)
    requires FixedConfig(acts)
    ensures FixedInv(cfg, Exec(cfg, acts)) && LoopsBounded(cfg, Exec(cfg, acts))
    decreases |acts|
  {
    AlwaysFixed(cfg, acts);
    if acts != [] {
      var init, a := acts[..|acts| - 1], acts[|acts| - 1];
      assert a in acts && forall x :: x in init ==> x in acts;
      AlwaysLoopsBounded(cfg, init);
      AlwaysFixed(cfg, init);
      var s := Exec(cfg, init);
      if a.Step? && a.t < |s.pcs| {
        ThreadLoops(cfg, s, a.t, a.spurious);
      } else {
        OutsideLoops(cfg, s, a);
      }
    }
  }

  lemma OutsideLoops(cfg: Config, s: State, a: Action)
    requires LoopsBounded(cfg, s) && !(a.Step? && a.t < |s.pcs|)
    ensures LoopsBounded(cfg, Apply(cfg, s, a))
  {}

  /** Real failures in one loop: at most (k + 1) * (capacity + 1), k refill stores landing meanwhile. */
  lemma {:induction false} CasLoopBound(cfg: Config, acts: seq<Action>, t: nat)
    requires FixedConfig(acts)
    requires t < |Exec(cfg, acts).pcs| && Exec(cfg, acts).pcs[t].Cas?
    ensures var s := Exec(cfg, acts);
      s.pcs[t].failures <= (s.ledger.refills - s.pcs[t].since + 1) * (cfg.capacity + 1)
  {
    AlwaysLoopsBounded(cfg, acts);
    var s := Exec(cfg, acts);
    var pc := s.pcs[t];
    MulMono(pc.seen - pc.since, s.ledger.refills - pc.since, cfg.capacity + 1);
    Distribute(s.ledger.refills - pc.since, 1, cfg.capacity + 1);
  }
}
