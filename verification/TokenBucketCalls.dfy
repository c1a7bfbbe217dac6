/**
 What single calls can rely on while other threads run: no request is denied with enough tokens in sight,
 none is decided on an overdue refill, and no reconfiguration is lost.
 */
module TokenBucketCalls {
  import opened Basics
  import opened Seqs
  import opened Arith
  import opened TokenBucketThreads

  // ---- Where a call can go ---------------------------------------------------------------

  /** In a call of try_acquire. */
  predicate Acquiring(pc: Pc) {
    !pc.Idle? && !pc.Configuring()
  }

  /**
   A call ends only in its CAS loop, with its tokens granted or after reading too few of them; until then
   its request stays the same. An update_config ends only behind its unlock.
   */
  lemma {:induction false} CallEndsOnlyWhenDecided(cfg: Config, acts: seq<Action>, t: nat, spurious: bool)
    requires t < |Exec(cfg, acts).pcs|
    ensures var s := Exec(cfg, acts);
      var d := StepThread(cfg, s, t, spurious);
      var p, q := s.pcs[t], d.pcs[t];
      && d.pcs == s.pcs[t := q]
      && (Acquiring(p) && !q.Idle? ==> Acquiring(q) && q.n == p.n && d.ledger.granted == s.ledger.granted)
      && (Acquiring(p) && q.Idle? ==>
           && p.Cas?
           && if d.ledger.granted == s.ledger.granted then p.expected < p.n && d.tokens == s.tokens
              else d.ledger.granted == s.ledger.granted + p.n && d.tokens == s.tokens - p.n && p.n <= s.tokens)
      && (p.Configuring() ==> q.Configuring() || (q.Idle? && p.ConfigUnlock?))
  {
    AlwaysInv(cfg, acts);
    ThreadMoves(cfg, Exec(cfg, acts), t, spurious);
  }

  /** Every step that enters the loop or stays in it leaves `expected` at the tokens of that moment. */
  lemma {:induction false} LoopReadsTokens(cfg: Config, acts: seq<Action>, t: nat, spurious: bool)
    requires t < |Exec(cfg, acts).pcs|
    ensures var d := StepThread(cfg, Exec(cfg, acts), t, spurious);
      t < |d.pcs| && (d.pcs[t].Cas? ==> d.pcs[t].expected == d.tokens)
  {
    AlwaysInv(cfg, acts);
    ThreadMoves(cfg, Exec(cfg, acts), t, spurious);
  }

  /** The moment at which a thread in its loop has read `expected`. */
  lemma {:induction false} ReadAt(cfg: Config, acts: seq<Action>, t: nat) returns (k: nat)
    requires t < |Exec(cfg, acts).pcs| && Exec(cfg, acts).pcs[t].Cas?
    ensures k <= |acts|
    ensures var s, e := Exec(cfg, acts), Exec(cfg, acts[..k]);
      t < |e.pcs| && e.pcs[t] == s.pcs[t] && e.tokens == s.pcs[t].expected
    decreases |acts|
  {
    var init, a := acts[..|acts| - 1], acts[|acts| - 1];
    if a.Step? && a.t == t {
      LoopReadsTokens(cfg, init, t, a.spurious);
      assert acts[..|acts|] == acts;
      k := |acts|;
    } else {
      OthersStay(cfg, Exec(cfg, init), a, t);
      k := ReadAt(cfg, init, t);
      assert acts[..k] == init[..k];
    }
  }

  lemma OthersStay(cfg: Config, s: State, a: Action, t: nat)
    requires t < |Apply(cfg, s, a).pcs| && !(a.Step? && a.t == t) && Apply(cfg, s, a).pcs[t].Cas?
    ensures t < |s.pcs| && s.pcs[t] == Apply(cfg, s, a).pcs[t]
  {}

  /** The step from s to d ends a call of thread t without a grant. */
  ghost predicate Denied(s: State, d: State, t: nat) {
    && t < |s.pcs| == |d.pcs| && Acquiring(s.pcs[t]) && d.pcs[t].Idle?
    && d.ledger.granted == s.ledger.granted
  }

  /** Thread t is in its loop and there are too few tokens for it. */
  ghost predicate Short(s: State, t: nat, pc: Pc) {
    t < |s.pcs| && s.pcs[t] == pc && pc.Cas? && s.tokens < pc.n
  }

  /** A call is denied only if at some moment of its loop there were fewer tokens than it asks for. */
  lemma {:induction false} DeniedOnlyWhenShort(cfg: Config, acts: seq<Action>, t: nat, spurious: bool) returns (k: nat)
    requires t < |Exec(cfg, acts).pcs|
    ensures k <= |acts|
    ensures var s := Exec(cfg, acts);
      Denied(s, StepThread(cfg, s, t, spurious), t) ==> Short(Exec(cfg, acts[..k]), t, s.pcs[t])
  {
    var s := Exec(cfg, acts);
    k := 0;
    if Denied(s, StepThread(cfg, s, t, spurious), t) {
      CallEndsOnlyWhenDecided(cfg, acts, t, spurious);
      k := ReadAt(cfg, acts, t);
    }
  }

  // ---- What changes the tokens -----------------------------------------------------------

  /**
   A refill store, in any interleaving with reconfiguration: it credits the whole seconds between two
   refill times at the rate of the moment, on top of what was loaded, and clips at the capacity only.
   */
  lemma {:induction false} StoreExact(cfg: Config, acts: seq<Action>, a: Action)
    requires Apply(cfg, Exec(cfg, acts), a).ledger.refills != Exec(cfg, acts).ledger.refills
    ensures var s, d := Exec(cfg, acts), Apply(cfg, Exec(cfg, acts), a);
      var seconds := (CreditedUpTo(d) - s.last) / cfg.ticks;
      var full := s.tokens + s.ledger.sinceLoad + seconds * s.rate;
      && d.ledger.refills == s.ledger.refills + 1 && d.ledger.granted == s.ledger.granted
      && 0 < seconds == d.ledger.seconds - s.ledger.seconds
      && d.ledger.earned - s.ledger.earned == seconds * s.rate
      && d.ledger.overwritten - s.ledger.overwritten == s.ledger.sinceLoad
      && (full <= s.capacity ==> d.tokens == full && d.ledger.clipped == s.ledger.clipped)
      && (full > s.capacity ==> d.tokens == s.capacity && d.ledger.clipped - s.ledger.clipped == full - s.capacity)
  {
    AlwaysTimed(cfg, acts);
    var s := Exec(cfg, acts);
    assert a.Step? && a.t < |s.pcs| && s.pcs[a.t].RefillStore?;
    assert s.Holder() == s.pcs[a.t];
  }

  /** A truncating store cuts off exactly what was loaded beyond the new capacity. */
  lemma {:induction false} TruncationExact(cfg: Config, acts: seq<Action>, a: Action)
    ensures var s, d := Exec(cfg, acts), Apply(cfg, Exec(cfg, acts), a);
      d.ledger.truncated != s.ledger.truncated ==>
        && d.tokens == s.capacity == d.capacity && d.ledger.granted == s.ledger.granted
        && d.ledger.truncated - s.ledger.truncated == s.tokens + s.ledger.sinceLoad - s.capacity
        && 0 < d.ledger.truncated - s.ledger.truncated
        && d.ledger.overwritten - s.ledger.overwritten == s.ledger.sinceLoad
  {
    AlwaysInv(cfg, acts);
    var s := Exec(cfg, acts);
    assert forall t :: 0 <= t < |s.pcs| && s.pcs[t].ConfigStore? ==> s.Holder() == s.pcs[t];
  }

  /** Nothing else changes the tokens but a grant, or the books but a grant. */
  lemma {:induction false} OtherwiseOnlyGrants(cfg: Config, acts: seq<Action>, a: Action)
    requires var s, d := Exec(cfg, acts), Apply(cfg, Exec(cfg, acts), a);
      d.ledger.refills == s.ledger.refills && d.ledger.truncated == s.ledger.truncated
    ensures var s, d := Exec(cfg, acts), Apply(cfg, Exec(cfg, acts), a);
      && d.tokens + d.ledger.granted == s.tokens + s.ledger.granted && s.ledger.granted <= d.ledger.granted
      && d.ledger.earned == s.ledger.earned && d.ledger.clipped == s.ledger.clipped
      && d.ledger.seconds == s.ledger.seconds && d.ledger.overwritten == s.ledger.overwritten
  {
    AlwaysInv(cfg, acts);
    var s := Exec(cfg, acts);
    assert forall t :: 0 <= t < |s.pcs| && s.pcs[t].ConfigStore? ==> s.Holder() == s.pcs[t];
  }

  // ---- No decision on an overdue refill --------------------------------------------------

  /** Thread t starts no call. */
  ghost predicate NoNewCall(acts: seq<Action>, t: nat) {
    forall a :: a in acts ==> !(a.Call? && a.t == t) && !(a.Reconfigure? && a.t == t)
  }

  /** A call that began at clock value c: its reads are later, and behind its refill the refill time is recent. */
  ghost predicate Fresh(cfg: Config, s: State, pc: Pc, c: int) {
    && c <= s.clock
    && match pc
       case ReadClock(_) => true
       case Compare(_, now) => c <= now
       case WantLock(_) => true
       case ReadClockLocked(_) => true
       case CompareLocked(_, now2) => c <= now2
       case RefillLoad(_, now2, _) => c <= now2
       case RefillStore(_, now2, _, _) => c <= now2
       case WriteLast(_, now2) => c <= now2
       case RefillUnlock(_) => c < s.last + cfg.ticks
       case AcquireLoad(_) => c < s.last + cfg.ticks
       case Cas(_, _, _, _, _) => c < s.last + cfg.ticks
       case Idle => c < s.last + cfg.ticks
       case _ => false
  }

  lemma FreshStep(cfg: Config, s: State, t: nat, spurious: bool, c: int)
    requires Inv(cfg, s) && Timed(cfg, s) && t < |s.pcs| && Fresh(cfg, s, s.pcs[t], c)
    ensures var d := StepThread(cfg, s, t, spurious);
      t < |d.pcs| && Fresh(cfg, d, d.pcs[t], c)
  {
    match s.pcs[t]
    case Compare(_, now) => NotOver(cfg.ticks, s.last, now);
    case CompareLocked(_, now2) => NotOver(cfg.ticks, s.last, now2);
    case _ =>
  }

  lemma NotOver(ticks: pos, from: int, to: int)
    ensures ElapsedSeconds(ticks, from, to) <= 0 ==> to < from + ticks
  {
    if ticks <= to - from {
      FitsInto(1, to - from, ticks);
    }
  }

  /** The other threads only move the clock and the refill time on. */
  lemma FreshStays(cfg: Config, acts: seq<Action>, a: Action, t: nat, c: int)
    requires var s := Exec(cfg, acts);
      t < |s.pcs| && Fresh(cfg, s, s.pcs[t], c) && NoNewCall([a], t) && !(a.Step? && a.t == t)
    ensures var d := Apply(cfg, Exec(cfg, acts), a);
      t < |d.pcs| && Fresh(cfg, d, d.pcs[t], c)
  {
    LastMovesOn(cfg, acts, a);
    SamePc(cfg, Exec(cfg, acts), a, t);
  }

  lemma SamePc(cfg: Config, s: State, a: Action, t: nat)
    requires t < |s.pcs| && NoNewCall([a], t) && !(a.Step? && a.t == t)
    ensures var d := Apply(cfg, s, a);
      t < |d.pcs| && d.pcs[t] == s.pcs[t] && s.clock <= d.clock
  {
    assert a in [a];
  }

  lemma NoNewCallParts(suf: seq<Action>, t: nat)
    requires NoNewCall(suf, t) && suf != []
    ensures NoNewCall(Front(suf), t) && NoNewCall([Last(suf)], t)
  {
    assert Last(suf) in suf && forall a :: a in Front(suf) ==> a in suf;
  }

  lemma {:induction false} FreshRun(cfg: Config, pre: seq<Action>, suf: seq<Action>, t: nat)
    requires t < |Exec(cfg, pre).pcs| && Exec(cfg, pre).pcs[t].ReadClock? && NoNewCall(suf, t)
    ensures var d := Exec(cfg, pre + suf);
      t < |d.pcs| && Fresh(cfg, d, d.pcs[t], Exec(cfg, pre).clock)
    decreases |suf|
  {
    if suf == [] {
      Nil(pre);
    } else {
      var a, init, c := Last(suf), pre + Front(suf), Exec(cfg, pre).clock;
      NoNewCallParts(suf, t);
      FreshRun(cfg, pre, Front(suf), t);
      ExecSnoc(cfg, pre, suf);
      if a.Step? && a.t == t {
        AlwaysTimed(cfg, init);
        FreshStep(cfg, Exec(cfg, init), t, a.spurious, c);
      } else {
        FreshStays(cfg, init, a, t, c);
      }
    }
  }

  /**
   When a call gets to its tokens, whoever else is running, less than a second lies between the last
   refill and the moment the call began: no call is decided while an earlier refill is due.
   */
  lemma {:induction false} NoOverdueRefill(cfg: Config, pre: seq<Action>, suf: seq<Action>, t: nat)
    requires t < |Exec(cfg, pre).pcs| && Exec(cfg, pre).pcs[t].ReadClock? && NoNewCall(suf, t)
    ensures var s, d := Exec(cfg, pre), Exec(cfg, pre + suf);
      && t < |d.pcs|
      && (d.pcs[t].AcquireLoad? || d.pcs[t].Cas? || d.pcs[t].Idle? ==> s.clock < d.last + cfg.ticks)
  {
    FreshRun(cfg, pre, suf, t);
  }

  // ---- No reconfiguration is lost --------------------------------------------------------

  /** A call of update_config(c, r) by the thread at `pc`. */
  ghost predicate Applying(s: State, pc: Pc, c: nat, r: nat) {
    match pc
    case ConfigWantLock(x, y) => x == c && y == r
    case ConfigCapacity(x, y) => x == c && y == r
    case ConfigRate(y) => s.capacity == c && y == r
    case ConfigLoad => s.capacity == c && s.rate == r
    case ConfigStore(_) => s.capacity == c && s.rate == r
    case ConfigUnlock => s.capacity == c && s.rate == r
    case Idle => true
    case _ => false
  }

  lemma ApplyingStep(cfg: Config, s: State, a: Action, t: nat, c: nat, r: nat)
    requires Exclusion(s) && t < |s.pcs| && Applying(s, s.pcs[t], c, r) && NoNewCall([a], t)
    ensures var d := Apply(cfg, s, a);
      t < |d.pcs| && Applying(d, d.pcs[t], c, r)
  {
    if !(a.Step? && a.t == t) {
      SamePc(cfg, s, a, t);
      var d := Apply(cfg, s, a);
      assert s.pcs[t].Locked() ==> d.capacity == s.capacity && d.rate == s.rate;
    }
  }

  lemma {:induction false} ApplyingRun(cfg: Config, pre: seq<Action>, t: nat, c: nat, r: nat, suf: seq<Action>)
    requires t < |Exec(cfg, pre).pcs| && Exec(cfg, pre).pcs[t] == ConfigWantLock(c, r) && NoNewCall(suf, t)
    ensures var d := Exec(cfg, pre + suf);
      t < |d.pcs| && Applying(d, d.pcs[t], c, r)
    decreases |suf|
  {
    if suf == [] {
      Nil(pre);
    } else {
      NoNewCallParts(suf, t);
      ApplyingRun(cfg, pre, t, c, r, Front(suf));
      ExecSnoc(cfg, pre, suf);
      AlwaysInv(cfg, pre + Front(suf));
      ApplyingStep(cfg, Exec(cfg, pre + Front(suf)), Last(suf), t, c, r);
    }
  }

  /**
   At the end of every update_config, whoever else is running, its capacity and rate are in force and
   the tokens within them; and it gets there before it is over (`CallEndsOnlyWhenDecided`).
   */
  lemma {:induction false} ReconfigurationTakesEffect(cfg: Config, pre: seq<Action>, t: nat, c: nat, r: nat,
                                                      suf: seq<Action>)
    requires t < |Exec(cfg, pre).pcs| && Exec(cfg, pre).pcs[t] == ConfigWantLock(c, r) && NoNewCall(suf, t)
    ensures var d := Exec(cfg, pre + suf);
      && t < |d.pcs| && (d.pcs[t].Configuring() || d.pcs[t].Idle?)
      && (d.pcs[t].ConfigUnlock? ==> d.capacity == c && d.rate == r && d.tokens <= c)
  {
    ApplyingRun(cfg, pre, t, c, r, suf);
    AlwaysInv(cfg, pre + suf);
    var d := Exec(cfg, pre + suf);
    assert d.pcs[t].ConfigUnlock? ==> d.Holder() == d.pcs[t];
  }
}
