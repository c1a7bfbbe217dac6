/** src/middleware/rate_limiter: the token bucket used by one thread at a time. */
module TokenBucket {
  import opened Basics
  import opened Seqs
  import opened Arith

  /**
   The fields of `token_bucket`, and the resolution of its clock in ticks per second. Clock reads
   are parameters: `now` is the unlocked read in `refill`, `now2` the one under the lock.
   */
  datatype Bucket = Bucket(ticks: pos, capacity: int, rate: int, tokens: int, last: int)
  {
    ghost predicate Valid() {
      0 <= tokens <= capacity && 0 <= rate
    }

    /** The unlocked check of `refill` passes, so the clock is read again. */
    predicate ReadsTwice(now: int) {
      ElapsedSeconds(ticks, last, now) > 0
    }

    function LastRead(now: int, now2: int): int {
      if ReadsTwice(now) then now2 else now
    }

    /** Whole seconds credited by `refill`. */
    function Seconds(now: int, now2: int): nat {
      var elapsed := ElapsedSeconds(ticks, last, now2);
      if ReadsTwice(now) && elapsed > 0 then elapsed else 0
    }

    function Refill(now: int, now2: int): Bucket {
      var elapsed := Seconds(now, now2);
      if elapsed == 0 then this
      else this.(tokens := Min(capacity, tokens + elapsed * rate), last := now2)
    }

    /** Tokens the refill would have added but for the capacity. */
    function Clip(now: int, now2: int): int {
      tokens + Seconds(now, now2) * rate - Refill(now, now2).tokens
    }

    predicate Grants(n: int, now: int, now2: int) {
      Refill(now, now2).tokens >= n
    }

    function Acquire(n: int, now: int, now2: int): Bucket {
      var b := Refill(now, now2);
      if b.tokens >= n then b.(tokens := b.tokens - n) else b
    }

    function Reconfigure(newCapacity: int, newRate: int): Bucket {
      this.(capacity := newCapacity, rate := newRate, tokens := Min(tokens, newCapacity))
    }
  }

  function New(ticks: pos, capacity: int, rate: int, start: int): Bucket {
    Bucket(ticks, capacity, rate, capacity, start)
  }

  class TokenBucket {
    var tokens: int
    var capacity: int
    var refillRate: int
    var lastRefill: int
    const ticks: pos

    ghost function State(): Bucket
      reads this
    {
      Bucket(ticks, capacity, refillRate, tokens, lastRefill)
    }

    constructor (ticks: pos, capacity: int, refillPerSecond: int, now: int)
      ensures State() == New(ticks, capacity, refillPerSecond, now)
    {
      this.ticks := ticks;
      this.tokens := capacity;
      this.capacity := capacity;
      this.refillRate := refillPerSecond;
      this.lastRefill := now;
    }

    method Refill(now: int, now2: int)
      modifies this
      ensures State() == old(State()).Refill(now, now2)
      ensures if now - old(lastRefill) < ticks || now2 - old(lastRefill) < ticks then State() == old(State())
        else
          && lastRefill == now2 && capacity == old(capacity) && refillRate == old(refillRate)
          && tokens == Min(capacity, old(tokens) + refillRate * ((now2 - old(lastRefill)) / ticks))
    {
      RefillExact(State(), now, now2);
      var elapsed := ElapsedSeconds(ticks, lastRefill, now);
      if elapsed <= 0 {
        return;
      }
      elapsed := ElapsedSeconds(ticks, lastRefill, now2);
      if elapsed <= 0 {
        return;
      }
      var newTokens := tokens + elapsed * refillRate;
      if newTokens > capacity {
        newTokens := capacity;
      }
      tokens := newTokens;
      lastRefill := now2;
    }

    /** The weak CAS may fail `spurious` times before it succeeds; the outcome does not depend on it. */
    method TryAcquire(n: int, now: int, now2: int, spurious: nat) returns (granted: bool)
      modifies this
      ensures State() == old(State()).Acquire(n, now, now2)
      ensures granted == old(State()).Grants(n, now, now2)
      ensures var refilled := old(State()).Refill(now, now2);
        && (granted <==> n <= refilled.tokens)
        && tokens == refilled.tokens - (if granted then n else 0)
        && lastRefill == refilled.last && capacity == old(capacity) && refillRate == old(refillRate)
    {
      Refill(now, now2);
      var expected := tokens;
      var failures := 0;
      while expected >= n
        invariant failures <= spurious
        invariant expected == tokens
        invariant State() == old(State()).Refill(now, now2)
        decreases spurious - failures
      {
        if failures == spurious {
          tokens := expected - n;
          return true;
        }
        failures := failures + 1;
        expected := tokens;
      }
      return false;
    }

    method UpdateConfig(newCapacity: int, refillPerSecond: int)
      modifies this
      ensures State() == old(State()).Reconfigure(newCapacity, refillPerSecond)
      ensures capacity == newCapacity && refillRate == refillPerSecond && lastRefill == old(lastRefill)
      ensures old(tokens) <= newCapacity ==> tokens == old(tokens)
      ensures old(tokens) > newCapacity ==> tokens == newCapacity
    {
      capacity := newCapacity;
      refillRate := refillPerSecond;
      var current := tokens;
      if current > capacity {
        tokens := capacity;
      }
    }

    method CurrentTokens() returns (r: int)
      ensures r == State().tokens
    {
      r := tokens;
    }
  }

  /**
   What a refill does, whatever its two clock reads: nothing while less than a second has passed at
   either of them; otherwise it credits each whole second that has, and loses what exceeds the capacity.
   */
  lemma RefillExact(b: Bucket, now: int, now2: int)
    ensures var d := b.Refill(now, now2);
      if now - b.last < b.ticks || now2 - b.last < b.ticks then d == b
      else
        var full := b.tokens + b.rate * ((now2 - b.last) / b.ticks);
        && d.last == now2 && d.ticks == b.ticks && d.capacity == b.capacity && d.rate == b.rate
        && (full <= b.capacity ==> d.tokens == full)
        && (full > b.capacity ==> d.tokens == b.capacity)
  {
    SecondIsOver(b.ticks, b.last, now);
    SecondIsOver(b.ticks, b.last, now2);
  }

  /** A second counts once it is over. */
  lemma SecondIsOver(ticks: pos, from: int, to: int)
    ensures ElapsedSeconds(ticks, from, to) > 0 <==> ticks <= to - from
    ensures from <= to ==> ElapsedSeconds(ticks, from, to) == (to - from) / ticks
  {
    ElapsedBounds(ticks, from, to);
    if ticks <= to - from {
      FitsInto(1, to - from, ticks);
    } else if ElapsedSeconds(ticks, from, to) > 0 {
      MulMono(1, ElapsedSeconds(ticks, from, to), ticks);
    }
  }

  // ---- Runs ------------------------------------------------------------------------------

  /** One `try_acquire(n)` with the clock values its reads see. */
  datatype Call = Call(n: pos, now: int, now2: int)

  function After(b: Bucket, calls: seq<Call>): Bucket
    decreases |calls|
  {
    if calls == [] then b
    else After(b.Acquire(calls[0].n, calls[0].now, calls[0].now2), calls[1..])
  }

  /** Tokens granted over the run. */
  function Granted(b: Bucket, calls: seq<Call>): nat
    decreases |calls|
  {
    if calls == [] then 0
    else
      var c := calls[0];
      (if b.Grants(c.n, c.now, c.now2) then c.n else 0) + Granted(b.Acquire(c.n, c.now, c.now2), calls[1..])
  }

  /** Whole seconds credited over the run. */
  function Credited(b: Bucket, calls: seq<Call>): nat
    decreases |calls|
  {
    if calls == [] then 0
    else
      var c := calls[0];
      b.Seconds(c.now, c.now2) + Credited(b.Acquire(c.n, c.now, c.now2), calls[1..])
  }

  /** Tokens lost to the capacity over the run. */
  function Clipped(b: Bucket, calls: seq<Call>): int
    decreases |calls|
  {
    if calls == [] then 0
    else
      var c := calls[0];
      b.Clip(c.now, c.now2) + Clipped(b.Acquire(c.n, c.now, c.now2), calls[1..])
  }

  /** The clock reads made by the calls never go back, starting from `t`. */
  predicate Monotone(b: Bucket, t: int, calls: seq<Call>)
    decreases |calls|
  {
    calls == [] ||
    (var c := calls[0];
     && t <= c.now <= b.LastRead(c.now, c.now2)
     && Monotone(b.Acquire(c.n, c.now, c.now2), b.LastRead(c.now, c.now2), calls[1..]))
  }

  /** The last clock read of the run, `t` if there is none. */
  function LastReadOf(b: Bucket, t: int, calls: seq<Call>): int
    decreases |calls|
  {
    if calls == [] then t
    else
      var c := calls[0];
      LastReadOf(b.Acquire(c.n, c.now, c.now2), b.LastRead(c.now, c.now2), calls[1..])
  }

  lemma CallStep(b: Bucket, t: int, c: Call)
    requires b.Valid() && b.last <= t <= c.now <= b.LastRead(c.now, c.now2)
    ensures var d, e := b.Acquire(c.n, c.now, c.now2), b.Seconds(c.now, c.now2);
      && d.Valid() && d.ticks == b.ticks && d.capacity == b.capacity && d.rate == b.rate
      && d.last <= b.LastRead(c.now, c.now2)
      && d.tokens + (if b.Grants(c.n, c.now, c.now2) then c.n else 0) + b.Clip(c.now, c.now2) == b.tokens + e * b.rate
      && 0 <= b.Clip(c.now, c.now2)
      && (if e == 0 then d.last == b.last else e * b.ticks <= d.last - b.last < 2 * (e * b.ticks))
  {
    ElapsedBounds(b.ticks, b.last, c.now2);
    var e := b.Seconds(c.now, c.now2);
    MulMono(0, e, b.rate);
    if e > 0 {
      MulMono(1, e, b.ticks);
    }
  }

  /** The exact ledger of a run, and how the credited seconds compare with the time that passed. */
  lemma {:induction false} RunLedger(b: Bucket, t: int, calls: seq<Call>)
    requires b.Valid() && b.last <= t && Monotone(b, t, calls)
    ensures var d, k := After(b, calls), Credited(b, calls);
      && d.Valid() && d.ticks == b.ticks && d.capacity == b.capacity && d.rate == b.rate
      && d.last <= LastReadOf(b, t, calls) && t <= LastReadOf(b, t, calls)
      && d.tokens + Granted(b, calls) + Clipped(b, calls) == b.tokens + k * b.rate
      && 0 <= Clipped(b, calls)
      && (if k == 0 then d.last == b.last else k * b.ticks <= d.last - b.last < 2 * (k * b.ticks))
    decreases |calls|
  {
    if calls != [] {
      var c := calls[0];
      CallStep(b, t, c);
      var d := b.Acquire(c.n, c.now, c.now2);
      RunLedger(d, b.LastRead(c.now, c.now2), calls[1..]);
      Distribute(b.Seconds(c.now, c.now2), Credited(d, calls[1..]), b.rate);
      Distribute(b.Seconds(c.now, c.now2), Credited(d, calls[1..]), b.ticks);
    }
  }

  /** Nothing is lost to the capacity as long as it is not reached: every credited second counts in full. */
  lemma {:induction false} RunUnclipped(b: Bucket, t: int, calls: seq<Call>)
    requires b.Valid() && b.last <= t && Monotone(b, t, calls)
    requires b.tokens + b.rate * Credited(b, calls) <= b.capacity
    ensures After(b, calls).tokens + Granted(b, calls) == b.tokens + b.rate * Credited(b, calls)
    decreases |calls|
  {
    if calls != [] {
      var c := calls[0];
      var d, e := b.Acquire(c.n, c.now, c.now2), b.Seconds(c.now, c.now2);
      var k := Credited(d, calls[1..]);
      CallStep(b, t, c);
      Distribute(e, k, b.rate);
      MulMono(0, k, b.rate);
      assert b.Clip(c.now, c.now2) == 0;
      RunUnclipped(d, b.LastRead(c.now, c.now2), calls[1..]);
    }
  }

  lemma {:induction false} RunSplit(b: Bucket, t: int, calls: seq<Call>, i: nat)
    requires i <= |calls|
    ensures var d := After(b, calls[..i]);
      && After(b, calls) == After(d, calls[i..])
      && (Monotone(b, t, calls) ==> Monotone(b, t, calls[..i]) && Monotone(d, LastReadOf(b, t, calls[..i]), calls[i..]))
    decreases |calls|
  {
    if i > 0 {
      var c := calls[0];
      RunSplit(b.Acquire(c.n, c.now, c.now2), b.LastRead(c.now, c.now2), calls[1..], i - 1);
      assert calls[..i][1..] == calls[1..][..i - 1] && calls[1..][i - 1..] == calls[i..];
    } else {
      assert calls[0..] == calls;
    }
  }

  /** The refills of a run lose less than half of the time they cover. */
  lemma {:induction false} HalfTheTime(b: Bucket, calls: seq<Call>)
    requires b.Valid() && Monotone(b, b.last, calls) && Credited(b, calls) > 0
    ensures var covered := Credited(b, calls) * b.ticks;
      covered <= After(b, calls).last - b.last < 2 * covered
  {
    RunLedger(b, b.last, calls);
  }

  /** Every refill happens a whole number of seconds after the one before. */
  ghost predicate WholeRefills(b: Bucket, calls: seq<Call>)
    decreases |calls|
  {
    calls == [] ||
    (var c := calls[0];
     && (b.Seconds(c.now, c.now2) > 0 ==> (c.now2 - b.last) % b.ticks == 0)
     && WholeRefills(b.Acquire(c.n, c.now, c.now2), calls[1..]))
  }

  /** No time is lost if and only if no refill leaves a fraction of a second. */
  lemma {:induction false} NoLossExact(b: Bucket, t: int, calls: seq<Call>)
    requires b.Valid() && b.last <= t && Monotone(b, t, calls)
    ensures Credited(b, calls) * b.ticks == After(b, calls).last - b.last <==> WholeRefills(b, calls)
    decreases |calls|
  {
    if calls != [] {
      var c := calls[0];
      CallStep(b, t, c);
      var d, e := b.Acquire(c.n, c.now, c.now2), b.Seconds(c.now, c.now2);
      NoLossExact(d, b.LastRead(c.now, c.now2), calls[1..]);
      RunLedger(d, b.LastRead(c.now, c.now2), calls[1..]);
      Distribute(e, Credited(d, calls[1..]), b.ticks);
      if e > 0 {
        assert e == (c.now2 - b.last) / b.ticks;
        DivRemainder(c.now2 - b.last, b.ticks);
      }
    }
  }

  /** So what is not clipped comes at half the rate at least. */
  lemma {:induction false} ThroughputFloor(b: Bucket, calls: seq<Call>)
    requires b.Valid() && Monotone(b, b.last, calls) && Credited(b, calls) > 0 && Clipped(b, calls) == 0
    ensures var d := After(b, calls);
      var gained := d.tokens + Granted(b, calls) - b.tokens;
      gained == Credited(b, calls) * b.rate && b.rate * (d.last - b.last) <= 2 * (b.ticks * gained)
  {
    RunLedger(b, b.last, calls);
    HalfRate(Credited(b, calls), b.ticks, b.rate, After(b, calls).last - b.last);
  }

  /** k calls, each just before a second full second has passed since the last refill. */
  function SlowCalls(ticks: pos, last: int, k: nat): (calls: seq<Call>)
    ensures |calls| == k
    decreases k
  {
    if k == 0 then []
    else
      var now := last + 2 * ticks - 1;
      [Call(1, now, now)] + SlowCalls(ticks, now, k - 1)
  }

  lemma OneSecondOf(ticks: pos, last: int)
    ensures ElapsedSeconds(ticks, last, last + 2 * ticks - 1) == 1
  {
    DivMono(ticks, 2 * ticks - 1, ticks);
    DivExact(1, ticks);
    DivBounds(2 * ticks - 1, ticks);
    if (2 * ticks - 1) / ticks >= 2 {
      MulMono(2, (2 * ticks - 1) / ticks, ticks);
    }
  }

  lemma SlowCall(b: Bucket, now: int)
    requires b.Valid() && now == b.last + 2 * b.ticks - 1
    ensures b.LastRead(now, now) == now && b.Seconds(now, now) == 1
    ensures var d := b.Acquire(1, now, now);
      d.Valid() && d.ticks == b.ticks && d.last == now
  {
    OneSecondOf(b.ticks, b.last);
    CallStep(b, b.last, Call(1, now, now));
  }

  /** The bound on the loss is reached: k credited seconds can take k * (2 * ticks - 1) ticks. */
  lemma {:induction false} HalfIsTight(b: Bucket, k: nat)
    requires b.Valid()
    ensures var calls := SlowCalls(b.ticks, b.last, k);
      Monotone(b, b.last, calls) && Credited(b, calls) == k
      && After(b, calls).last == b.last + k * (2 * b.ticks - 1)
    decreases k
  {
    if k > 0 {
      var now := b.last + 2 * b.ticks - 1;
      SlowCall(b, now);
      var d, rest := b.Acquire(1, now, now), SlowCalls(b.ticks, now, k - 1);
      HalfIsTight(d, k - 1);
      HeadTail([Call(1, now, now)], rest);
      assert SlowCalls(b.ticks, b.last, k) == [Call(1, now, now)] + rest;
      Nil(rest);
      Distribute(1, k - 1, 2 * b.ticks - 1);
    }
  }

  // ---- The burst envelope ----------------------------------------------------------------

  /**
   Without a refill at the window's first read, less than a second had passed before it; with one, all
   later refills count from a time inside the window.
   */
  lemma WindowStart(b: Bucket, t: int, c: Call)
    requires b.Valid() && b.last <= t <= c.now <= b.LastRead(c.now, c.now2)
    ensures c.now < b.Acquire(c.n, c.now, c.now2).last + b.ticks
  {
    ElapsedBounds(b.ticks, b.last, c.now);
    if b.ReadsTwice(c.now) {
      DivMono(c.now - b.last, c.now2 - b.last, b.ticks);
    }
  }

  /** Whatever state the window starts in. */
  lemma {:induction false} WindowEnvelope(b: Bucket, t: int, win: seq<Call>)
    requires b.Valid() && b.last <= t && win != [] && Monotone(b, t, win)
    ensures win[0].now <= LastReadOf(b, t, win)
    ensures Granted(b, win) <= b.capacity + b.rate * CeilDiv(LastReadOf(b, t, win) - win[0].now, b.ticks)
  {
    var c := win[0];
    var read := b.LastRead(c.now, c.now2);
    var d := b.Acquire(c.n, c.now, c.now2);
    var z := LastReadOf(b, t, win);
    CallStep(b, t, c);
    RunLedger(d, read, win[1..]);
    var k := Credited(d, win[1..]);
    WindowStart(b, t, c);
    assert k * b.ticks <= After(d, win[1..]).last - d.last <= z - d.last;
    CreditInWindow(k, z - c.now, b.ticks, b.rate);
  }

  lemma CreditInWindow(k: nat, length: int, ticks: pos, rate: nat)
    requires k * ticks < length + ticks
    ensures k * rate <= rate * CeilDiv(length, ticks)
  {
    FitsInto(k, length + ticks - 1, ticks);
    MulMono(k, CeilDiv(length, ticks), rate);
  }

  /**
   For every contiguous window of calls in every run, of a new bucket or any other: what it grants,
   against the time from its first clock read to its last.
   */
  lemma {:induction false} BurstEnvelope(b: Bucket, t: int, calls: seq<Call>, i: nat, j: nat)
    requires b.Valid() && b.last <= t && i < j <= |calls| && Monotone(b, t, calls)
    ensures Granted(After(b, calls[..i]), calls[i..j])
         <= b.capacity + b.rate * CeilDiv(LastReadOf(b, t, calls[..j]) - calls[i].now, b.ticks)
  {
    RunSplit(b, t, calls, j);
    RunSplit(b, t, calls[..j], i);
    assert calls[..j][..i] == calls[..i] && calls[..j][i..] == calls[i..j];
    RunLedger(b, t, calls[..i]);
    LastReadSplit(b, t, calls[..j], i);
    WindowEnvelope(After(b, calls[..i]), LastReadOf(b, t, calls[..i]), calls[i..j]);
  }

  lemma {:induction false} LastReadSplit(b: Bucket, t: int, calls: seq<Call>, i: nat)
    requires i <= |calls|
    ensures LastReadOf(b, t, calls) == LastReadOf(After(b, calls[..i]), LastReadOf(b, t, calls[..i]), calls[i..])
    decreases |calls|
  {
    if i > 0 {
      var c := calls[0];
      LastReadSplit(b.Acquire(c.n, c.now, c.now2), b.LastRead(c.now, c.now2), calls[1..], i - 1);
      assert calls[..i][1..] == calls[1..][..i - 1] && calls[1..][i - 1..] == calls[i..];
    } else {
      assert calls[0..] == calls;
    }
  }

  // ---- The timer-driven bucket -----------------------------------------------------------

  /** The textbook bucket the lazy one stands for: a timer adds `rate` at every full second. */
  datatype Eager = Eager(capacity: int, rate: int, tokens: int, second: int)
  {
    function Tick(): Eager {
      this.(tokens := Min(capacity, tokens + rate), second := second + 1)
    }

    function AdvanceTo(s: int): Eager
      decreases s - second
    {
      if s <= second then this else Tick().AdvanceTo(s)
    }

    function Take(n: int): Eager {
      if tokens >= n then this.(tokens := tokens - n) else this
    }
  }

  /** The decision of a call and the tokens left behind. */
  datatype Result = Result(granted: bool, tokens: int)

  function LazyResults(b: Bucket, calls: seq<Call>): seq<Result>
    decreases |calls|
  {
    if calls == [] then []
    else
      var c := calls[0];
      var d := b.Acquire(c.n, c.now, c.now2);
      [Result(b.Grants(c.n, c.now, c.now2), d.tokens)] + LazyResults(d, calls[1..])
  }

  /** A request made `second` seconds after the start. */
  datatype Request = Request(n: pos, second: int)

  function EagerResults(e: Eager, requests: seq<Request>): seq<Result>
    decreases |requests|
  {
    if requests == [] then []
    else
      var r := requests[0];
      var at := e.AdvanceTo(r.second);
      [Result(at.tokens >= r.n, at.Take(r.n).tokens)] + EagerResults(at.Take(r.n), requests[1..])
  }

  /** The requests of a run, each at the last clock read of its call. */
  function Requests(b: Bucket, start: int, calls: seq<Call>): seq<Request>
    decreases |calls|
  {
    if calls == [] then []
    else
      var c := calls[0];
      [Request(c.n, (b.LastRead(c.now, c.now2) - start) / b.ticks)]
      + Requests(b.Acquire(c.n, c.now, c.now2), start, calls[1..])
  }

  /** Every clock read falls on a whole second after the start. */
  ghost predicate OnSeconds(ticks: pos, start: int, calls: seq<Call>) {
    forall c :: c in calls ==> (c.now - start) % ticks == 0 && (c.now2 - start) % ticks == 0
  }

  lemma {:induction false} AdvanceIsClamp(e: Eager, s: int)
    requires e.second <= s && e.tokens <= e.capacity && 0 <= e.rate
    ensures e.AdvanceTo(s) == e.(tokens := Min(e.capacity, e.tokens + (s - e.second) * e.rate), second := s)
    decreases s - e.second
  {
    if e.second < s {
      AdvanceIsClamp(e.Tick(), s);
      Distribute(s - e.second - 1, 1, e.rate);
      MulMono(0, s - e.second - 1, e.rate);
    }
  }

  lemma WholeSeconds(ticks: pos, start: int, t: int)
    requires (t - start) % ticks == 0
    ensures t == start + (t - start) / ticks * ticks
  {}

  /** Reads on whole seconds: a call brings both buckets to the same second and the same count. */
  lemma SameStep(b: Bucket, e: Eager, start: int, c: Call)
    requires b.Valid() && b.capacity == e.capacity && b.rate == e.rate && b.tokens == e.tokens
    requires b.last == start + e.second * b.ticks
    requires b.last <= c.now <= b.LastRead(c.now, c.now2)
    requires (c.now - start) % b.ticks == 0 && (c.now2 - start) % b.ticks == 0
    ensures var s := (b.LastRead(c.now, c.now2) - start) / b.ticks;
      && e.second <= s
      && b.Refill(c.now, c.now2).tokens == e.AdvanceTo(s).tokens
      && b.Refill(c.now, c.now2).last == start + s * b.ticks == b.LastRead(c.now, c.now2)
  {
    WholeSeconds(b.ticks, start, c.now);
    WholeSeconds(b.ticks, start, c.now2);
    var k, k2 := (c.now - start) / b.ticks, (c.now2 - start) / b.ticks;
    DivExact(e.second, b.ticks);
    DivMono(b.last - start, c.now - start, b.ticks);
    Distribute(k, -e.second, b.ticks);
    Distribute(k2, -e.second, b.ticks);
    assert c.now - b.last == (k - e.second) * b.ticks;
    assert c.now2 - b.last == (k2 - e.second) * b.ticks;
    DivExact(k - e.second, b.ticks);
    if k == e.second {
      AdvanceIsClamp(e, k);
    } else {
      DivMono(c.now - start, c.now2 - start, b.ticks);
      DivExact(k2 - e.second, b.ticks);
      AdvanceIsClamp(e, k2);
    }
  }

  lemma SameCall(b: Bucket, e: Eager, start: int, c: Call)
    requires b.Valid() && b.capacity == e.capacity && b.rate == e.rate && b.tokens == e.tokens
    requires b.last == start + e.second * b.ticks
    requires b.last <= c.now <= b.LastRead(c.now, c.now2)
    requires (c.now - start) % b.ticks == 0 && (c.now2 - start) % b.ticks == 0
    ensures var s := (b.LastRead(c.now, c.now2) - start) / b.ticks;
      var at, d := e.AdvanceTo(s), b.Acquire(c.n, c.now, c.now2);
      && b.Grants(c.n, c.now, c.now2) == (at.tokens >= c.n) && d.tokens == at.Take(c.n).tokens
      && d.Valid() && d.ticks == b.ticks && d.capacity == at.capacity && d.rate == at.rate
      && d.last == start + at.second * b.ticks == b.LastRead(c.now, c.now2)
  {
    CallStep(b, b.last, c);
    SameStep(b, e, start, c);
    AdvanceIsClamp(e, (b.LastRead(c.now, c.now2) - start) / b.ticks);
  }

  lemma {:induction false} SameResults(b: Bucket, e: Eager, start: int, calls: seq<Call>)
    requires b.Valid() && b.capacity == e.capacity && b.rate == e.rate && b.tokens == e.tokens
    requires b.last == start + e.second * b.ticks
    requires Monotone(b, b.last, calls) && OnSeconds(b.ticks, start, calls)
    ensures LazyResults(b, calls) == EagerResults(e, Requests(b, start, calls))
    decreases |calls|
  {
    if calls != [] {
      var c := calls[0];
      assert c in calls && forall x :: x in calls[1..] ==> x in calls;
      SameCall(b, e, start, c);
      var s := (b.LastRead(c.now, c.now2) - start) / b.ticks;
      var d := b.Acquire(c.n, c.now, c.now2);
      SameResults(d, e.AdvanceTo(s).Take(c.n), start, calls[1..]);
      HeadTail([Request(c.n, s)], Requests(d, start, calls[1..]));
    }
  }

  /** Lazy refines timer-driven: same decisions and same counts, over any gaps and request sizes. */
  lemma {:induction false} LazyRefinesEager(ticks: pos, capacity: nat, rate: nat, start: int, calls: seq<Call>)
    requires Monotone(New(ticks, capacity, rate, start), start, calls) && OnSeconds(ticks, start, calls)
    ensures var b := New(ticks, capacity, rate, start);
      LazyResults(b, calls) == EagerResults(Eager(capacity, rate, capacity, 0), Requests(b, start, calls))
  {
    SameResults(New(ticks, capacity, rate, start), Eager(capacity, rate, capacity, 0), start, calls);
  }
}
