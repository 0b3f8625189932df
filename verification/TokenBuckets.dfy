/** The token bucket of `token_bucket.rs`: saturating 64- and 128-bit arithmetic against the exact bucket. */
module TokenBuckets {
  import opened Types

  const U128_MAX: nat := 0xFFFF_FFFF_FFFF_FFFF_FFFF_FFFF_FFFF_FFFF

  /** A count that a machine word can hold and that is not zero. */
  predicate Word(n: nat) {
    0 < n <= U64_MAX
  }

  datatype Bucket = Bucket(tokens: nat, remainder: nat, updatedAt: nat)

  /** The states a bucket of this size can be in: a full one holds no fraction. */
  predicate Sound(b: Bucket, burst: nat) {
    && Word(burst)
    && b.tokens <= burst
    && b.remainder < NANOS
    && (b.tokens == burst ==> b.remainder == 0)
  }

  // ----- the exact bucket, on unbounded numbers -----

  /** All credit in units of a billionth of a token, before the cap. */
  function Credit(b: Bucket, rate: nat, now: nat): nat {
    b.tokens * NANOS + b.remainder + rate * (if now > b.updatedAt then now - b.updatedAt else 0)
  }

  /** The exact bucket: credit accrues continuously and is cut off at the burst. */
  function Refilled(b: Bucket, rate: nat, burst: nat, now: nat): Bucket {
    var credit := Min(Credit(b, rate, now), burst * NANOS);
    Bucket(credit / NANOS, credit % NANOS, Max(b.updatedAt, now))
  }

  // ----- the code -----

  function Saturating(value: nat, limit: nat): nat {
    if value <= limit then value else limit
  }

  class TokenBucket {
    var tokens: nat
    var remainder: nat
    var updatedAt: nat

    ghost function View(): Bucket
      reads this
    {
      Bucket(tokens, remainder, updatedAt)
    }

    constructor (burst: nat, now: nat)
      requires Word(burst)
      ensures View() == Bucket(burst, 0, now) && Sound(View(), burst)
    {
      tokens, remainder, updatedAt := burst, 0, now;
    }

    /** The saturating code computes exactly the unbounded bucket, also when the rate or the burst has changed. */
    method Replenish(rate: nat, burst: nat, now: nat)
      requires Word(rate) && Word(burst)
      modifies this
      ensures View() == Refilled(old(View()), rate, burst, now)
      ensures Sound(View(), burst)
    {
      var elapsed := if now > updatedAt then now - updatedAt else 0;
      var product := elapsed * rate;
      RefillMatches(View(), rate, burst, now, product);
      var credit := Saturating(Saturating(product, U128_MAX) + remainder, U128_MAX);
      var replenished := Min(credit / NANOS, burst);
      tokens := Min(Saturating(tokens + replenished, U64_MAX), burst);
      remainder := if tokens == burst then 0 else credit % NANOS;
      updatedAt := Max(updatedAt, now);
    }

    method Consume(amount: nat)
      requires amount <= tokens
      modifies this
      ensures View() == old(View()).(tokens := old(tokens) - amount)
    {
      tokens := tokens - amount;
    }

    method RefillDelay(rate: nat) returns (nanos: nat)
      requires Word(rate) && remainder < NANOS
      ensures nanos == LeastWait(View(), rate) && 0 < nanos <= NANOS
    {
      var remaining := NANOS - remainder;
      nanos := Max((remaining + rate - 1) / rate, 1);
      WaitBounds(View(), rate);
    }
  }

  function LeastWait(b: Bucket, rate: nat): nat
    requires 0 < rate && b.remainder < NANOS
  {
    Max((NANOS - b.remainder + rate - 1) / rate, 1)
  }

  lemma RefillMatches(b: Bucket, rate: nat, burst: nat, now: nat, product: nat)
    requires Word(rate) && Word(burst)
    requires product == rate * (if now > b.updatedAt then now - b.updatedAt else 0)
    ensures var credit := Saturating(Saturating(product, U128_MAX) + b.remainder, U128_MAX);
      var tokens := Min(Saturating(b.tokens + Min(credit / NANOS, burst), U64_MAX), burst);
      Refilled(b, rate, burst, now) == Bucket(tokens, if tokens == burst then 0 else credit % NANOS,
                                              Max(b.updatedAt, now))
    ensures Sound(Refilled(b, rate, burst, now), burst)
  {
    var exact := product + b.remainder;
    assert Credit(b, rate, now) == b.tokens * NANOS + exact;
    Split(b.tokens, exact);
    Split(burst, 0);
  }

  lemma Split(whole: nat, rest: nat)
    ensures (whole * NANOS + rest) / NANOS == whole + rest / NANOS
    ensures (whole * NANOS + rest) % NANOS == rest % NANOS
  {}

  // ----- properties -----

  /** Time that goes backwards changes nothing. */
  lemma BackwardTime(b: Bucket, rate: nat, burst: nat, now: nat)
    requires Sound(b, burst) && now <= b.updatedAt
    ensures Refilled(b, rate, burst, now) == b
  {
    Split(b.tokens, b.remainder);
    assert Credit(b, rate, now) == b.tokens * NANOS + b.remainder;
  }

  /** Refilling at any moment in between changes nothing at the end. */
  lemma SplitInterval(b: Bucket, rate: nat, burst: nat, middle: nat, end: nat)
    requires Sound(b, burst) && middle <= end
    ensures Refilled(Refilled(b, rate, burst, middle), rate, burst, end) == Refilled(b, rate, burst, end)
  {
    if middle <= b.updatedAt {
      BackwardTime(b, rate, burst, middle);
    } else {
      var m := Refilled(b, rate, burst, middle);
      var capped := Min(Credit(b, rate, middle), burst * NANOS);
      assert m.tokens * NANOS + m.remainder == capped;
      Distribute(rate, middle - b.updatedAt, end - middle);
    }
  }

  lemma Distribute(rate: nat, a: nat, b: nat)
    ensures rate * (a + b) == rate * a + rate * b
  {}

  lemma WaitBounds(b: Bucket, rate: nat)
    requires Word(rate) && b.remainder < NANOS
    ensures 0 < LeastWait(b, rate) <= NANOS
    ensures forall wait: nat :: rate * wait + b.remainder >= NANOS <==> wait >= LeastWait(b, rate)
  {
    var remaining := NANOS - b.remainder;
    var least := (remaining + rate - 1) / rate;
    assert least * rate <= remaining + rate - 1 < (least + 1) * rate;
    Ceiling(remaining, rate, least);
    forall wait: nat
      ensures rate * wait >= remaining <==> wait >= least
    {
      CeilingLeast(remaining, rate, least, wait);
    }
  }

  lemma Ceiling(remaining: nat, rate: nat, least: nat)
    requires 0 < remaining <= NANOS && 0 < rate && least * rate <= remaining + rate - 1 < (least + 1) * rate
    ensures 1 <= least <= NANOS
  {
    assert least > NANOS ==> least * rate >= NANOS * rate + rate;
    assert NANOS * rate >= NANOS;
  }

  lemma CeilingLeast(remaining: nat, rate: nat, least: nat, wait: nat)
    requires 0 < rate && least * rate <= remaining + rate - 1 < (least + 1) * rate
    ensures rate * wait >= remaining <==> wait >= least
  {
    if wait >= least {
      assert wait * rate >= least * rate;
    } else {
      assert (wait + 1) * rate <= least * rate;
    }
  }

  /** Below the burst, a wait yields a new token exactly when it is at least the refill delay. */
  lemma RefillDelayIsLeast(b: Bucket, rate: nat, burst: nat, wait: nat)
    requires Word(rate) && Sound(b, burst) && b.tokens < burst
    ensures Refilled(b, rate, burst, b.updatedAt + wait).tokens > b.tokens <==> wait >= LeastWait(b, rate)
  {
    WaitBounds(b, rate);
    var product := rate * wait;
    assert Credit(b, rate, b.updatedAt + wait) == b.tokens * NANOS + (b.remainder + product);
    Split(b.tokens, b.remainder + product);
    Split(burst, 0);
  }

  datatype Op = Replenish(now: nat) | Consume(amount: nat)

  /** The bucket and the total consumed after each operation, at a fixed rate and burst. */
  ghost predicate Run(ops: seq<Op>, states: seq<(Bucket, nat)>, rate: nat, burst: nat, start: nat) {
    && Word(rate) && Word(burst)
    && |states| == |ops| + 1
    && states[0] == (Bucket(burst, 0, start), 0)
    && forall i {:trigger ops[i]} :: 0 <= i < |ops| ==>
         match ops[i]
         case Replenish(now) => states[i + 1] == (Refilled(states[i].0, rate, burst, now), states[i].1)
         case Consume(amount) =>
           && amount <= states[i].0.tokens
           && states[i + 1] == (states[i].0.(tokens := states[i].0.tokens - amount), states[i].1 + amount)
  }

  /** Consumption and what is left never exceed the first burst and the credit accrued since the start. */
  lemma {:induction false} CreditIsConserved(ops: seq<Op>, states: seq<(Bucket, nat)>, rate: nat, burst: nat,
                                             start: nat, n: nat)
    requires Run(ops, states, rate, burst, start) && n <= |ops|
    ensures var (b, used) := states[n];
      && Sound(b, burst) && b.updatedAt >= start
      && used * NANOS + b.tokens * NANOS + b.remainder <= burst * NANOS + rate * (b.updatedAt - start)
  {
    if n > 0 {
      CreditIsConserved(ops, states, rate, burst, start, n - 1);
      var (b, used) := states[n - 1];
      match ops[n - 1] {
        case Consume(amount) =>
        case Replenish(now) =>
          var elapsed := if now > b.updatedAt then now - b.updatedAt else 0;
          RefillMatches(b, rate, burst, now, rate * elapsed);
          var after := Refilled(b, rate, burst, now);
          assert after.tokens * NANOS + after.remainder <= Credit(b, rate, now);
          Distribute(rate, b.updatedAt - start, elapsed);
      }
    }
  }

  /** By any moment the total consumption is at most the burst plus the whole tokens accrued by then. */
  lemma ConsumptionBound(ops: seq<Op>, states: seq<(Bucket, nat)>, rate: nat, burst: nat, start: nat, n: nat, now: nat)
    requires Run(ops, states, rate, burst, start) && n <= |ops|
    requires states[n].0.updatedAt <= now
    ensures now >= start && states[n].1 <= burst + rate * (now - start) / NANOS
  {
    CreditIsConserved(ops, states, rate, burst, start, n);
    var (b, used) := states[n];
    Distribute(rate, b.updatedAt - start, now - b.updatedAt);
    WholeTokens(used, burst, rate * (now - start));
  }

  lemma WholeTokens(used: nat, burst: nat, credit: nat)
    requires used * NANOS <= burst * NANOS + credit
    ensures used <= burst + credit / NANOS
  {}
}
