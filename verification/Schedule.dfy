/** Renewal and retry timing (`schedule/mod.rs`): 64-bit seconds with explicit range checks.
    Random draws are parameters, so every statement holds for every draw. */
module Schedule {
  import opened Types

  const WORDS: nat := 0x1_0000_0000_0000_0000

  function Timestamp(value: nat): Result<nat> {
    if value > I64_MAX then Err(InvalidData) else Ok(value)
  }

  function Add(now: nat, delay: nat): (r: Result<nat>)
    ensures r.Ok? <==> now + delay <= I64_MAX
    ensures r.Ok? ==> r.value - delay == now
  {
    if now + delay > U64_MAX then Err(InvalidData) else Timestamp(now + delay)
  }

  // ----- uniform: rejection sampling -----

  /** `range.wrapping_neg() % range` on 64-bit words. */
  function Threshold(range: nat): nat
    requires 0 < range < WORDS
  {
    (WORDS - range) % range
  }

  predicate Accepted(maximum: nat, draw: nat)
    requires maximum < U64_MAX
  {
    draw >= Threshold(maximum + 1)
  }

  /** The accepted 64-bit draws that yield `result`. */
  ghost function Preimage(maximum: nat, result: nat): set<nat>
    requires maximum < U64_MAX
  {
    set v: nat | v < WORDS && Accepted(maximum, v) && v % (maximum + 1) == result
  }

  datatype Sample = Drawn(value: nat, used: nat) | Failed(used: nat) | Starved | OutOfRange

  /** Loops on the draws in order; `None` is a failure of the random source. */
  method Uniform(maximum: nat, draws: seq<Option<nat>>) returns (sample: Sample)
    requires maximum <= U64_MAX
    requires forall d :: d in draws && d.Some? ==> d.value < WORDS
    ensures sample.OutOfRange? <==> maximum == U64_MAX
    ensures sample.Drawn? ==>
      && sample.used < |draws|
      && sample.value <= maximum
      && draws[sample.used].Some? && draws[sample.used].value in Preimage(maximum, sample.value)
    ensures sample.Failed? ==> sample.used < |draws| && draws[sample.used].None?
    ensures (sample.Drawn? || sample.Failed?) ==>
      forall i :: 0 <= i < sample.used ==> draws[i].Some? && !Accepted(maximum, draws[i].value)
    ensures sample.Starved? ==> forall d :: d in draws ==> d.Some? && !Accepted(maximum, d.value)
  {
    if maximum == U64_MAX {
      return OutOfRange;
    }
    var range := maximum + 1;
    var threshold := Threshold(range);
    var i := 0;
    while i < |draws|
      invariant 0 <= i <= |draws|
      invariant forall k :: 0 <= k < i ==> draws[k].Some? && !Accepted(maximum, draws[k].value)
    {
      if draws[i].None? {
        return Failed(i);
      }
      var value := draws[i].value;
      if value >= threshold {
        return Drawn(value % range, i);
      }
      i := i + 1;
    }
    return Starved;
  }

  lemma DivModUnique(range: nat, k: nat, r: nat)
    requires r < range
    ensures (k * range + r) / range == k && (k * range + r) % range == r
  {
    var v := k * range + r;
    var q := v / range;
    assert q * range + v % range == v;
    assert q < k ==> (q + 1) * range <= k * range;
    assert q > k ==> (k + 1) * range <= q * range;
  }

  lemma ThresholdIsRemainder(range: nat)
    requires 0 < range < WORDS
    ensures Threshold(range) == WORDS % range
  {
    var q := WORDS / range;
    assert WORDS == q * range + WORDS % range;
    assert q >= 1;
    DivModUnique(range, q - 1, WORDS % range);
    assert (q - 1) * range + WORDS % range == WORDS - range;
  }

  /** `count` consecutive multiples of `range`, shifted by `r`. */
  ghost function Progression(range: nat, r: nat, lo: nat, count: nat): set<nat> {
    if count == 0 then {} else Progression(range, r, lo, count - 1) + {(lo + count - 1) * range + r}
  }

  lemma {:induction false} ProgressionSize(range: nat, r: nat, lo: nat, count: nat)
    requires 0 < range
    ensures |Progression(range, r, lo, count)| == count
    ensures forall v :: v in Progression(range, r, lo, count) ==> v < (lo + count) * range + r
  {
    if count > 0 {
      ProgressionSize(range, r, lo, count - 1);
      assert (lo + count - 1) * range + r < (lo + count) * range + r;
    }
  }

  lemma {:induction false} ProgressionMembers(range: nat, r: nat, lo: nat, count: nat, v: nat)
    requires r < range
    ensures v in Progression(range, r, lo, count) <==> v % range == r && lo <= v / range < lo + count
  {
    if count > 0 {
      ProgressionMembers(range, r, lo, count - 1, v);
      DivModUnique(range, lo + count - 1, r);
      if v % range == r && v / range == lo + count - 1 {
        assert v == (v / range) * range + v % range;
      }
    }
  }

  /** Every result comes from the same number of accepted draws, so sampling has no bias. */
  lemma Unbiased(maximum: nat, result: nat)
    requires maximum < U64_MAX && result <= maximum
    ensures |Preimage(maximum, result)| == WORDS / (maximum + 1)
  {
    var range := maximum + 1;
    var q := WORDS / range;
    var lo := if result >= WORDS % range then 0 else 1;
    forall v: nat
      ensures v in Preimage(maximum, result) <==> v in Progression(range, result, lo, q)
    {
      InPreimage(maximum, result, v);
      ProgressionMembers(range, result, lo, q, v);
    }
    assert Preimage(maximum, result) == Progression(range, result, lo, q);
    ProgressionSize(range, result, lo, q);
  }

  lemma InPreimage(maximum: nat, result: nat, v: nat)
    requires maximum < U64_MAX && result <= maximum
    ensures var range := maximum + 1; var lo := if result >= WORDS % range then 0 else 1;
            v in Preimage(maximum, result) <==> v % range == result && lo <= v / range < lo + WORDS / range
  {
    ThresholdIsRemainder(maximum + 1);
    AcceptedQuotients(WORDS, maximum + 1, v);
  }

  lemma AcceptedQuotients(words: nat, range: nat, v: nat)
    requires 0 < range
    ensures var t := words % range; var lo := if v % range >= t then 0 else 1;
            (t <= v < words) <==> lo <= v / range < lo + words / range
  {
    var k, r, kr := Divided(v, range);
    var q, t, qr := Divided(words, range);
    Ordered(k, q, range);
    Ordered(q, k, range);
    Ordered(0, k, range);
    QuotientBounds(words, range, v, k, q, r, t, kr, qr);
  }

  lemma Divided(v: nat, range: nat) returns (k: nat, r: nat, kr: nat)
    requires 0 < range
    ensures k == v / range && r == v % range < range && kr == k * range && v == kr + r
  {
    k, r, kr := v / range, v % range, v / range * range;
  }

  lemma MulMonotone(a: nat, b: nat, c: nat)
    requires a <= b
    ensures a * c <= b * c
  {}

  lemma Ordered(a: nat, b: nat, c: nat)
    ensures a < b ==> a * c + c <= b * c
  {
    if a < b {
      MulMonotone(a + 1, b, c);
      assert (a + 1) * c == a * c + c;
    }
  }

  lemma QuotientBounds(words: nat, range: nat, v: nat, k: nat, q: nat, r: nat, t: nat, kr: nat, qr: nat)
    requires r < range && t < range && v == kr + r && words == qr + t
    requires k < q ==> kr + range <= qr
    requires k > q ==> qr + range <= kr
    requires k == q ==> kr == qr
    requires if k >= 1 then range <= kr else kr == 0
    ensures var lo := if r >= t then 0 else 1;
            (t <= v < words) <==> lo <= k < lo + q
  {}

  // ----- fallback renewal time -----

  function SplitTwoThirds(lifetime: nat): nat {
    lifetime / 3 * 2 + lifetime % 3 * 2 / 3
  }

  function Offset(lifetime: nat): nat {
    if lifetime >= 864_000 then SplitTwoThirds(lifetime) else lifetime / 2
  }

  function Fallback(validity: CertificateValidity, draw: Result<nat>): Result<nat> {
    var notBefore :- Timestamp(validity.notBefore);
    var notAfter :- Timestamp(validity.notAfter);
    if notAfter <= notBefore then Err(InvalidData) else
    var lifetime := notAfter - notBefore;
    var jitter :- draw;
    if jitter > lifetime / 20 then Err(InvalidData) else
    var late :- Add(notBefore, Offset(lifetime));
    if late < jitter then Err(InvalidData) else Timestamp(late - jitter)
  }

  lemma SplitIsTwoThirds(lifetime: nat)
    ensures SplitTwoThirds(lifetime) == 2 * lifetime / 3
  {
    var q, r := lifetime / 3, lifetime % 3;
    assert lifetime == 3 * q + r;
    assert 2 * lifetime == 3 * (2 * q) + 2 * r;
  }

  /** The fallback succeeds exactly on a valid period with a legal draw, and then stays inside the period. */
  lemma FallbackInsidePeriod(validity: CertificateValidity, draw: Result<nat>)
    ensures var r := Fallback(validity, draw);
      && (r.Ok? <==>
            && validity.notBefore < validity.notAfter <= I64_MAX
            && draw.Ok? && draw.value <= (validity.notAfter - validity.notBefore) / 20)
      && (r.Ok? ==>
            && validity.notBefore <= r.value < validity.notAfter
            && r.value == validity.notBefore - draw.value +
                 (var lifetime := validity.notAfter - validity.notBefore;
                  if lifetime >= 864_000 then 2 * lifetime / 3 else lifetime / 2))
  {
    if validity.notBefore < validity.notAfter {
      SplitIsTwoThirds(validity.notAfter - validity.notBefore);
    }
  }

  // ----- retry delays -----

  function RetryBase(failures: nat, lifetime: Option<nat>): nat {
    match failures
    case 1 => 60
    case 2 => 600
    case 3 => 6_000
    case _ =>
      match lifetime
      case None => 86_400
      case Some(l) => if l / 24 < 6_000 then 6_000 else if l / 24 > 86_400 then 86_400 else l / 24
  }

  /** A minute, ten minutes and a hundred minutes; from the fourth failure on a day, or a 24th of the lifetime
      (rounded down) within a hundred minutes and a day. */
  lemma RetryBaseValues(failures: nat, lifetime: Option<nat>)
    ensures RetryBase(1, lifetime) == 60 && RetryBase(2, lifetime) == 600 && RetryBase(3, lifetime) == 6_000
    ensures failures == 0 || failures >= 4 ==>
      var base := RetryBase(failures, lifetime);
      if lifetime.None? then base == 86_400
      else
        && 6_000 <= base <= 86_400
        && (lifetime.value < 144_000 ==> base == 6_000)
        && (144_000 <= lifetime.value < 2_073_600 ==> 24 * base <= lifetime.value < 24 * base + 24)
        && (lifetime.value >= 2_073_600 ==> base == 86_400)
  {}

  function RetryDelay(failures: nat, lifetime: Option<nat>, draw: Result<nat>): (r: Result<nat>)
    ensures r.Ok? <==> draw.Ok? && draw.value <= RetryBase(failures, lifetime) / 10
    ensures r.Ok? ==> 60 <= RetryBase(failures, lifetime) == r.value - draw.value
  {
    var base := RetryBase(failures, lifetime);
    var jitter :- draw;
    if jitter > base / 10 then Err(InvalidData) else Ok(base + jitter)
  }

  function AriDelay(failures: nat, temporary: bool): nat {
    if !temporary then 43_200 else
    match failures
    case 1 => 60
    case 2 => 600
    case 3 => 6_000
    case _ => 43_200
  }

  /** Temporary failures are retried after a minute, ten minutes and a hundred minutes; everything else after half
      a day. */
  lemma AriDelayValues(failures: nat)
    ensures AriDelay(1, true) == 60 && AriDelay(2, true) == 600 && AriDelay(3, true) == 6_000
    ensures failures == 0 || failures >= 4 ==> AriDelay(failures, true) == 43_200
    ensures AriDelay(failures, false) == 43_200
  {}

  lemma RetryBaseMonotone(fewer: nat, more: nat, lifetime: Option<nat>)
    requires 1 <= fewer <= more
    ensures RetryBase(fewer, lifetime) <= RetryBase(more, lifetime)
  {}

  /** The time after retries that fail at once, the k-th one waiting its base plus `jitters[k]`. */
  function AfterRetries(start: nat, lifetime: nat, jitters: seq<nat>): nat {
    if jitters == [] then start else
    var k := |jitters|;
    AfterRetries(start, lifetime, jitters[..k - 1]) + RetryBase(k, Some(lifetime)) + jitters[k - 1]
  }

  ghost predicate LegalJitters(lifetime: nat, jitters: seq<nat>) {
    forall k :: 0 <= k < |jitters| ==> jitters[k] <= RetryBase(k + 1, Some(lifetime)) / 10
  }

  function LongestRetries(lifetime: nat, count: nat): nat {
    if count == 0 then 0 else
    var base := RetryBase(count, Some(lifetime));
    LongestRetries(lifetime, count - 1) + base + base / 10
  }

  lemma {:induction false} RetriesBounded(start: nat, lifetime: nat, jitters: seq<nat>)
    requires LegalJitters(lifetime, jitters)
    ensures AfterRetries(start, lifetime, jitters) <= start + LongestRetries(lifetime, |jitters|)
  {
    if jitters != [] {
      RetriesBounded(start, lifetime, jitters[..|jitters| - 1]);
    }
  }

  function LongestJitters(lifetime: nat, count: nat): (jitters: seq<nat>)
    ensures |jitters| == count
  {
    if count == 0 then [] else
    LongestJitters(lifetime, count - 1) + [RetryBase(count, Some(lifetime)) / 10]
  }

  lemma {:induction false} LongestIsReached(start: nat, lifetime: nat, count: nat)
    ensures LegalJitters(lifetime, LongestJitters(lifetime, count))
    ensures AfterRetries(start, lifetime, LongestJitters(lifetime, count)) == start + LongestRetries(lifetime, count)
  {
    if count > 0 {
      LongestIsReached(start, lifetime, count - 1);
      var jitters := LongestJitters(lifetime, count);
      assert jitters[..count - 1] == LongestJitters(lifetime, count - 1);
    }
  }

  lemma NextRetry(lifetime: nat, count: nat)
    requires count > 0
    ensures var base := RetryBase(count, Some(lifetime));
            LongestRetries(lifetime, count) == LongestRetries(lifetime, count - 1) + base + base / 10
  {}

  lemma TenRetries(lifetime: nat)
    ensures var base := RetryBase(4, Some(lifetime));
            LongestRetries(lifetime, 10) == 7_326 + 7 * (base + base / 10)
  {
    assert LongestRetries(lifetime, 3) == 7_326 by {
      assert LongestRetries(lifetime, 1) == 66;
      assert LongestRetries(lifetime, 2) == 726;
    }
    NextRetry(lifetime, 5);
    NextRetry(lifetime, 7);
    NextRetry(lifetime, 9);
  }

  lemma WorstCaseFits(lifetime: nat)
    ensures Offset(lifetime) + LongestRetries(lifetime, 10) < lifetime <==> lifetime >= 107_053
  {
    TenRetries(lifetime);
    SplitIsTwoThirds(lifetime);
  }

  ghost predicate RetriesFit(validity: CertificateValidity, lifetime: nat, draw: Result<nat>, jitters: seq<nat>) {
    Fallback(validity, draw).Ok? && |jitters| == 10 && LegalJitters(lifetime, jitters)
    ==> AfterRetries(Fallback(validity, draw).value, lifetime, jitters) < validity.notAfter
  }

  lemma LongLifetimesFit(validity: CertificateValidity, lifetime: nat, draw: Result<nat>, jitters: seq<nat>)
    requires validity.notBefore < validity.notAfter <= I64_MAX && lifetime == validity.notAfter - validity.notBefore
    requires Offset(lifetime) + LongestRetries(lifetime, 10) < lifetime
    ensures RetriesFit(validity, lifetime, draw, jitters)
  {
    if Fallback(validity, draw).Ok? && |jitters| == 10 && LegalJitters(lifetime, jitters) {
      RetriesBounded(Fallback(validity, draw).value, lifetime, jitters);
    }
  }

  lemma ShortLifetimesDoNot(validity: CertificateValidity, lifetime: nat)
    requires validity.notBefore < validity.notAfter <= I64_MAX && lifetime == validity.notAfter - validity.notBefore
    requires Offset(lifetime) + LongestRetries(lifetime, 10) >= lifetime
    ensures !RetriesFit(validity, lifetime, Ok(0), LongestJitters(lifetime, 10))
  {
    FallbackInsidePeriod(validity, Ok(0));
    LongestIsReached(Fallback(validity, Ok(0)).value, lifetime, 10);
  }

  ghost predicate AlwaysFit(validity: CertificateValidity, lifetime: nat) {
    forall draw: Result<nat>, jitters: seq<nat> :: RetriesFit(validity, lifetime, draw, jitters)
  }

  lemma OneMisfit(validity: CertificateValidity, lifetime: nat, draw: Result<nat>, jitters: seq<nat>)
    requires !RetriesFit(validity, lifetime, draw, jitters)
    ensures !AlwaysFit(validity, lifetime)
  {}

  /** Ten retries that fail at once all start before expiry, whatever the jitter,
      exactly when the certificate lives at least 107053 seconds. */
  lemma TenRetriesFit(validity: CertificateValidity)
    requires validity.notBefore < validity.notAfter <= I64_MAX
    ensures var lifetime := validity.notAfter - validity.notBefore;
            AlwaysFit(validity, lifetime) <==> lifetime >= 107_053
  {
    var lifetime := validity.notAfter - validity.notBefore;
    WorstCaseFits(lifetime);
    if lifetime >= 107_053 {
      forall draw: Result<nat>, jitters: seq<nat>
        ensures RetriesFit(validity, lifetime, draw, jitters)
      {
        LongLifetimesFit(validity, lifetime, draw, jitters);
      }
    } else {
      ShortLifetimesDoNot(validity, lifetime);
      OneMisfit(validity, lifetime, Ok(0), LongestJitters(lifetime, 10));
    }
  }

  // ----- renewal windows -----

  /** `window_second`: the first whole second at or after a moment given in nanoseconds. */
  function WindowSecond(nanos: int): Option<nat> {
    if nanos < 0 then None
    else if nanos / NANOS + (if nanos % NANOS != 0 then 1 else 0) > U64_MAX then None
    else Some(nanos / NANOS + (if nanos % NANOS != 0 then 1 else 0))
  }

  /** The second is the least one at or after the moment, and missing only if the moment is before the epoch or the
      second does not fit. */
  lemma WindowSecondIsLeast(nanos: int)
    ensures WindowSecond(nanos).Some? <==> 0 <= nanos <= U64_MAX * NANOS
    ensures WindowSecond(nanos).Some? ==>
      forall second: nat :: WindowSecond(nanos).value <= second <==> nanos <= second * NANOS
  {}

  datatype Applied = Applied(certificate: StoredCertificate, valid: bool)

  function ApplyWindow(certificate: StoredCertificate, start: nat, end: nat, draw: Result<nat>): Result<Applied> {
    if start > I64_MAX || end > I64_MAX || end <= start || end > certificate.notAfter then
      Ok(Applied(certificate, false))
    else if certificate.ariWindow.Some? && certificate.ariWindow.value.start == start
        && certificate.ariWindow.value.end == end then
      var selected := certificate.ariWindow.value.selected;
      Ok(Applied(certificate.(renewAt := selected), true))
    else
      var offset :- draw;
      if offset > end - start - 1 then Err(InvalidData) else
      var selected :- Add(start, offset);
      Ok(Applied(certificate.(renewAt := selected, ariWindow := Some(AriWindow(start, end, selected))), true))
  }

  /** An accepted window keeps the record valid and renews at a second inside the
      fractional window; the same window again keeps its second. */
  lemma WindowAccepted(certificate: StoredCertificate, startNanos: int, endNanos: int, draw: Result<nat>)
    requires ValidCertificate(certificate)
    requires WindowSecond(startNanos).Some? && WindowSecond(endNanos).Some?
    ensures var start, end := WindowSecond(startNanos).value, WindowSecond(endNanos).value;
      var r := ApplyWindow(certificate, start, end, draw);
      && (r.Ok? && !r.value.valid ==> r.value.certificate == certificate)
      && (r.Ok? && r.value.valid ==>
            var c := r.value.certificate;
            && ValidCertificate(c)
            && startNanos <= c.renewAt * NANOS < endNanos
            && c.ariWindow == Some(AriWindow(start, end, c.renewAt))
            && (certificate.ariWindow.Some? && certificate.ariWindow.value.start == start
                && certificate.ariWindow.value.end == end
                ==> c == certificate)
            && (c != certificate ==> c.renewAt == start + draw.value))
      && (r.Ok? && r.value.valid <==>
            && start < end <= certificate.notAfter
            && ((certificate.ariWindow.Some? && certificate.ariWindow.value.start == start
                 && certificate.ariWindow.value.end == end)
                || (draw.Ok? && draw.value < end - start)))
  {
    var end := WindowSecond(endNanos).value;
    assert (end - 1) * NANOS < endNanos;
    assert startNanos <= WindowSecond(startNanos).value * NANOS;
    var r := ApplyWindow(certificate, WindowSecond(startNanos).value, end, draw);
    if r.Ok? && r.value.valid {
      assert r.value.certificate.renewAt * NANOS <= (end - 1) * NANOS;
    }
  }
}
