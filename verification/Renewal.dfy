/** What a renewal-information outcome does to a stored certificate (the `Ari` branch of `drive` in
    `manager/mod.rs`). */
module Renewal {
  import opened Types
  import Schedule

  datatype Window = Window(start: Option<nat>, end: Option<nat>, delay: nat)

  datatype Answer =
    | Suggested(window: Window)
    | Superseded                                       // the check found the certificate replaced or expired
    | Failed(kind: FailureKind, hint: Option<int>)     // the hint is a moment in nanoseconds

  predicate Temporary(kind: FailureKind) {
    kind.Network? || kind.Timeout? || kind.RateLimited?
  }

  /** The certificate after an accepted or rejected window. */
  function Suggest(c: StoredCertificate, window: Window, draw: Result<nat>): Result<Schedule.Applied> {
    var reset := c.(ariFailures := 0);
    var applied :- if window.start.Some? && window.end.Some?
                   then Schedule.ApplyWindow(reset, window.start.value, window.end.value, draw)
                   else Ok(Schedule.Applied(reset, false));
    if applied.valid then Ok(applied)
    else Ok(Schedule.Applied(applied.certificate.(ariWindow := None, renewAt := applied.certificate.fallbackAt), false))
  }

  /** The wait that a server's hint asks for, in seconds from now. */
  function HintDelay(hint: Option<int>, now: nat): Result<nat> {
    if hint.None? then Ok(0)
    else if hint.value < 0 then Err(InvalidData) else
    var at :- Schedule.Add(hint.value / NANOS, if hint.value % NANOS != 0 then 1 else 0);
    Ok(if at > now then at - now else 0)
  }

  /** The certificate to store after the answer, with its next check scheduled. */
  function AfterAnswer(c: StoredCertificate, answer: Answer, now: nat, draw: Result<nat>): Result<StoredCertificate> {
    match answer
    case Suggested(window) =>
      var applied :- Suggest(c, window, draw);
      var at :- Schedule.Add(now, if applied.valid then Max(window.delay, 60) else 43_200);
      Ok(applied.certificate.(ariCheckAt := at))
    case Superseded =>
      var at :- Schedule.Add(now, 43_200);
      Ok(c.(ariCheckAt := at))
    case Failed(kind, hint) =>
      var failures := SaturatingSucc(c.ariFailures, U32_MAX);
      var wait :- HintDelay(hint, now);
      var at :- Schedule.Add(now, Max(Schedule.AriDelay(failures, Temporary(kind)), wait));
      Ok(c.(ariFailures := failures, ariCheckAt := at))
  }

  /** Every answer keeps the record valid and the certificate itself untouched, and schedules the next check
      at least a minute ahead. A malformed window restores the fallback; a failed check keeps the schedule. */
  lemma AnswersKeepValid(c: StoredCertificate, answer: Answer, now: nat, draw: Result<nat>)
    requires ValidCertificate(c)
    ensures var r := AfterAnswer(c, answer, now, draw);
      r.Ok? ==>
        var c' := r.value;
        && ValidCertificate(c')
        && c' == c.(renewAt := c'.renewAt, ariCheckAt := c'.ariCheckAt, ariWindow := c'.ariWindow,
                    ariFailures := c'.ariFailures)
        && c'.ariCheckAt >= now + 60
        && (!answer.Suggested? ==> c'.renewAt == c.renewAt && c'.ariWindow == c.ariWindow)
        && (answer.Failed? && answer.hint.Some? ==> answer.hint.value <= c'.ariCheckAt * NANOS)
        && (answer.Suggested? ==>
              && c'.ariFailures == 0
              && (c'.ariWindow.None? ==> c'.renewAt == c.fallbackAt)
              && (c'.ariWindow.Some? <==>
                    && answer.window.start.Some? && answer.window.end.Some?
                    && answer.window.start.value < answer.window.end.value <= c.notAfter)
              && (c'.ariWindow.Some? ==>
                    c'.ariWindow.value.start == answer.window.start.value
                      && c'.ariWindow.value.end == answer.window.end.value)
              && (c'.ariWindow.Some? && c.ariWindow.Some?
                  && c.ariWindow.value.start == c'.ariWindow.value.start
                  && c.ariWindow.value.end == c'.ariWindow.value.end
                  ==> c'.renewAt == c.renewAt))
  {}

  /** An accepted window renews at a whole second inside the fractional window the CA suggested. */
  lemma AcceptedSecondIsInside(c: StoredCertificate, startNanos: int, endNanos: int, delay: nat, now: nat,
                               draw: Result<nat>)
    requires ValidCertificate(c)
    ensures var answer := Suggested(Window(Schedule.WindowSecond(startNanos), Schedule.WindowSecond(endNanos), delay));
      var r := AfterAnswer(c, answer, now, draw);
      r.Ok? && r.value.ariWindow.Some? ==> startNanos <= r.value.renewAt * NANOS < endNanos
  {
    var start, end := Schedule.WindowSecond(startNanos), Schedule.WindowSecond(endNanos);
    if start.Some? && end.Some? {
      Schedule.WindowAccepted(c.(ariFailures := 0), startNanos, endNanos, draw);
    }
  }

  /** How long a failed check waits by itself, after `failures` failed checks in a row. */
  function Backoff(failures: nat, kind: FailureKind): nat {
    match (kind, failures)
    case (Network, 1) => 60
    case (Network, 2) => 600
    case (Network, 3) => 6_000
    case (Timeout, 1) => 60
    case (Timeout, 2) => 600
    case (Timeout, 3) => 6_000
    case (RateLimited, 1) => 60
    case (RateLimited, 2) => 600
    case (RateLimited, 3) => 6_000
    case _ => 43_200
  }

  /** The next check: after an accepted window, when the CA asks for it, but not within a minute; after a rejected
      or a superseded one, in half a day; after a failure, at the first second that leaves the back-off and the
      server's hint behind. */
  lemma NextCheck(c: StoredCertificate, answer: Answer, now: nat, draw: Result<nat>)
    requires ValidCertificate(c) && AfterAnswer(c, answer, now, draw).Ok?
    ensures var c' := AfterAnswer(c, answer, now, draw).value;
      match answer
      case Suggested(window) =>
        c'.ariCheckAt - now == if c'.ariWindow.Some? then Max(window.delay, 60) else 43_200
      case Superseded =>
        c'.ariCheckAt - now == 43_200 && c'.ariFailures == c.ariFailures
      case Failed(kind, hint) =>
        && c'.ariFailures == Min(c.ariFailures + 1, U32_MAX)
        && (forall at: nat :: c'.ariCheckAt <= at <==>
              at >= now + Backoff(c'.ariFailures, kind) && (hint.Some? ==> hint.value <= at * NANOS))
  {}

  /** An answer is refused exactly if the next check, or the hint, cannot be represented, or a new window gets no
      draw. */
  lemma AnswerIsRefused(c: StoredCertificate, answer: Answer, now: nat, draw: Result<nat>)
    requires ValidCertificate(c)
    ensures AfterAnswer(c, answer, now, draw).Err? <==>
      match answer
      case Superseded => now + 43_200 > I64_MAX
      case Failed(kind, hint) =>
        || now + Backoff(Min(c.ariFailures + 1, U32_MAX), kind) > I64_MAX
        || (hint.Some? && !(0 <= hint.value <= I64_MAX * NANOS))
      case Suggested(window) =>
        if window.start.Some? && window.end.Some? && window.start.value < window.end.value <= c.notAfter then
          || now + Max(window.delay, 60) > I64_MAX
          || (&& !(c.ariWindow.Some? && c.ariWindow.value.start == window.start.value
                   && c.ariWindow.value.end == window.end.value)
              && !(draw.Ok? && draw.value < window.end.value - window.start.value))
        else now + 43_200 > I64_MAX
  {}
}
