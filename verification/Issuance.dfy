/** What one host's issuance does to durable storage, the CA and the installer, as a log of events.
    `Allowed` is the guard of each event in the state left by the events before it. The driver in
    `Attempts` is proved to append only allowed events; `IssuanceTheorems` states what every such log keeps. */
module Issuance {
  import opened Types

  datatype Status = Pending | Ready | Processing | Valid | Invalid

  datatype AuthorizationStatus = AuthPending | AuthValid | AuthOther

  datatype ChallengeStatus = ChallengePending | ChallengeInvalid | ChallengeOther

  datatype Authorization = Authorization(
    dns: string,
    wildcard: bool,
    status: AuthorizationStatus,
    challenge: Option<ChallengeStatus>)

  /** An authorization that cannot lead to a certificate for this host. */
  predicate Hopeless(dns: string, authorization: Authorization) {
    || authorization.wildcard
    || authorization.dns != dns
    || authorization.status.AuthOther?
    || (authorization.status.AuthPending? &&
        (authorization.challenge.None? || authorization.challenge.value.ChallengeInvalid?))
  }

  datatype Call =
    | Restore
    | NewOrder(dns: string, replacing: Option<string>, profile: Option<string>)
    | Resume(url: Url)
    | Authorize(url: Url)
    | AnswerChallenge(url: Url)
    | Refresh(url: Url)
    | Finalize(url: Url, csr: Csr)
    | Download(url: Url)

  datatype Event =
    | Admitted(now: nat, start: nat, delay: nat, profile: Option<string>) // the floor has passed; times in seconds
    | Saved(record: StoredHost, landed: bool)      // a cut or failed save may land or not
    | Generated(key: Key, csr: Csr)
    | Sent(call: Call, acted: bool)                // a lost request may be acted on or not
    | Opened(url: Url)                             // the CA creates the order that was asked for
    | Reported(url: Url, status: Status)           // the CA reports the order's status
    | Refused(url: Url)                            // the CA answers 404 or 410 for the order
    | Denied(authorization: Authorization)         // the authorization cannot succeed
    | Lapsed(now: nat)                             // the order's expiry has passed
    | Downloaded(url: Url, chain: Chain)
    | Published                                    // the challenge response is being served
    | Slept(nanos: nat)
    | Activated(material: CertificateMaterial)
    | Ended                                        // the attempt returned, was dropped or crashed
    | Rescheduled(record: StoredHost)              // the manager saves a renewal schedule

  datatype Attempt = Attempt(
    start: nat,
    delay: nat,
    profile: Option<string>,
    reserved: bool,
    persisted: bool,                               // a save has landed since the last request
    committed: bool,
    restored: bool,                                // the account was restored with the CA
    generated: Option<(Key, Csr)>,
    last: Option<Call>,
    given: Option<Url>,
    seen: Option<(Url, Status)>,
    downloaded: Option<(Url, Chain)>,
    doomed: bool,
    published: bool,
    answered: bool,
    finalized: bool,
    refreshes: nat,
    slept: nat)

  /** The durable record of the host and the attempt that owns it, if one is running. */
  datatype Progress = Progress(host: Option<StoredHost>, attempt: Option<Attempt>)

  const Start: Progress := Progress(None, None)

  const BUDGET: nat := 900 * NANOS
  const MAX_REFRESHES: nat := 32

  function Begun(e: Event): Attempt
    requires e.Admitted?
  {
    Attempt(e.start, e.delay, e.profile, false, false, false, false, None, None, None, None, None, false, false, false,
            false, 0, 0)
  }

  function Apply(s: Progress, e: Event): Progress {
    match e
    case Admitted(_, _, _, _) => s.(attempt := Some(Begun(e)))
    case Saved(record, landed) => if landed then Land(s, record) else s
    case Rescheduled(record) => s.(host := Some(record))
    case Ended => s.(attempt := None)
    case _ => if s.attempt.Some? then s.(attempt := Some(Note(s.attempt.value, e))) else s
  }

  /** A landed save replaces the whole record; the first one is the reservation.
      A URL the CA gave to an order that is now gone is forgotten with it. */
  function Land(s: Progress, record: StoredHost): Progress {
    if s.attempt.None? then s.(host := Some(record)) else
    var a := s.attempt.value;
    Progress(Some(record), Some(a.(
      reserved := true,
      persisted := true,
      committed := a.reserved && record.retry == Fresh,
      given := if record.order.None? then None else a.given)))
  }

  function Note(a: Attempt, e: Event): Attempt {
    match e
    case Generated(key, csr) => a.(generated := Some((key, csr)))
    case Sent(call, _) =>
      var b := a.(last := Some(call), persisted := false);
      (match call
       case Restore => b.(restored := true)
       case AnswerChallenge(_) => b.(answered := true)
       case Finalize(_, _) => b.(finalized := true, seen := None)
       case Refresh(_) => b.(refreshes := a.refreshes + 1)
       case _ => b)
    case Opened(url) => a.(given := Some(url), last := None)
    case Reported(url, status) => a.(seen := Some((url, status)), doomed := a.doomed || status.Invalid?)
    case Refused(_) => a.(doomed := true)
    case Denied(_) => a.(doomed := true)
    case Lapsed(_) => a.(doomed := true)
    case Downloaded(url, chain) => a.(downloaded := Some((url, chain)))
    case Published => a.(published := true)
    case Slept(nanos) => a.(slept := a.slept + nanos)
    case _ => a
  }

  function NewHost(dns: string): StoredHost {
    StoredHost(dns, None, None, Fresh)
  }

  // ----- guards -----

  /** The first save of an attempt: one more failure and a floor that covers the attempt. */
  predicate Reservation(before: Option<StoredHost>, a: Attempt, record: StoredHost) {
    var base := if before.Some? then before.value else NewHost(record.dns);
    && record == base.(retry := record.retry)
    && record.retry.failures == SaturatingSucc(base.retry.failures, U32_MAX)
    && record.retry.notBefore >= base.retry.notBefore
    && record.retry.notBefore >= a.start + a.delay
  }

  predicate SameOrder(o: PendingOrder, o': PendingOrder) {
    && o'.key == o.key && o'.csr == o.csr && o'.replacing == o.replacing
    && o'.started == o.started && o'.profile == o.profile
  }

  predicate OrderStep(o: Option<PendingOrder>, o': Option<PendingOrder>, a: Attempt) {
    match (o, o')
    case (None, None) => true
    case (Some(_), None) => a.doomed || a.profile != o.value.profile
    case (None, Some(n)) => n.url.None? && n.expires.None? && a.generated == Some((n.key, n.csr))
      && n.profile == a.profile
    case (Some(c), Some(n)) =>
      && SameOrder(c, n)
      && (c.url.Some? ==> n.url == c.url)
      && (c.url.None? && n.url.Some? ==> n.url == a.given)
      && (c.expires.Some? ==> n.expires.Some?)
  }

  /** Any later save before the success commit. */
  predicate Keeps(h: StoredHost, a: Attempt, record: StoredHost) {
    && record.dns == h.dns
    && record.certificate == h.certificate
    && record.retry.failures == h.retry.failures
    && record.retry.notBefore >= h.retry.notBefore
    && record.retry != Fresh
    && OrderStep(h.order, record.order, a)
  }

  /** The success commit: the downloaded chain with the key of the durable order. */
  predicate Commit(h: StoredHost, a: Attempt, record: StoredHost) {
    && h.order.Some? && h.order.value.url.Some?
    && var o := h.order.value;
    && a.downloaded.Some? && a.downloaded.value.0 == o.url.value
    && record.certificate.Some?
    && var c := record.certificate.value;
    && record == StoredHost(h.dns, record.certificate, None, Fresh)
    && c.material == CertificateMaterial(a.downloaded.value.1, o.key)
    && c.replacing == o.replacing && c.profile == o.profile
    && c.notBefore <= c.ariCheckAt < c.notAfter
    && c.notBefore <= c.renewAt < c.notAfter && c.fallbackAt == c.renewAt
    && c.ariWindow.None? && c.ariFailures == 0
  }

  predicate SaveAllowed(s: Progress, record: StoredHost) {
    && s.attempt.Some?
    && var a := s.attempt.value;
    if !a.reserved then Reservation(s.host, a, record)
    else !a.committed && s.host.Some? && (Keeps(s.host.value, a, record) || Commit(s.host.value, a, record))
  }

  /** The driver talks to the CA only on behalf of the record that is durable at that moment, and saves it again,
      with a current floor, before every request. */
  predicate CallAllowed(h: StoredHost, a: Attempt, call: Call) {
    && a.reserved && a.persisted && !a.committed
    && (!call.Restore? ==> a.restored && h.order.Some? && OrderCallAllowed(h.dns, h.order.value, a, call))
  }

  predicate OrderCallAllowed(dns: string, o: PendingOrder, a: Attempt, call: Call) {
    match call
    case Restore => true
    case NewOrder(name, replacing, profile) => o.url.None? && name == dns && replacing == o.replacing
      && profile == o.profile
    case Resume(url) => o.url == Some(url)
    case Authorize(url) => o.url == Some(url)
    case AnswerChallenge(url) => o.url == Some(url) && a.published && !a.answered
    case Refresh(url) => o.url == Some(url) && a.refreshes < MAX_REFRESHES
    case Finalize(url, csr) => o.url == Some(url) && o.csr == csr && a.seen == Some((url, Ready)) && !a.finalized
    case Download(url) => o.url == Some(url) && a.seen == Some((url, Valid))
  }

  predicate EventAllowed(h: StoredHost, a: Attempt, e: Event) {
    match e
    case Sent(call, _) => CallAllowed(h, a, call)
    case Opened(_) => a.last.Some? && a.last.value.NewOrder?
    case Reported(url, _) => a.given == Some(url) || (h.order.Some? && h.order.value.url == Some(url))
    case Refused(url) => a.last == Some(Resume(url)) || a.last == Some(Refresh(url))
    case Denied(authorization) => a.last.Some? && a.last.value.Authorize? && Hopeless(h.dns, authorization)
    case Lapsed(now) => h.order.Some? && h.order.value.expires.Some? && h.order.value.expires.value <= now
    case Downloaded(url, _) => a.last == Some(Download(url))
    case Slept(nanos) => a.slept + nanos < BUDGET
    case Activated(material) => a.committed && h.certificate.Some? && h.certificate.value.material == material
    case _ => true
  }

  predicate OnlyReschedules(c: StoredCertificate, c': StoredCertificate) {
    c' == c.(renewAt := c'.renewAt, ariCheckAt := c'.ariCheckAt, ariWindow := c'.ariWindow,
             ariFailures := c'.ariFailures)
  }

  predicate Allowed(s: Progress, e: Event) {
    match e
    case Admitted(now, start, delay, _) =>
      s.attempt.None? && delay >= 60 && (s.host.Some? ==> s.host.value.retry.notBefore <= now)
    case Saved(record, _) => SaveAllowed(s, record)
    case Ended => s.attempt.Some?
    case Rescheduled(record) =>
      && s.attempt.None? && s.host.Some?
      && s.host.value.certificate.Some? && record.certificate.Some?
      && record == s.host.value.(certificate := record.certificate)
      && OnlyReschedules(s.host.value.certificate.value, record.certificate.value)
    case _ => s.attempt.Some? && s.host.Some? && EventAllowed(s.host.value, s.attempt.value, e)
  }

  /** `states[i]` is the state before `log[i]`; every event is allowed where it happens. */
  ghost predicate Behavior(states: seq<Progress>, log: seq<Event>) {
    && |states| == |log| + 1
    && states[0] == Start
    && forall i {:trigger log[i]} :: 0 <= i < |log| ==>
         Allowed(states[i], log[i]) && states[i + 1] == Apply(states[i], log[i])
  }
}
